/**
 * Path reconstruction: follow a parent map back from a configuration until a
 * configuration without a parent entry is reached, then reverse the result.
 * The map is not assumed to be acyclic, so the walk may never end; the model
 * reports that case as `None`.
 */
module PathTrace {
  import opened Wrappers

  /** Where `n` steps of the walk from `c` lead; the walk stays put once it leaves the map. */
  function Walk<T>(c: T, parent: map<T, T>, n: nat): T {
    if n == 0 || c !in parent then c else Walk(parent[c], parent, n - 1)
  }

  /** The walk from `c` never leaves the map: a `while c in parent` loop never exits. */
  ghost predicate Loops<T>(c: T, parent: map<T, T>) {
    forall n: nat :: Walk(c, parent, n) in parent
  }

  function Reversed<T>(s: seq<T>): (r: seq<T>)
    ensures |r| == |s|
    ensures forall k :: 0 <= k < |s| ==> r[k] == s[|s| - 1 - k]
  {
    if s == [] then [] else Reversed(s[1..]) + [s[0]]
  }

  /** The path from the root of the walk to `c`, when the root is reached within `fuel` steps. */
  function Chain<T>(c: T, parent: map<T, T>, fuel: nat): Option<seq<T>> {
    if c !in parent then Some([c])
    else if fuel == 0 then None
    else match Chain(parent[c], parent, fuel - 1)
      case None => None
      case Some(p) => Some(p + [c])
  }

  /**
   * What the trace loop produces: `Some(path)` when the walk from `c` leaves
   * the map, `None` when it never does. A walk that leaves the map visits
   * distinct keys, so `|parent|` steps are enough to reach its root.
   */
  function TraceOf<T>(c: T, parent: map<T, T>): Option<seq<T>> {
    Chain(c, parent, |parent|)
  }

  lemma {:induction false} WalkAdd<T>(c: T, parent: map<T, T>, a: nat, b: nat)
    ensures Walk(c, parent, a + b) == Walk(Walk(c, parent, a), parent, b)
    decreases a
  {
    if a > 0 && c in parent {
      WalkAdd(parent[c], parent, a - 1, b);
    }
  }

  lemma {:induction false} ChainShape<T>(c: T, parent: map<T, T>, fuel: nat, p: seq<T>)
    requires Chain(c, parent, fuel) == Some(p)
    ensures 1 <= |p| <= fuel + 1 && p[|p| - 1] == c
    ensures p[0] == Walk(c, parent, |p| - 1) && p[0] !in parent
    ensures forall k :: 1 <= k < |p| ==> p[k] in parent && parent[p[k]] == p[k - 1]
    decreases fuel
  {
    if c in parent {
      var q := Chain(parent[c], parent, fuel - 1).value;
      ChainShape(parent[c], parent, fuel - 1, q);
      assert p == q + [c];
    }
  }

  /**
   * A traced path ends at `c`, starts at a configuration with no parent
   * entry, and each element is the parent of the one after it.
   */
  lemma TraceShape<T>(c: T, parent: map<T, T>, p: seq<T>)
    requires TraceOf(c, parent) == Some(p)
    ensures |p| >= 1 && p[|p| - 1] == c && p[0] !in parent
    ensures forall k :: 1 <= k < |p| ==> p[k] in parent && parent[p[k]] == p[k - 1]
  {
    ChainShape(c, parent, |parent|, p);
  }

  lemma {:induction false} ChainNoneWalks<T>(c: T, parent: map<T, T>, fuel: nat)
    requires Chain(c, parent, fuel) == None
    ensures forall k :: 0 <= k <= fuel ==> Walk(c, parent, k) in parent
    decreases fuel
  {
    if fuel > 0 {
      ChainNoneWalks(parent[c], parent, fuel - 1);
      forall k | 1 <= k <= fuel ensures Walk(c, parent, k) in parent {
        assert Walk(c, parent, k) == Walk(parent[c], parent, k - 1);
      }
    }
  }

  lemma {:induction false} WalksChainNone<T>(c: T, parent: map<T, T>, fuel: nat)
    requires forall k :: 0 <= k <= fuel ==> Walk(c, parent, k) in parent
    ensures Chain(c, parent, fuel) == None
    decreases fuel
  {
    assert Walk(c, parent, 0) in parent;
    if fuel > 0 {
      forall k | 0 <= k <= fuel - 1 ensures Walk(parent[c], parent, k) in parent {
        assert Walk(c, parent, k + 1) == Walk(parent[c], parent, k);
      }
      WalksChainNone(parent[c], parent, fuel - 1);
    }
  }

  /** A sequence longer than the set holding its elements repeats an element. */
  lemma {:induction false} Pigeonhole<T>(s: seq<T>, keys: set<T>)
    requires forall k :: 0 <= k < |s| ==> s[k] in keys
    requires |s| > |keys|
    ensures exists i, j :: 0 <= i < j < |s| && s[i] == s[j]
    decreases |s|
  {
    var n := |s| - 1;
    var x := s[n];
    if !exists i :: 0 <= i < n && s[i] == x {
      var rest := keys - {x};
      assert |rest| == |keys| - 1;
      forall k | 0 <= k < n ensures s[..n][k] in rest {
        assert s[k] != x;
      }
      Pigeonhole(s[..n], rest);
      var i, j :| 0 <= i < j < n && s[..n][i] == s[..n][j];
      assert s[i] == s[j];
    }
  }

  lemma {:induction false} RepeatStaysInMap<T>(c: T, parent: map<T, T>, i: nat, j: nat, n: nat)
    requires i < j
    requires forall k :: 0 <= k <= j ==> Walk(c, parent, k) in parent
    requires Walk(c, parent, i) == Walk(c, parent, j)
    ensures Walk(c, parent, n) in parent
    decreases n
  {
    if n > j {
      WalkAdd(c, parent, j, n - j);
      WalkAdd(c, parent, i, n - j);
      RepeatStaysInMap(c, parent, i, j, i + (n - j));
    }
  }

  /**
   * The trace loop runs forever exactly when its result is `None`: a walk
   * that stays in the map for `|parent|` steps has revisited a key, and from
   * there it goes round the same cycle for ever.
   */
  lemma TraceNoneIffLoops<T>(c: T, parent: map<T, T>)
    ensures TraceOf(c, parent).None? <==> Loops(c, parent)
  {
    if TraceOf(c, parent).None? {
      ChainNoneWalks(c, parent, |parent|);
      var s := seq(|parent| + 1, k requires 0 <= k <= |parent| => Walk(c, parent, k));
      Pigeonhole(s, parent.Keys);
      var i, j :| 0 <= i < j < |s| && s[i] == s[j];
      forall n: nat ensures Walk(c, parent, n) in parent {
        RepeatStaysInMap(c, parent, i, j, n);
      }
    } else {
      var p := TraceOf(c, parent).value;
      ChainShape(c, parent, |parent|, p);
    }
  }

  lemma {:induction false} ChainOfWalk<T>(c: T, parent: map<T, T>, fuel: nat, path: seq<T>)
    requires 1 <= |path| <= fuel + 1
    requires forall k :: 0 <= k < |path| ==> path[k] == Walk(c, parent, k)
    requires forall k :: 0 <= k < |path| - 1 ==> path[k] in parent
    requires path[|path| - 1] !in parent
    ensures Chain(c, parent, fuel) == Some(Reversed(path))
    decreases |path|
  {
    assert path[0] == c;
    if |path| > 1 {
      forall k | 0 <= k < |path| - 1 ensures path[1..][k] == Walk(parent[c], parent, k) {
        assert Walk(c, parent, k + 1) == Walk(parent[c], parent, k);
      }
      ChainOfWalk(parent[c], parent, fuel - 1, path[1..]);
      assert c in parent && fuel > 0;
      assert Reversed(path) == Reversed(path[1..]) + [c];
    } else {
      assert Reversed(path) == Reversed(path[1..]) + [c] == [c];
    }
  }

  /**
   * Follows parent links back from `c`, collecting the configurations met, and
   * returns them root first. The source loop is unbounded; this one stops
   * after `|parent|` steps, which is exactly when the source loop would be
   * caught in a cycle, and then answers `None`.
   */
  method Trace<T>(c: T, parent: map<T, T>) returns (path: Option<seq<T>>)
    ensures path == TraceOf(c, parent)
  {
    var cur := c;
    var walked := [c];
    var steps := 0;
    while cur in parent && steps < |parent|
      invariant 0 <= steps <= |parent| && |walked| == steps + 1
      invariant cur == Walk(c, parent, steps)
      invariant forall k :: 0 <= k < |walked| ==> walked[k] == Walk(c, parent, k)
      invariant forall k :: 0 <= k < steps ==> Walk(c, parent, k) in parent
      decreases |parent| - steps
    {
      WalkAdd(c, parent, steps, 1);
      cur := parent[cur];
      walked := walked + [cur];
      steps := steps + 1;
    }
    if cur in parent {
      WalksChainNone(c, parent, |parent|);
      return None;
    }
    ChainOfWalk(c, parent, |parent|, walked);
    return Some(Reversed(walked));
  }
}
