/**
 * What a run of the explorer reports, stated in terms of the levels of the
 * configuration tree, which do not depend on the parent map or the counter.
 */
module ExplorerProofs {
  import opened Wrappers
  import opened StepEngine
  import opened PathTrace
  import opened Explorer

  /** Level `k` of the configuration tree: the configurations reachable in exactly `k` steps. */
  function Level(m: Machine, input: string, k: nat): seq<Config> {
    if k == 0 then [Initial(m, input)] else Children(m, Level(m, input, k - 1))
  }

  /** The configurations on levels 1 to `k`: the transitions generated while expanding levels below `k`. */
  function Generated(m: Machine, input: string, k: nat): nat {
    if k == 0 then 0 else Generated(m, input, k - 1) + |Level(m, input, k)|
  }

  /** The parent map once levels 0 to `k - 1` have been expanded. */
  function Parents(m: Machine, input: string, k: nat): map<Config, Config> {
    if k == 0 then map[] else RecordLevel(m, Parents(m, input, k - 1), Level(m, input, k - 1))
  }

  /** A level past which the search goes on: it is not empty and holds no accepting configuration. */
  predicate Continues(m: Machine, level: seq<Config>) {
    level != [] && FirstAccept(m.accept, level).None?
  }

  /** The first level from `d` on, below the bound, at which the search stops; the bound if there is none. */
  function FirstStop(m: Machine, input: string, maxSteps: int, d: nat): (s: nat)
    requires d <= maxSteps
    ensures d <= s <= maxSteps
    ensures forall k :: d <= k < s ==> Continues(m, Level(m, input, k))
    ensures s < maxSteps ==> !Continues(m, Level(m, input, s))
    decreases maxSteps - d
  {
    if d == maxSteps || !Continues(m, Level(m, input, d)) then d else FirstStop(m, input, maxSteps, d + 1)
  }

  /** Children distributes over concatenation of levels. */
  lemma {:induction false} ChildrenAppend(m: Machine, a: seq<Config>, b: seq<Config>)
    ensures Children(m, a + b) == Children(m, a) + Children(m, b)
    decreases |b|
  {
    if b != [] {
      var n := |b| - 1;
      assert (a + b)[..|a + b| - 1] == a + b[..n];
      ChildrenAppend(m, a, b[..n]);
    } else {
      assert a + b == a;
    }
  }

  /** A configuration is on the next level exactly when it is a successor of one on this level. */
  lemma {:induction false} ChildrenMember(m: Machine, level: seq<Config>, s: Config)
    ensures s in Children(m, level) <==> exists c :: c in level && s in Successors(m, c)
    decreases |level|
  {
    if level != [] {
      var n := |level| - 1;
      ChildrenMember(m, level[..n], s);
      assert level == level[..n] + [level[n]];
      if s in Successors(m, level[n]) {
        assert level[n] in level;
      }
      if exists c :: c in level[..n] && s in Successors(m, c) {
        var c :| c in level[..n] && s in Successors(m, c);
        assert c in level;
      }
    }
  }

  lemma {:induction false} LinkFacts(parents: map<Config, Config>, kids: seq<Config>, p: Config)
    ensures forall s :: s in Link(parents, kids, p) <==> s in parents || s in kids
    ensures forall s :: s in kids ==> Link(parents, kids, p)[s] == p
    ensures forall s :: s in parents && s !in kids ==> Link(parents, kids, p)[s] == parents[s]
    decreases |kids|
  {
    if kids != [] {
      var n := |kids| - 1;
      LinkFacts(parents, kids[..n], p);
      assert kids == kids[..n] + [kids[n]];
    }
  }

  /**
   * The parent map after a level is expanded: its keys are the old keys and
   * the next level's configurations; each of those is mapped to the LAST
   * configuration of the level that has it as a successor (a later
   * assignment overwrites an earlier one); every other entry is unchanged.
   */
  lemma {:induction false} RecordLevelFacts(m: Machine, parents: map<Config, Config>, level: seq<Config>)
    ensures forall s :: s in RecordLevel(m, parents, level) <==> s in parents || s in Children(m, level)
    ensures forall s :: s in Children(m, level) ==> LastParent(m, RecordLevel(m, parents, level), level, s)
    ensures forall s :: s in parents && s !in Children(m, level) ==> RecordLevel(m, parents, level)[s] == parents[s]
    decreases |level|
  {
    if level != [] {
      var n := |level| - 1;
      var pre, c := level[..n], level[n];
      var r0 := RecordLevel(m, parents, pre);
      RecordLevelFacts(m, parents, pre);
      LinkFacts(r0, Successors(m, c), c);
      var r := RecordLevel(m, parents, level);
      assert r == Link(r0, Successors(m, c), c);
      forall s | s in Children(m, level) ensures LastParent(m, r, level, s) {
        if s in Successors(m, c) {
          assert r[s] == level[n];
        } else {
          LastParentExtends(m, r0, r, level, s);
        }
      }
    }
  }

  /**
   * `parents` maps `s` to the last configuration of `level` that has `s` as a
   * successor.
   */
  ghost predicate LastParent(m: Machine, parents: map<Config, Config>, level: seq<Config>, s: Config) {
    s in parents &&
    exists i :: 0 <= i < |level| && parents[s] == level[i] && s in Successors(m, level[i]) &&
      forall k :: i < k < |level| ==> s !in Successors(m, level[k])
  }

  lemma LastParentExtends(m: Machine, r0: map<Config, Config>, r: map<Config, Config>, level: seq<Config>, s: Config)
    requires level != []
    requires LastParent(m, r0, level[..|level| - 1], s)
    requires s in r && r[s] == r0[s] && s !in Successors(m, level[|level| - 1])
    ensures LastParent(m, r, level, s)
  {
    var n := |level| - 1;
    var pre := level[..n];
    var i :| 0 <= i < |pre| && r0[s] == pre[i] && s in Successors(m, pre[i]) &&
             forall k :: i < k < |pre| ==> s !in Successors(m, pre[k]);
    assert r[s] == level[i];
    forall k | i < k < |level| ensures s !in Successors(m, level[k]) {
      if k < n { assert level[k] == pre[k]; }
    }
  }

  /**
   * The invariant that parent links keep during a run: each entry maps a
   * configuration to a non-accepting one that has it as a successor and that
   * is itself the initial configuration or an entry; each configuration of
   * the current level is the initial configuration or an entry.
   */
  ghost predicate WellLinked(m: Machine, init: Config, parents: map<Config, Config>, level: seq<Config>) {
    && (forall s :: s in parents ==>
          s in Successors(m, parents[s]) && parents[s].state !in m.accept &&
          (parents[s] == init || parents[s] in parents))
    && (forall c :: c in level ==> c == init || c in parents)
  }

  /** Expanding a prefix of non-accepting configurations keeps the parent links well formed. */
  lemma RecordKeepsLinked(m: Machine, init: Config, parents: map<Config, Config>, level: seq<Config>, n: nat)
    requires WellLinked(m, init, parents, level)
    requires n <= |level| && forall k :: 0 <= k < n ==> level[k].state !in m.accept
    ensures WellLinked(m, init, RecordLevel(m, parents, level[..n]), level)
    ensures n == |level| ==> WellLinked(m, init, RecordLevel(m, parents, level), Children(m, level))
  {
    var pre := level[..n];
    var r := RecordLevel(m, parents, pre);
    RecordLevelFacts(m, parents, pre);
    forall s | s in r
      ensures s in Successors(m, r[s]) && r[s].state !in m.accept && (r[s] == init || r[s] in r)
    {
      if s in Children(m, pre) {
        assert LastParent(m, r, pre, s);
        var i :| 0 <= i < |pre| && r[s] == pre[i] && s in Successors(m, pre[i]) &&
                 forall k :: i < k < |pre| ==> s !in Successors(m, pre[k]);
        assert pre[i] == level[i] && level[i] in level;
      }
    }
    if n == |level| {
      assert pre == level;
    }
  }

  lemma {:induction false} LevelsLinked(m: Machine, input: string, d: nat)
    requires forall k :: 0 <= k < d ==> Continues(m, Level(m, input, k))
    ensures WellLinked(m, Initial(m, input), Parents(m, input, d), Level(m, input, d))
    decreases d
  {
    if d > 0 {
      LevelsLinked(m, input, d - 1);
      var level := Level(m, input, d - 1);
      RecordKeepsLinked(m, Initial(m, input), Parents(m, input, d - 1), level, |level|);
    }
  }

  /** In a map whose every value is also a key, no walk from a key leaves the map. */
  lemma {:induction false} ClosedWalkStays(parents: map<Config, Config>, x: Config, n: nat)
    requires forall s :: s in parents ==> parents[s] in parents
    requires x in parents
    ensures Walk(x, parents, n) in parents
    decreases n
  {
    if n > 0 {
      ClosedWalkStays(parents, parents[x], n - 1);
    }
  }

  /**
   * Once the initial configuration is given a parent (it was produced again
   * later), the trace from any configuration of the level never ends.
   */
  lemma InitialEntryLoops(m: Machine, init: Config, parents: map<Config, Config>,
                          level: seq<Config>, c: Config)
    requires WellLinked(m, init, parents, level) && init in parents && c in level
    ensures Loops(c, parents)
  {
    assert forall s :: s in parents ==> parents[s] in parents;
    forall n: nat ensures Walk(c, parents, n) in parents {
      ClosedWalkStays(parents, c, n);
    }
  }

  /** A run that gets past levels 0 to `d - 1` is at level `d` in the state the levels determine. */
  lemma ExploreReaches(m: Machine, input: string, maxSteps: int, d: nat)
    requires d <= maxSteps
    requires forall k :: 0 <= k < d ==> Continues(m, Level(m, input, k))
    ensures Explore(m, input, maxSteps) ==
            ExploreFrom(m, maxSteps, d, Level(m, input, d), Parents(m, input, d), Generated(m, input, d))
    decreases d
  {
    if d > 0 {
      ExploreReaches(m, input, maxSteps, d - 1);
      ReachNext(m, input, maxSteps, d);
    } else {
      ExploreStarts(m, input, maxSteps);
    }
  }

  lemma ExploreStarts(m: Machine, input: string, maxSteps: int)
    ensures Explore(m, input, maxSteps) ==
            ExploreFrom(m, maxSteps, 0, Level(m, input, 0), Parents(m, input, 0), Generated(m, input, 0))
  {
    assert Level(m, input, 0) == [Initial(m, input)];
    assert Parents(m, input, 0) == map[] && Generated(m, input, 0) == 0;
  }

  lemma ReachNext(m: Machine, input: string, maxSteps: int, d: nat)
    requires 0 < d <= maxSteps && Continues(m, Level(m, input, d - 1))
    requires Explore(m, input, maxSteps) ==
             ExploreFrom(m, maxSteps, d - 1, Level(m, input, d - 1), Parents(m, input, d - 1), Generated(m, input, d - 1))
    ensures Explore(m, input, maxSteps) ==
            ExploreFrom(m, maxSteps, d, Level(m, input, d), Parents(m, input, d), Generated(m, input, d))
  {
    LevelStep(m, input, d);
    NextLevelIs(m, maxSteps, d - 1, Level(m, input, d - 1), Parents(m, input, d - 1), Generated(m, input, d - 1),
                Level(m, input, d), Parents(m, input, d), Generated(m, input, d));
  }

  /** Proof step: `ExploreFromNext` with the next level, parent map and counter named. */
  lemma NextLevelIs(m: Machine, maxSteps: int, depth: nat, level: seq<Config>, parents: map<Config, Config>, total: nat,
                    next: seq<Config>, parents': map<Config, Config>, total': nat)
    requires depth < maxSteps && Continues(m, level)
    requires next == Children(m, level) && parents' == RecordLevel(m, parents, level) && total' == total + |next|
    ensures ExploreFrom(m, maxSteps, depth, level, parents, total) == ExploreFrom(m, maxSteps, depth + 1, next, parents', total')
  {
    ExploreFromNext(m, maxSteps, depth, level, parents, total);
  }

  lemma LevelStep(m: Machine, input: string, d: nat)
    requires d > 0
    ensures Level(m, input, d) == Children(m, Level(m, input, d - 1))
    ensures Parents(m, input, d) == RecordLevel(m, Parents(m, input, d - 1), Level(m, input, d - 1))
    ensures Generated(m, input, d) == Generated(m, input, d - 1) + |Children(m, Level(m, input, d - 1))|
  {
  }

  /** A bound of zero or less expands nothing and reports rejection at that bound. */
  lemma NonPositiveBound(m: Machine, input: string, maxSteps: int)
    requires maxSteps <= 0
    ensures Explore(m, input, maxSteps) == Halts(Report(false, maxSteps, 0, []))
  {
  }

  /**
   * The outcome of every run with a positive bound, decided by the first
   * level that stops the search: none below the bound gives rejection at the
   * bound; an empty level gives rejection at its depth; otherwise the first
   * accepting configuration of that level is traced through the parent map
   * as it stands when it is reached.
   */
  lemma ExploreOutcome(m: Machine, input: string, maxSteps: int)
    requires maxSteps > 0
    ensures var s := FirstStop(m, input, maxSteps, 0);
            var level := Level(m, input, s);
            Explore(m, input, maxSteps) ==
              if s == maxSteps then Halts(Report(false, maxSteps, Generated(m, input, s), []))
              else if level == [] then Halts(Report(false, s, Generated(m, input, s), []))
              else
                var i := FirstAccept(m.accept, level).value;
                Finish(s, Generated(m, input, s) + |Children(m, level[..i])|,
                       TraceOf(level[i], RecordLevel(m, Parents(m, input, s), level[..i])))
  {
    var s := FirstStop(m, input, maxSteps, 0);
    ExploreReaches(m, input, maxSteps, s);
  }

  /**
   * Acceptance is reported at the shallowest level holding an accepting
   * configuration, below the bound; the path is the trace of the first
   * accepting configuration of that level, and the count is every
   * configuration generated before it was reached.
   */
  lemma AcceptedIsShallowest(m: Machine, input: string, maxSteps: int, d: int, t: nat, p: seq<Config>)
    requires Explore(m, input, maxSteps) == Halts(Report(true, d, t, p))
    ensures 0 <= d < maxSteps
    ensures forall k :: 0 <= k < d ==> Continues(m, Level(m, input, k))
    ensures FirstAccept(m.accept, Level(m, input, d)).Some?
    ensures var level, i := Level(m, input, d), FirstAccept(m.accept, Level(m, input, d)).value;
            t == Generated(m, input, d) + |Children(m, level[..i])| &&
            TraceOf(level[i], RecordLevel(m, Parents(m, input, d), level[..i])) == Some(p)
  {
    if maxSteps <= 0 {
      NonPositiveBound(m, input, maxSteps);
    } else {
      ExploreOutcome(m, input, maxSteps);
    }
  }

  /**
   * A rejection carries no path and names either the bound, with no level
   * below it stopping the search, or the first empty level below the bound;
   * no level before it holds an accepting configuration.
   */
  lemma RejectedHasNoAcceptBefore(m: Machine, input: string, maxSteps: int, d: int, t: nat, p: seq<Config>)
    requires Explore(m, input, maxSteps) == Halts(Report(false, d, t, p))
    ensures p == []
    ensures forall k :: 0 <= k < d ==> Continues(m, Level(m, input, k))
    ensures d == maxSteps || (0 <= d < maxSteps && Level(m, input, d) == [])
    ensures t == if d <= 0 then 0 else Generated(m, input, d)
  {
    if maxSteps <= 0 {
      NonPositiveBound(m, input, maxSteps);
    } else {
      ExploreOutcome(m, input, maxSteps);
    }
  }

  /**
   * An accepted run's path is a computation of the machine: it starts at the
   * initial configuration, each later configuration is a successor of the
   * one before it, which is not accepting, and it ends at an accepting
   * configuration of the reported level.
   */
  lemma AcceptedPathIsRun(m: Machine, input: string, maxSteps: int, d: int, t: nat, p: seq<Config>)
    requires Explore(m, input, maxSteps) == Halts(Report(true, d, t, p))
    ensures |p| >= 1 && p[0] == Initial(m, input)
    ensures p[|p| - 1].state in m.accept
    ensures 0 <= d && p[|p| - 1] in Level(m, input, d)
    ensures forall k :: 0 <= k < |p| - 1 ==> Step(m, p[k], p[k + 1])
  {
    AcceptedIsShallowest(m, input, maxSteps, d, t, p);
    var level := Level(m, input, d);
    var i := FirstAccept(m.accept, level).value;
    var init := Initial(m, input);
    LevelsLinked(m, input, d);
    RecordKeepsLinked(m, init, Parents(m, input, d), level, i);
    var parents := RecordLevel(m, Parents(m, input, d), level[..i]);
    TraceShape(level[i], parents, p);
    if |p| == 1 {
      assert p[0] == level[i] && level[i] in level;
    } else {
      assert p[0] == parents[p[1]];
    }
  }

  /** One move of a computation: `b` is a successor of the non-accepting configuration `a`. */
  ghost predicate Step(m: Machine, a: Config, b: Config) {
    b in Successors(m, a) && a.state !in m.accept
  }

  /** A run that never returns is one where the first accepting configuration's parent links cycle. */
  lemma HangsMeansCycle(m: Machine, input: string, maxSteps: int)
    requires Explore(m, input, maxSteps) == Hangs
    ensures var s := FirstStop(m, input, maxSteps, 0);
            var level := Level(m, input, s);
            s < maxSteps && FirstAccept(m.accept, level).Some? &&
            var i := FirstAccept(m.accept, level).value;
            Loops(level[i], RecordLevel(m, Parents(m, input, s), level[..i]))
  {
    if maxSteps <= 0 {
      NonPositiveBound(m, input, maxSteps);
    } else {
      ExploreOutcome(m, input, maxSteps);
      var s := FirstStop(m, input, maxSteps, 0);
      var level := Level(m, input, s);
      var i := FirstAccept(m.accept, level).value;
      TraceNoneIffLoops(level[i], RecordLevel(m, Parents(m, input, s), level[..i]));
    }
  }
}
