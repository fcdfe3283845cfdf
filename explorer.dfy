/**
 * The breadth-first explorer: level-by-level expansion of the configuration
 * tree up to a step bound, with parent links and a count of the transitions
 * generated.
 */
module Explorer {
  import opened Wrappers
  import opened TuringTape
  import opened StepEngine
  import opened PathTrace

  /** What a run reports: accepted or not, the depth reached, the transitions generated, the path. */
  datatype Report = Report(accepted: bool, depth: int, total: nat, path: seq<Config>)

  /**
   * A run either returns its report or never returns, the latter because
   * the parent links followed from the accepting configuration form a cycle.
   */
  datatype Outcome = Halts(report: Report) | Hangs

  /** The next level generated from `level`: the successors of its configurations, in order. */
  function Children(m: Machine, level: seq<Config>): seq<Config> {
    if level == [] then []
    else Children(m, level[..|level| - 1]) + Successors(m, level[|level| - 1])
  }

  /** The parent map after each of `kids` in turn has been mapped to `p`. */
  function Link(parents: map<Config, Config>, kids: seq<Config>, p: Config): map<Config, Config> {
    if kids == [] then parents
    else Link(parents, kids[..|kids| - 1], p)[kids[|kids| - 1] := p]
  }

  /** The parent map after expanding every configuration of `level`, in order. */
  function RecordLevel(m: Machine, parents: map<Config, Config>, level: seq<Config>): map<Config, Config> {
    if level == [] then parents
    else
      var c := level[|level| - 1];
      Link(RecordLevel(m, parents, level[..|level| - 1]), Successors(m, c), c)
  }

  /** The index of the first configuration of `level` in an accept state, if any. */
  function FirstAccept(accept: seq<string>, level: seq<Config>): (r: Option<nat>)
    ensures r.Some? ==> r.value < |level| && level[r.value].state in accept
    ensures r.Some? ==> forall k :: 0 <= k < r.value ==> level[k].state !in accept
    ensures r.None? ==> forall k :: 0 <= k < |level| ==> level[k].state !in accept
  {
    if level == [] then None
    else if level[0].state in accept then Some(0)
    else match FirstAccept(accept, level[1..])
      case None => None
      case Some(i) => Some(i + 1)
  }

  /** The outcome once an accepting configuration has been traced. */
  function Finish(depth: nat, total: nat, path: Option<seq<Config>>): Outcome {
    match path
    case None => Hangs
    case Some(p) => Halts(Report(true, depth, total, p))
  }

  /**
   * The run from level `depth`, whose configurations are `level`, with the
   * parent map and transition count built so far.
   */
  function ExploreFrom(m: Machine, maxSteps: int, depth: nat, level: seq<Config>,
                       parents: map<Config, Config>, total: nat): Outcome
    decreases maxSteps - depth
  {
    if depth >= maxSteps then Halts(Report(false, maxSteps, total, []))
    else if level == [] then Halts(Report(false, depth, total, []))
    else match FirstAccept(m.accept, level)
      case Some(i) =>
        var before := level[..i];
        Finish(depth, total + |Children(m, before)|, TraceOf(level[i], RecordLevel(m, parents, before)))
      case None =>
        var next := Children(m, level);
        ExploreFrom(m, maxSteps, depth + 1, next, RecordLevel(m, parents, level), total + |next|)
  }

  /** The outcome of a run on `input` with at most `maxSteps` levels expanded. */
  function Explore(m: Machine, input: string, maxSteps: int): Outcome {
    ExploreFrom(m, maxSteps, 0, [Initial(m, input)], map[], 0)
  }

  lemma ExploreFromNext(m: Machine, maxSteps: int, depth: nat, level: seq<Config>,
                        parents: map<Config, Config>, total: nat)
    requires depth < maxSteps && level != [] && FirstAccept(m.accept, level) == None
    ensures ExploreFrom(m, maxSteps, depth, level, parents, total) ==
            ExploreFrom(m, maxSteps, depth + 1, Children(m, level), RecordLevel(m, parents, level),
                        total + |Children(m, level)|)
  {
  }

  lemma ExploreFromAccepts(m: Machine, maxSteps: int, depth: nat, level: seq<Config>,
                           parents: map<Config, Config>, total: nat, i: nat)
    requires depth < maxSteps && i < |level| && level[i].state in m.accept
    requires forall k :: 0 <= k < i ==> level[k].state !in m.accept
    ensures ExploreFrom(m, maxSteps, depth, level, parents, total) ==
            Finish(depth, total + |Children(m, level[..i])|, TraceOf(level[i], RecordLevel(m, parents, level[..i])))
  {
    assert FirstAccept(m.accept, level) == Some(i);
  }

  /** Expanding one more configuration extends the next level and the parent map. */
  lemma ExpandOne(m: Machine, parents: map<Config, Config>, level: seq<Config>, i: nat)
    requires i < |level|
    ensures Children(m, level[..i + 1]) == Children(m, level[..i]) + Successors(m, level[i])
    ensures RecordLevel(m, parents, level[..i + 1]) ==
            Link(RecordLevel(m, parents, level[..i]), Successors(m, level[i]), level[i])
  {
    assert level[..i + 1][..i] == level[..i];
  }

  lemma LinkOne(parents: map<Config, Config>, kids: seq<Config>, p: Config, j: nat)
    requires j < |kids|
    ensures Link(parents, kids[..j + 1], p) == Link(parents, kids[..j], p)[kids[j] := p]
  {
    assert kids[..j + 1][..j] == kids[..j];
  }

  /**
   * Fires each rule of `moves` in turn in `c`: appends each successor to the
   * next level, maps it to `c` in the parent map and counts one transition.
   */
  method FireRules(c: Config, moves: seq<Rule>, next: seq<Config>, before: map<Config, Config>, total: nat)
    returns (next': seq<Config>, before': map<Config, Config>, total': nat)
    ensures next' == next + Fired(c, moves)
    ensures before' == Link(before, Fired(c, moves), c)
    ensures total' == total + |moves|
  {
    next', before', total' := next, before, total;
    ghost var succ := Fired(c, moves);
    var j := 0;
    while j < |moves|
      invariant 0 <= j <= |moves| == |succ|
      invariant next' == next + succ[..j]
      invariant before' == Link(before, succ[..j], c)
      invariant total' == total + j
    {
      var rule := moves[j];
      var t := Move(Tape(c.left, c.right), rule.write, rule.dir);
      var child := Config(t.left, rule.next, t.right);
      assert child == succ[j];
      LinkOne(before, succ, c, j);
      assert succ[..j + 1] == succ[..j] + [child];
      next', before', total' := next' + [child], before'[child := c], total' + 1;
      j := j + 1;
    }
    assert succ[..j] == succ;
  }

  /**
   * Expands one configuration that is not accepting: appends its successors
   * to the next level, maps each of them to it in the parent map and counts
   * one transition per successor.
   */
  method Expand(m: Machine, c: Config, next: seq<Config>, before: map<Config, Config>, total: nat)
    returns (next': seq<Config>, before': map<Config, Config>, total': nat)
    ensures next' == next + Successors(m, c)
    ensures before' == Link(before, Successors(m, c), c)
    ensures total' == total + |Successors(m, c)|
  {
    if c.state == m.reject {
      return next, before, total;
    }
    var curr := if |c.right| > 0 then c.right[0] else BLANK;
    var moves := if (c.state, curr) in m.table then m.table[(c.state, curr)] else [];
    assert moves == RulesFor(m, c);
    if |moves| == 0 {
      var stuck := Config(c.left, m.reject, c.right);
      assert Successors(m, c) == [stuck] && [stuck][..0] == [];
      return next + [stuck], before[stuck := c], total + 1;
    }
    next', before', total' := FireRules(c, moves, next, before, total);
  }

  /**
   * Scans one level in order. It stops at the first configuration in an
   * accept state and reports its index; every configuration before it is
   * expanded. Without one, the whole level is expanded.
   */
  method ExpandLevel(m: Machine, level: seq<Config>, before: map<Config, Config>, total: nat)
    returns (found: Option<nat>, next: seq<Config>, before': map<Config, Config>, total': nat)
    ensures found == FirstAccept(m.accept, level)
    ensures var done := if found.Some? then level[..found.value] else level;
            next == Children(m, done) && before' == RecordLevel(m, before, done) &&
            total' == total + |Children(m, done)|
  {
    next, before', total' := [], before, total;
    var i := 0;
    while i < |level|
      invariant 0 <= i <= |level|
      invariant forall k :: 0 <= k < i ==> level[k].state !in m.accept
      invariant next == Children(m, level[..i])
      invariant before' == RecordLevel(m, before, level[..i])
      invariant total' == total + |Children(m, level[..i])|
    {
      var c := level[i];
      ExpandOne(m, before, level, i);
      if c.state in m.accept {
        return Some(i), next, before', total';
      }
      next, before', total' := Expand(m, c, next, before', total');
      i := i + 1;
    }
    assert level[..i] == level;
    return None, next, before', total';
  }

  /**
   * Breadth-first search over configurations. `queue[d]` is level `d`,
   * `before` maps each generated configuration to the one it came from (a
   * later entry overwrites an earlier one) and `total` counts the
   * transitions generated, implicit reject transitions included.
   */
  method Bfs(m: Machine, input: string, maxSteps: int) returns (out: Outcome)
    ensures out == Explore(m, input, maxSteps)
  {
    var total := 0;
    var queue: seq<seq<Config>> := [[Initial(m, input)]];
    var before: map<Config, Config> := map[];
    var depth := 0;
    while depth < maxSteps
      invariant 0 <= depth && |queue| == depth + 1
      invariant ExploreFrom(m, maxSteps, depth, queue[depth], before, total) == Explore(m, input, maxSteps)
      decreases maxSteps - depth
    {
      var level := queue[depth];
      if |level| == 0 {
        return Halts(Report(false, depth, total, []));
      }
      var found, next;
      found, next, before, total := ExpandLevel(m, level, before, total);
      queue := queue + [next];
      if found.Some? {
        var path := Trace(level[found.value], before);
        if path.None? {
          return Hangs;
        }
        return Halts(Report(true, depth, total, path.value));
      }
      depth := depth + 1;
    }
    return Halts(Report(false, maxSteps, total, []));
  }
}
