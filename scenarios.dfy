/**
 * The outcomes of three small machines, one for each kind of result. Each
 * outcome is proved for a machine given field by field, then stated for the
 * machine itself.
 */
module Scenarios {
  import opened Wrappers
  import opened TuringTape
  import opened StepEngine
  import opened PathTrace
  import opened Explorer
  import opened ExplorerProofs

  /** Expanding a one-configuration level. */
  lemma ExpandSingle(m: Machine, parents: map<Config, Config>, c: Config)
    ensures Children(m, [c]) == Successors(m, c)
    ensures RecordLevel(m, parents, [c]) == Link(parents, Successors(m, c), c)
  {
    assert [c][..0] == [];
  }

  lemma LinkSmall(parents: map<Config, Config>, a: Config, b: Config, p: Config)
    ensures Link(parents, [a], p) == parents[a := p]
    ensures Link(parents, [a, b], p) == parents[a := p][b := p]
  {
    assert [a][..0] == [];
    assert [a, b][..1] == [a];
  }

  /** The level after a one-configuration level is that configuration's successors. */
  lemma StepFromSingle(m: Machine, input: string, d: nat, c: Config)
    requires d > 0 && Level(m, input, d - 1) == [c]
    ensures Level(m, input, d) == Successors(m, c)
    ensures Parents(m, input, d) == Link(Parents(m, input, d - 1), Successors(m, c), c)
    ensures Generated(m, input, d) == Generated(m, input, d - 1) + |Successors(m, c)|
  {
    LevelStep(m, input, d);
    ExpandSingle(m, Parents(m, input, d - 1), c);
  }

  // A machine without rules.

  function RejectAll(): Machine {
    Machine("q0", ["qa"], "qr", map[])
  }

  lemma RejectAllSteps(m: Machine)
    requires m.reject == "qr" && m.table == map[]
    ensures Successors(m, Config("", "q0", "a")) == [Config("", "qr", "a")]
    ensures Successors(m, Config("", "qr", "a")) == []
  {
    assert RulesFor(m, Config("", "q0", "a")) == [];
  }

  lemma RejectAllRun(m: Machine, input: string)
    requires m.start == "q0" && m.accept == ["qa"] && m.reject == "qr" && m.table == map[] && input == "a"
    ensures Explore(m, input, 5) == Halts(Report(false, 2, 1, []))
  {
    var c0, c1 := Config("", "q0", "a"), Config("", "qr", "a");
    RejectAllSteps(m);
    assert Level(m, input, 0) == [c0];
    StepFromSingle(m, input, 1, c0);
    StepFromSingle(m, input, 2, c1);
    assert Continues(m, [c0]) && Continues(m, [c1]);
    ExploreReaches(m, input, 5, 2);
  }

  /**
   * With no rule at all, the start configuration goes to the reject state
   * with its tape unchanged (one transition), the reject configuration has
   * no successors, and the run reports rejection at depth 2.
   */
  lemma NoRuleRejectsAtDepthTwo()
    ensures Explore(RejectAll(), "a", 5) == Halts(Report(false, 2, 1, []))
  {
    RejectAllRun(RejectAll(), "a");
  }

  // A machine that accepts after reading two 1s, moving right.

  function TwoOnesTable(): Table {
    map[("q0", '1') := [Rule("q1", "1", "R")], ("q1", '1') := [Rule("q2", "1", "R")]]
  }

  function TwoOnes(): Machine {
    Machine("q0", ["q2"], "qr", TwoOnesTable())
  }

  lemma TwoOnesSteps(m: Machine)
    requires m.reject == "qr" && m.table == TwoOnesTable()
    ensures Successors(m, Config("", "q0", "11")) == [Config("1", "q1", "1")]
    ensures Successors(m, Config("1", "q1", "1")) == [Config("11", "q2", "_")]
  {
    var c0, c1, c2 := Config("", "q0", "11"), Config("1", "q1", "1"), Config("11", "q2", "_");
    var r0, r1 := Rule("q1", "1", "R"), Rule("q2", "1", "R");
    assert HeadSymbol(c0) == '1' && RulesFor(m, c0) == [r0];
    assert WriteHead(Tape("", "11"), "1").right == "11";
    assert Move(Tape("", "11"), "1", "R") == Tape("1", "1");
    assert Fire(c0, r0) == c1;
    assert HeadSymbol(c1) == '1' && RulesFor(m, c1) == [r1];
    assert WriteHead(Tape("1", "1"), "1").right == "1";
    assert Move(Tape("1", "1"), "1", "R") == Tape("11", "_");
    assert Fire(c1, r1) == c2;
  }

  lemma TwoOnesLevelOne(m: Machine, input: string)
    requires m.start == "q0" && m.accept == ["q2"] && m.reject == "qr" && m.table == TwoOnesTable() && input == "11"
    ensures Level(m, input, 1) == [Config("1", "q1", "1")]
    ensures Parents(m, input, 1) == map[Config("1", "q1", "1") := Config("", "q0", "11")]
    ensures Generated(m, input, 1) == 1
    ensures Continues(m, Level(m, input, 0))
  {
    var c0, c1 := Config("", "q0", "11"), Config("1", "q1", "1");
    TwoOnesSteps(m);
    assert Level(m, input, 0) == [c0];
    StepFromSingle(m, input, 1, c0);
    LinkSmall(map[], c1, c1, c0);
    assert Continues(m, [c0]);
  }

  lemma TwoOnesLevels(m: Machine, input: string)
    requires m.start == "q0" && m.accept == ["q2"] && m.reject == "qr" && m.table == TwoOnesTable() && input == "11"
    ensures Level(m, input, 2) == [Config("11", "q2", "_")]
    ensures Parents(m, input, 2) ==
            map[Config("1", "q1", "1") := Config("", "q0", "11"), Config("11", "q2", "_") := Config("1", "q1", "1")]
    ensures Generated(m, input, 2) == 2
    ensures forall k :: 0 <= k < 2 ==> Continues(m, Level(m, input, k))
  {
    var c0, c1, c2 := Config("", "q0", "11"), Config("1", "q1", "1"), Config("11", "q2", "_");
    TwoOnesLevelOne(m, input);
    TwoOnesSteps(m);
    StepFromSingle(m, input, 2, c1);
    LinkSmall(map[c1 := c0], c2, c2, c1);
    assert Continues(m, [c1]);
  }

  /** A walk through two parent links to a configuration without one traces back to it. */
  lemma TraceOfTwoLinks(c0: Config, c1: Config, c2: Config, parents: map<Config, Config>)
    requires c0 !in parents && c1 in parents && parents[c1] == c0 && c2 in parents && parents[c2] == c1
    requires |parents| >= 2
    ensures TraceOf(c2, parents) == Some([c0, c1, c2])
  {
    var f := |parents|;
    assert Chain(c0, parents, f - 2) == Some([c0]);
    assert Chain(c1, parents, f - 1) == Some([c0] + [c1]);
    assert Chain(c2, parents, f) == Some([c0] + [c1] + [c2]);
    assert [c0] + [c1] + [c2] == [c0, c1, c2];
  }

  lemma TwoOnesRun(m: Machine, input: string)
    requires m.start == "q0" && m.accept == ["q2"] && m.reject == "qr" && m.table == TwoOnesTable() && input == "11"
    ensures Explore(m, input, 10) ==
            Halts(Report(true, 2, 2, [Config("", "q0", "11"), Config("1", "q1", "1"), Config("11", "q2", "_")]))
  {
    var c0, c1, c2 := Config("", "q0", "11"), Config("1", "q1", "1"), Config("11", "q2", "_");
    TwoOnesLevels(m, input);
    ExploreReaches(m, input, 10, 2);
    var parents := Parents(m, input, 2);
    ExploreFromAccepts(m, 10, 2, [c2], parents, 2, 0);
    assert [c2][..0] == [] && Children(m, []) == [] && RecordLevel(m, parents, []) == parents;
    assert c0 != c1 && c0 != c2 && c1 != c2;
    assert |parents| == 2;
    TraceOfTwoLinks(c0, c1, c2, parents);
  }

  /** Two right moves over "11" reach the accept state at depth 2 along a three-configuration path. */
  lemma TwoOnesAccepted()
    ensures Explore(TwoOnes(), "11", 10) ==
            Halts(Report(true, 2, 2, [Config("", "q0", "11"), Config("1", "q1", "1"), Config("11", "q2", "_")]))
  {
    TwoOnesRun(TwoOnes(), "11");
  }

  // A machine whose second rule writes a blank while moving left from a lone blank.

  function LoopingTable(): Table {
    map[("q0", '_') := [Rule("q1", "x", "R")],
        ("q1", '_') := [Rule("q1", "_", "L"), Rule("qa", "_", "R")]]
  }

  function Looping(): Machine {
    Machine("q0", ["qa"], "qr", LoopingTable())
  }

  lemma LoopingSteps(m: Machine)
    requires m.reject == "qr" && m.table == LoopingTable()
    ensures Successors(m, Config("", "q0", "")) == [Config("x", "q1", "_")]
    ensures Successors(m, Config("x", "q1", "_")) == [Config("x", "q1", "_"), Config("x_", "qa", "_")]
  {
    var c0, c1, c2 := Config("", "q0", ""), Config("x", "q1", "_"), Config("x_", "qa", "_");
    var r0, r1, r2 := Rule("q1", "x", "R"), Rule("q1", "_", "L"), Rule("qa", "_", "R");
    assert HeadSymbol(c0) == '_' && RulesFor(m, c0) == [r0];
    assert Move(Tape("", ""), "x", "R") == Tape("x", "_");
    assert Fire(c0, r0) == c1;
    assert HeadSymbol(c1) == '_' && RulesFor(m, c1) == [r1, r2];
    assert WriteHead(Tape("x", "_"), "_").right == "_";
    assert Move(Tape("x", "_"), "_", "L") == Tape("x", "_");
    assert Move(Tape("x", "_"), "_", "R") == Tape("x_", "_");
    assert Fire(c1, r1) == c1 && Fire(c1, r2) == c2;
  }

  lemma LoopingLevelOne(m: Machine, input: string)
    requires m.start == "q0" && m.accept == ["qa"] && m.reject == "qr" && m.table == LoopingTable() && input == ""
    ensures Level(m, input, 1) == [Config("x", "q1", "_")]
    ensures Continues(m, Level(m, input, 0))
  {
    var c0 := Config("", "q0", "");
    LoopingSteps(m);
    assert Level(m, input, 0) == [c0];
    StepFromSingle(m, input, 1, c0);
    assert Continues(m, [c0]);
  }

  lemma LoopingLevels(m: Machine, input: string)
    requires m.start == "q0" && m.accept == ["qa"] && m.reject == "qr" && m.table == LoopingTable() && input == ""
    ensures Level(m, input, 2) == [Config("x", "q1", "_"), Config("x_", "qa", "_")]
    ensures forall k :: 0 <= k < 2 ==> Continues(m, Level(m, input, k))
  {
    var c1 := Config("x", "q1", "_");
    LoopingLevelOne(m, input);
    LoopingSteps(m);
    StepFromSingle(m, input, 2, c1);
    assert Continues(m, [c1]);
  }

  lemma LoopingRun(m: Machine, input: string)
    requires m.start == "q0" && m.accept == ["qa"] && m.reject == "qr" && m.table == LoopingTable() && input == ""
    ensures Explore(m, input, 3) == Hangs
  {
    var c1, c2 := Config("x", "q1", "_"), Config("x_", "qa", "_");
    LoopingLevels(m, input);
    ExploreReaches(m, input, 3, 2);
    var parents := Parents(m, input, 2);
    ExploreFromAccepts(m, 3, 2, [c1, c2], parents, Generated(m, input, 2), 1);
    assert [c1, c2][..1] == [c1];
    LoopingSteps(m);
    ExpandSingle(m, parents, c1);
    LinkSmall(parents, c1, c2, c1);
    assert c1 != c2;
    SelfParentNeverRoots(c2, c1, parents[c1 := c1][c2 := c1]);
  }

  /**
   * Writing a blank while moving left from a lone blank leaves the head in
   * place, so a configuration becomes its own successor and, the parent map
   * being overwritten, its own parent: the trace from the accepting
   * configuration generated beside it never ends.
   */
  lemma SelfParentHangs()
    ensures Explore(Looping(), "", 3) == Hangs
  {
    LoopingRun(Looping(), "");
  }

  /** A walk that reaches a configuration which is its own parent never leaves the map. */
  lemma SelfParentNeverRoots(c: Config, c': Config, parents: map<Config, Config>)
    requires c in parents && parents[c] == c' && c' in parents && parents[c'] == c'
    ensures TraceOf(c, parents) == None
  {
    forall n: nat ensures Walk(c, parents, n) in parents {
      SelfLoopWalk(c, c', parents, n);
    }
    TraceNoneIffLoops(c, parents);
  }

  lemma {:induction false} SelfLoopWalk(c: Config, c': Config, parents: map<Config, Config>, n: nat)
    requires c in parents && c' in parents && parents[c] == c' && parents[c'] == c'
    ensures Walk(c, parents, n) in parents
    decreases n
  {
    if n > 1 {
      SelfLoopWalk(c', c', parents, n - 1);
    }
  }
}
