/**
 * Configurations, the transition table and the step engine of a
 * nondeterministic single-tape Turing machine.
 */
module StepEngine {
  import opened TuringTape

  /** A snapshot of the machine: the tape split around the head, and the state. */
  datatype Config = Config(left: string, state: string, right: string)

  /** One entry of the transition table: next state, symbol written, direction. */
  datatype Rule = Rule(next: string, write: WriteSymbol, dir: string)

  /**
   * The transition table, keyed on (state, symbol read); the rules of a key
   * are kept in the order the machine description lists them. Several rules
   * for one key are the machine's nondeterminism.
   */
  type Table = map<(string, char), seq<Rule>>

  /** The machine as the simulation uses it: start, accept and reject states and the table. */
  datatype Machine = Machine(start: string, accept: seq<string>, reject: string, table: Table)

  /** The configuration a run starts from; the input is used as it is, even when empty. */
  function Initial(m: Machine, input: string): Config {
    Config("", m.start, input)
  }

  /** The symbol under the head; an empty right part reads as blank. */
  function HeadSymbol(c: Config): char {
    if |c.right| > 0 then c.right[0] else BLANK
  }

  /** The rules that apply to `c`; a key missing from the table has none. */
  function RulesFor(m: Machine, c: Config): seq<Rule> {
    var key := (c.state, HeadSymbol(c));
    if key in m.table then m.table[key] else []
  }

  /** The configuration that firing `rule` in `c` produces. */
  function Fire(c: Config, rule: Rule): Config {
    var t := Move(Tape(c.left, c.right), rule.write, rule.dir);
    Config(t.left, rule.next, t.right)
  }

  /** The reject configuration that takes the place of a missing rule: same tape, reject state. */
  function Stuck(m: Machine, c: Config): Config {
    Config(c.left, m.reject, c.right)
  }

  /** The configurations that firing each of `rules` in `c` produces, in order. */
  function Fired(c: Config, rules: seq<Rule>): seq<Config> {
    seq(|rules|, j requires 0 <= j < |rules| => Fire(c, rules[j]))
  }

  /**
   * The successors of a configuration that is not accepting: none in the
   * reject state, the stuck configuration when no rule applies, and
   * otherwise one per rule, in table order.
   */
  function Successors(m: Machine, c: Config): seq<Config> {
    if c.state == m.reject then []
    else
      var rules := RulesFor(m, c);
      if |rules| == 0 then [Stuck(m, c)]
      else Fired(c, rules)
  }

  /**
   * Exactly the reject state is pruned. Any other configuration has one
   * successor per applicable rule, or the single stuck one when none applies,
   * and each successor is either that stuck configuration or what some rule
   * produces.
   */
  lemma SuccessorsCases(m: Machine, c: Config)
    ensures |Successors(m, c)| == 0 <==> c.state == m.reject
    ensures c.state != m.reject ==>
              |Successors(m, c)| == if |RulesFor(m, c)| == 0 then 1 else |RulesFor(m, c)|
    ensures forall s :: s in Successors(m, c) ==>
              s == Stuck(m, c) || exists r :: r in RulesFor(m, c) && s == Fire(c, r)
  {
    var rules := RulesFor(m, c);
    if c.state != m.reject && |rules| > 0 {
      forall s | s in Successors(m, c) ensures exists r :: r in rules && s == Fire(c, r) {
        var j :| 0 <= j < |rules| && s == Successors(m, c)[j];
        assert rules[j] in rules;
      }
    }
  }

  /**
   * A one-character, non-collapsing rule is a true Turing-machine step on
   * the configuration's tape: its successor is in the rule's next state and
   * reads, at every position, what the tape reads after the write one cell
   * further in the rule's direction.
   */
  lemma FireIsStep(c: Config, rule: Rule, ch: char)
    requires rule.write == [ch]
    requires !Collapses(Tape(c.left, c.right), rule.write, rule.dir)
    ensures Fire(c, rule).state == rule.next
    ensures forall p {:trigger Cell(Tape(Fire(c, rule).left, Fire(c, rule).right), p)} ::
              Cell(Tape(Fire(c, rule).left, Fire(c, rule).right), p) ==
              Cell(WriteHead(Tape(c.left, c.right), rule.write), p + Shift(rule.dir))
  {
    MoveShiftsHead(Tape(c.left, c.right), ch, rule.dir);
  }
}
