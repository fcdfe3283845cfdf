# Nondeterministic Turing machine tracer, modelled in Dafny

This is a model of the simulation engine of `traceTM-efreder3.py`, a tracer
for nondeterministic single-tape Turing machines. It has three parts:

- **Tape moves** (`move`), in module `TuringTape` (`tape.dfy`). The tape is
  stored as two strings around the head. `left` holds the visited cells left
  of the head, and `right` starts with the cell under the head. A blank `_`
  is stored only once the head reaches that cell. `Move` follows the
  source's branches exactly, including the collapse case: moving left over a
  lone blank leaves the head where it is.
- **Path reconstruction** (`trace`), in module `PathTrace` (`trace.dfy`).
  - `Trace` is a `while` loop that follows parent links and reverses what
    it collected.
  - The source loop is unbounded. The model stops it after `|parent|`
    steps and answers `None`. `TraceNoneIffLoops` proves that this happens
    exactly when the source loop would never exit.
- **Breadth-first exploration** (`bfs`), in modules `StepEngine`
  (`engine.dfy`) and `Explorer` (`explorer.dfy`).
  - **Data.** Configurations are triples `(left, state, right)`. The table
    maps `(state, read symbol)` to its rules, in listed order.
  - **Successors** of a configuration:
    - in the reject state: none;
    - when no rule applies: one reject configuration with the tape
      unchanged;
    - otherwise: one per rule.
  - **`Bfs`** keeps the source's list of levels, its parent map `before`
    (assignments overwrite, as a dictionary's do) and its counter `total`.
    It is proved equal to the function `Explore`.
  - **The search in the source** is one function with nested loops. In the
    model it is four methods:
    - `FireRules`: the loop over the rules of one configuration;
    - `Expand`: one configuration, with no loop: the reject case, the
      no-rule case, or `FireRules`;
    - `ExpandLevel`: the loop over one level;
    - `Bfs`: the loop over the levels.

  `ExplorerProofs` (`explorer_proofs.dfy`) describes the run on its own
  terms:
  - `Level(m, input, k)`: the configurations of level `k`;
  - `Parents`: the parent map once levels `0..k-1` are expanded;
  - `Generated`: the transitions counted so far.

  On top of these it proves the outcome: the shallowest accepting level, the
  rejection cases, the shape of an accepted path, and when the run hangs.
  `Scenarios` (`scenarios.dfy`) proves the outcome of three small machines.

A run's result is `Halts(Report(accepted, depth, total, path))`, or `Hangs`
when the trace of the accepting configuration never ends.

Two behaviours of the code that the model keeps as they are:

- **Empty input.** `Initial` uses the input as it is, even when it is empty
  (line 88). An empty right part reads as a blank (line 110).
- **Cycles in the parent map.** Configurations are not deduplicated, and
  parent assignments overwrite (lines 119, 128). Any configuration that is
  produced again later gets a new parent, and this can close a cycle. The
  start configuration is one example: once it has an entry, no walk from a
  level can leave the map (`ExplorerProofs.InitialEntryLoops`). The collapse
  case (lines 55-57) is another: there a configuration can be its own
  successor, and so its own parent. When the parent map holds a cycle,
  `trace` (lines 75-77) may never return. `Scenarios.SelfParentHangs` shows
  a three-state machine where this happens. The model reports it as `Hangs`.

## Model

| member | source | states |
|---|---|---|
| TuringTape.WriteHead | traceTM-efreder3.py:41-44 | Writing `w` at the head leaves the cells left of the head as they were. Cells `0..len(w)-1` read `w`. From cell `len(w)` on, the tape reads what the old tape read from cell 1 on: the cells after the old head cell follow `w`. An empty `right` reads as blank. |
| TuringTape.WriteHeadWrites | traceTM-efreder3.py:41-44 | A one-character write puts that character in the cell under the head and leaves every other cell of the tape as it was, including when `right` was empty. |
| TuringTape.Move | traceTM-efreder3.py:41-64 | After any write and move, the right part is never empty: there is always a cell under the head. |
| TuringTape.MoveShiftsHead | traceTM-efreder3.py:47-62 | Outside the collapse case, a one-character write followed by a move is a true Turing-machine step on the bi-infinite tape. Every cell of the result reads what the written tape reads one cell further in the move's direction; any direction other than `R` counts as left. `left` grows by one on `R`, shrinks by one on a left move, and stays empty when the head enters blank cells on the left. |
| TuringTape.CollapseKeepsHead | traceTM-efreder3.py:55-57 | In the collapse case (a left move, `left` non-empty, the written right part a lone blank), the result is exactly the written tape: the head does not move. This can only happen when a blank was written over the last stored cell. |
| TuringTape.MoveGrowsByAtMostOne | traceTM-efreder3.py:41-62 | With a one-character write and a non-empty `right`, `len(left) + len(right)` grows by at most one. |
| PathTrace.Reversed | traceTM-efreder3.py:78 | The reversal has the same length, and element `k` is element `len-1-k` of the input. |
| PathTrace.TraceShape | traceTM-efreder3.py:74-78 | A traced path is non-empty, ends at the configuration traced from, and starts at one with no parent entry. Each element is the parent of the element after it. |
| PathTrace.TraceNoneIffLoops | traceTM-efreder3.py:75-77 | The model's trace answers `None` exactly when `while c in parent` never exits, i.e. the walk along parent links never leaves the map. |
| PathTrace.TraceOf | traceTM-efreder3.py:74-78 | Defines what the trace produces: the path from the root of the parent walk to the configuration, found within as many steps as the map has entries, or `None`. `TraceShape` and `TraceNoneIffLoops` state what it means. |
| PathTrace.Trace | traceTM-efreder3.py:66-78 | The loop's result is `TraceOf(c, parent)`: the reversed walk back to a configuration without a parent, or `None` when the walk cycles. |
| StepEngine.Initial | traceTM-efreder3.py:88 | Defines the start configuration `("", start, input)`, with the input as it is, even when empty. |
| StepEngine.HeadSymbol | traceTM-efreder3.py:110 | Defines the symbol read: the first cell of `right`, or a blank when `right` is empty. |
| StepEngine.RulesFor | traceTM-efreder3.py:113 | Defines the rules that apply: the table's entry for `(state, head symbol)`, or none when the key is missing. |
| StepEngine.Stuck | traceTM-efreder3.py:117 | Defines the configuration that replaces a missing rule: the same tape in the reject state. |
| StepEngine.Fire | traceTM-efreder3.py:125-126 | Defines what one rule produces: the tape after `Move` with the rule's write and direction, in the rule's next state. `FireIsStep` states its properties. |
| StepEngine.Successors | traceTM-efreder3.py:106-129 | Defines the successors of a configuration that is not accepting: none in the reject state; the reject configuration with the same tape when no rule applies to `(state, head symbol)`; otherwise what each rule produces, in table order. |
| StepEngine.SuccessorsCases | traceTM-efreder3.py:106-129 | A configuration has no successor exactly when it is in the reject state. Otherwise it has one successor per applicable rule, or one when no rule applies. Each successor is the stuck reject configuration or what some applicable rule produces. |
| StepEngine.FireIsStep | traceTM-efreder3.py:124-126 | The successor produced by a one-character rule is in the rule's next state. Outside the collapse case, its tape is the current tape written and shifted one cell in the rule's direction. |
| Explorer.Children | traceTM-efreder3.py:118-127 | Defines the next level: the successors of the level's configurations, concatenated in level order. `ChildrenMember` and `ChildrenAppend` state its properties. |
| Explorer.RecordLevel | traceTM-efreder3.py:119-128 | Defines the parent map after a level is expanded: each successor is mapped to its configuration, in level order, a later assignment overwriting an earlier one. `RecordLevelFacts` states its properties. |
| Explorer.ExploreFrom | traceTM-efreder3.py:92-131 | Defines the run from one depth on. It stops at the bound or at an empty level. Otherwise it traces the first accepting configuration, or goes on to the next level. |
| Explorer.Explore | traceTM-efreder3.py:87-131 | Defines the run from depth 0, starting with the level `[("", start, input)]`, an empty parent map and a count of 0. The ExplorerProofs lemmas state its outcome. |
| Explorer.FirstAccept | traceTM-efreder3.py:97-103 | Gives the index of the first configuration of a level in an accept state, with none before it, or `None` when the level has no accepting configuration. |
| Explorer.FireRules | traceTM-efreder3.py:124-129 | Firing the rules of a key in table order appends, for each rule, the configuration it produces to the next level. Each of them is mapped to the configuration being expanded, and one transition is counted per rule. |
| Explorer.Expand | traceTM-efreder3.py:105-129 | Expanding one configuration appends its successors to the next level in rule order. It links each successor to that configuration in the parent map, later assignments overwriting, and adds one to `total` per successor. Successors cover three cases: none in the reject state; the reject configuration with the same tape when no rule applies; otherwise one per rule. |
| Explorer.ExpandLevel | traceTM-efreder3.py:97-129 | Scanning a level in order stops at the first accepting configuration and reports its index, having expanded exactly the configurations before it. Without one, it expands the whole level. The next level, the parent map and the counter are those of the expanded prefix. |
| Explorer.Bfs | traceTM-efreder3.py:80-131 | The search returns exactly `Explore(m, input, maxSteps)`, the level-by-level outcome. |
| ExplorerProofs.FirstStop | traceTM-efreder3.py:92-103 | Gives the first level at or after `d`, below the bound, that is empty or holds an accepting configuration; it gives the bound if none does. Every level before it continues the search. |
| ExplorerProofs.ChildrenAppend | traceTM-efreder3.py:97-129 | The next level is built configuration by configuration: building it from two consecutive pieces of a level concatenates their next levels. |
| ExplorerProofs.ChildrenMember | traceTM-efreder3.py:118-127 | A configuration is on the next level exactly when it is a successor of some configuration on this level. |
| ExplorerProofs.LinkFacts | traceTM-efreder3.py:127-128 | Linking a configuration's successors adds exactly those keys and maps each of them to that configuration, leaving other entries unchanged. |
| ExplorerProofs.RecordLevelFacts | traceTM-efreder3.py:97-128 | After a level is expanded, the keys of the parent map are the old keys plus the next level. A next-level configuration is mapped to the LAST configuration of the level that produced it, because parent assignments overwrite; all other entries are unchanged. |
| ExplorerProofs.RecordKeepsLinked | traceTM-efreder3.py:97-128 | Expanding non-accepting configurations keeps every parent link well formed. Each entry points to a non-accepting configuration that has the entry as a successor, and that configuration is the initial one or itself has an entry. |
| ExplorerProofs.LevelsLinked | traceTM-efreder3.py:88-128 | On every level the search reaches, the parent links are well formed, and every configuration of the level is the initial one or has an entry. |
| ExplorerProofs.InitialEntryLoops | traceTM-efreder3.py:75-77 | When the parent links are well formed and the start configuration has an entry, because it was produced again and given a parent, the trace from any configuration of the level never ends. |
| ExplorerProofs.ExploreReaches | traceTM-efreder3.py:88-129 | A run that gets past levels `0..d-1` is at depth `d`. Its level, parent map and counter there are `Level`, `Parents` and `Generated` at `d`. The initial level is `[("", start, input)]`. |
| ExplorerProofs.NonPositiveBound | traceTM-efreder3.py:92 | A bound of zero or less gives a rejection at that bound, with count 0 and no path. |
| ExplorerProofs.ExploreOutcome | traceTM-efreder3.py:88-131 | For a positive bound, the outcome is decided by the first level that stops the search. If no level below the bound stops it, the result is a rejection at the bound. If that level is empty, the result is a rejection at its depth. Otherwise it is the trace of the level's first accepting configuration, with the count of all configurations generated before it. |
| ExplorerProofs.AcceptedIsShallowest | traceTM-efreder3.py:92-103 | An acceptance at depth `d` has `d < max_steps`, and no level before `d` is empty or accepting. Its path is the trace of the first accepting configuration of level `d`, and its count is every configuration generated before that one was reached. |
| ExplorerProofs.RejectedHasNoAcceptBefore | traceTM-efreder3.py:92-131 | A rejection has an empty path, and no level before its depth is empty or accepting. Its depth is either the bound or the first empty level below it. Its count is the size of levels `1..d` (0 for a non-positive bound). |
| ExplorerProofs.AcceptedPathIsRun | traceTM-efreder3.py:97-129 | An accepted path is a computation of the machine. It starts at the initial configuration and ends at an accepting configuration of the reported level. Each later configuration is a successor of the one before it, which is not accepting. |
| ExplorerProofs.HangsMeansCycle | traceTM-efreder3.py:101-102 | A run that never returns has stopped, below the bound, at a level holding an accepting configuration. The parent links followed from the first such configuration form a cycle. |
| Scenarios.NoRuleRejectsAtDepthTwo | traceTM-efreder3.py:115-121 | With no rules, the start configuration becomes the reject configuration with the same tape, counted as one transition. That configuration has no successors, so the run rejects at depth 2 with total 1. |
| Scenarios.TwoOnesSteps | traceTM-efreder3.py:124-129 | On "11", the two right moves of the machine produce `("1", q1, "1")` and then `("11", q2, "_")`, materialising a blank at the right end. |
| Scenarios.TwoOnesAccepted | traceTM-efreder3.py:101-103 | That machine accepts "11" at depth 2 with total 2, along the three-configuration path from the start. |
| Scenarios.LoopingSteps | traceTM-efreder3.py:55-57 | Writing a blank and moving left from a lone blank, with `left` non-empty, gives a configuration back as its own successor. |
| Scenarios.SelfParentNeverRoots | traceTM-efreder3.py:75-77 | A trace that reaches a configuration which is its own parent never ends. |
| Scenarios.SelfParentHangs | traceTM-efreder3.py:119-128 | Because parent assignments overwrite, that configuration becomes its own parent, and the trace from the accepting configuration beside it never ends. |

## Left out

- `read_file`, which reads and parses the machine file, is not modelled. It is file I/O and line parsing. The table it builds is the `Table` type, and its accept list is `Machine.accept`.
- `main` is not modelled. It covers prompting, integer parsing and printing the report. Its inputs are the parameters of `Bfs`.
- An empty write field is not modelled. In the source it deletes the cell under the head (line 44). An `R` move then fails with an index error at line 52 when `right` had at most one cell; other moves go on. `WriteSymbol` is a non-empty string, so such a rule cannot be written. Multi-character writes are kept and behave as in the source.
- Table keys read a single character. The head symbol is always one character, so a longer read field in a machine file never matches; such keys are not representable.
- The trace loop of the source may never return. The model's loop is bounded by `|parent|` and returns `None` exactly then, and `Bfs` reports that as `Hangs`.
- The time and memory of the frontier, which grows exponentially, are not modelled.
- Python's tuple hashing is not modelled; a `map` keyed on `Config` stands in for it.
