/**
 * The tape of a single-tape Turing machine, stored as two strings around the
 * head: `left` holds the visited cells strictly left of the head, in
 * left-to-right order, and `right` starts with the cell under the head. Cells
 * outside both strings are blank; a blank cell is stored only once the head
 * has reached it.
 */
module TuringTape {

  /** The blank symbol, `_`. */
  const BLANK: char := '_'

  /**
   * The write field of a transition. The machine description gives it as a
   * string; a write of more than one character is kept as it is (it widens
   * the tape), an empty one is not representable.
   */
  type WriteSymbol = s: string | |s| > 0 witness "_"

  datatype Tape = Tape(left: string, right: string)

  /** The stored cells right of the head, as `right[1:]` gives them. */
  function Rest(right: string): string {
    if |right| == 0 then "" else right[1..]
  }

  /**
   * The tape after writing `w` at the head, before the head moves. The cells
   * left of the head are untouched, `w` takes the place of the head cell, and
   * the cells after the head follow `w`.
   */
  function WriteHead(t: Tape, w: WriteSymbol): (r: Tape)
    ensures forall p :: p < 0 ==> Cell(r, p) == Cell(t, p)
    ensures forall p :: 0 <= p < |w| ==> Cell(r, p) == w[p]
    ensures forall p :: p >= |w| ==> Cell(r, p) == Cell(t, p - |w| + 1)
  {
    if |t.right| == 0 then Tape(t.left, w) else Tape(t.left, w + t.right[1..])
  }

  /**
   * A one-character write changes the cell under the head to that character
   * and no other cell of the tape.
   */
  lemma WriteHeadWrites(t: Tape, c: char)
    ensures Cell(WriteHead(t, [c]), 0) == c
    ensures forall p :: p != 0 ==> Cell(WriteHead(t, [c]), p) == Cell(t, p)
  {
  }

  /**
   * The one case in which a move other than right leaves the head where it
   * is: the left part is non-empty and the written right part is a lone blank.
   */
  predicate Collapses(t: Tape, w: WriteSymbol, dir: string) {
    var written := WriteHead(t, w).right;
    dir != "R" && |t.left| > 0 && (|written| == 0 || written == "_")
  }

  /**
   * One write-and-move: write `w` at the head, then move right on "R" and
   * left on any other direction, materialising a blank cell when the head
   * leaves the stored cells.
   */
  function Move(t: Tape, w: WriteSymbol, dir: string): (r: Tape)
    ensures |r.right| > 0
  {
    var written := WriteHead(t, w).right;
    if dir == "R" then
      if |written| > 1 then Tape(t.left + [written[0]], written[1..])
      else Tape(t.left + [written[0]], "_")
    else if |t.left| > 0 then
      if |written| == 0 || written == "_" then Tape(t.left, "_")
      else Tape(t.left[..|t.left| - 1], [t.left[|t.left| - 1]] + written)
    else Tape(t.left, "_" + written)
  }

  /**
   * The symbol `p` cells right of the head (left of it for negative `p`) on
   * the bi-infinite tape that `t` stands for.
   */
  function Cell(t: Tape, p: int): char {
    if p >= 0 then
      if p < |t.right| then t.right[p] else BLANK
    else
      if |t.left| + p >= 0 then t.left[|t.left| + p] else BLANK
  }

  /** How far the head moves on direction `dir`, when it moves. */
  function Shift(dir: string): int {
    if dir == "R" then 1 else -1
  }

  /**
   * Outside the collapse case a one-character write is a true Turing-machine
   * step: the new tape reads, at every position, what the written tape reads
   * one cell further in the direction of the move; the left part grows by
   * one on a right move and shrinks by one on a left move (it stays empty
   * when the head enters blank territory on the left).
   */
  lemma MoveShiftsHead(t: Tape, c: char, dir: string)
    requires !Collapses(t, [c], dir)
    ensures forall p :: Cell(Move(t, [c], dir), p) == Cell(WriteHead(t, [c]), p + Shift(dir))
    ensures |Move(t, [c], dir).left| ==
              if dir == "R" then |t.left| + 1 else if |t.left| > 0 then |t.left| - 1 else 0
  {
    var r, w := Move(t, [c], dir), WriteHead(t, [c]);
    forall p ensures Cell(r, p) == Cell(w, p + Shift(dir)) {
      if dir == "R" {
        if |w.right| > 1 {
          assert r == Tape(t.left + [c], w.right[1..]);
        } else {
          assert r == Tape(t.left + [c], "_");
        }
      } else if |t.left| > 0 {
        assert r == Tape(t.left[..|t.left| - 1], [t.left[|t.left| - 1]] + w.right);
      } else {
        assert r == Tape(t.left, "_" + w.right);
      }
    }
  }

  /**
   * In the collapse case the head does not move: the result is the written
   * tape itself, and the written symbol was a blank over the last stored cell.
   */
  lemma CollapseKeepsHead(t: Tape, c: char, dir: string)
    requires Collapses(t, [c], dir)
    ensures Move(t, [c], dir) == WriteHead(t, [c])
    ensures c == BLANK && |t.right| <= 1
  {
    var written := WriteHead(t, [c]).right;
    assert written == "_" && written[0] == c && |Rest(t.right)| == |written| - 1;
  }

  /**
   * A one-character write on a tape whose right part is non-empty stores at
   * most one new cell.
   */
  lemma MoveGrowsByAtMostOne(t: Tape, w: WriteSymbol, dir: string)
    requires |w| == 1 && |t.right| > 0
    ensures |Move(t, w, dir).left| + |Move(t, w, dir).right| <= |t.left| + |t.right| + 1
  {
    assert |WriteHead(t, w).right| == |t.right|;
  }
}
