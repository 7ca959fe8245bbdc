/** The engine's tape: a two-way infinite row of integer cells, all 0 until
    written, stored as two lists that grow one cell at a time. Index i >= 0
    lives at slot i of the positive list, index -k (k >= 1) at slot k - 1 of
    the negative list. */
module Tapes {

  /** The head moves: `direction.RIGHT` and `direction.LEFT`. */
  datatype Dir = Right | Left

  datatype Tape = Tape(pos: seq<int>, neg: seq<int>)

  /** The signed index stored at slot `k` of the positive or the negative list. */
  function IndexOf(positive: bool, k: nat): int {
    if positive then k else -(k as int) - 1
  }

  /** The slot that holds index `i` in the list of its sign. */
  function Slot(i: int): (k: nat)
    ensures IndexOf(i >= 0, k) == i
  {
    if i >= 0 then i else -i - 1
  }

  /** Slots and indices are in one-to-one correspondence, so in particular
      index 0 and index -1 are two distinct cells. */
  lemma SlotIndexOf(positive: bool, k: nat)
    ensures Slot(IndexOf(positive, k)) == k
    ensures IndexOf(positive, k) >= 0 <==> positive
  {
  }

  /** The cell at `i` has been created. */
  predicate Materialized(t: Tape, i: int) {
    if i >= 0 then i < |t.pos| else Slot(i) < |t.neg|
  }

  /** The cell at `i` exists or is the first one past the end of its list:
      where the head can be, since it moves one cell per step. */
  predicate HeadInRange(t: Tape, i: int) {
    if i >= 0 then i <= |t.pos| else Slot(i) <= |t.neg|
  }

  /** The symbol at index `i`: the stored value, or 0 for a cell not yet created. */
  function At(t: Tape, i: int): int {
    if !Materialized(t, i) then 0
    else if i >= 0 then t.pos[i] else t.neg[Slot(i)]
  }

  /** The lazy growth done by a read at `i`: an existing cell leaves the tape
      as it is; otherwise the list of `i`'s sign gains one 0 cell at its end.
      The other list is untouched, and no symbol changes. */
  function Grow(t: Tape, i: int): (g: Tape)
    requires HeadInRange(t, i)
    ensures Materialized(t, i) ==> g == t
    ensures !Materialized(t, i) && i >= 0 ==> g.pos == t.pos + [0]
    ensures !Materialized(t, i) && i < 0 ==> g.neg == t.neg + [0]
    ensures Materialized(g, i) && At(g, i) == At(t, i)
    ensures t.pos <= g.pos && t.neg <= g.neg
    ensures |g.pos| + |g.neg| <= |t.pos| + |t.neg| + 1
    ensures i >= 0 ==> g.neg == t.neg
    ensures i < 0 ==> g.pos == t.pos
  {
    if i >= 0 then
      if |t.pos| < i + 1 then Tape(t.pos + [0], t.neg) else t
    else
      if |t.neg| < -i then Tape(t.pos, t.neg + [0]) else t
  }

  /** Growing the tape changes no symbol anywhere: a new cell holds the 0 that
      the missing cell stood for. */
  lemma GrowKeepsSymbols(t: Tape, i: int)
    requires HeadInRange(t, i)
    ensures forall j :: At(Grow(t, i), j) == At(t, j)
  {
    var g := Grow(t, i);
    forall j
      ensures At(g, j) == At(t, j)
    {
      if Materialized(t, j) {
        assert j >= 0 ==> g.pos[j] == t.pos[j];
        assert j < 0 ==> g.neg[Slot(j)] == t.neg[Slot(j)];
      }
    }
  }

  /** Overwrites the existing cell at `i`: the symbol there becomes `v`, every
      other symbol and both list lengths stay as they were. */
  function Write(t: Tape, i: int, v: int): (w: Tape)
    requires Materialized(t, i)
    ensures |w.pos| == |t.pos| && |w.neg| == |t.neg|
    ensures Materialized(w, i) && At(w, i) == v
  {
    if i >= 0 then Tape(t.pos[i := v], t.neg) else Tape(t.pos, t.neg[Slot(i) := v])
  }

  /** A write at `i` leaves every other cell as it was. */
  lemma WriteKeepsOthers(t: Tape, i: int, v: int)
    requires Materialized(t, i)
    ensures forall j :: j != i ==> At(Write(t, i, v), j) == At(t, j)
  {
    forall j | j != i
      ensures At(Write(t, i, v), j) == At(t, j)
    {
      if (j >= 0) != (i >= 0) {
        SlotIndexOf(j >= 0, Slot(j));
      }
    }
  }

  /** The head index after a move. */
  function Move(i: int, d: Dir): int {
    if d == Right then i + 1 else i - 1
  }
}
