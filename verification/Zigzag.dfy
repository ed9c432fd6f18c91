// The two-column zigzag of auth/flow-ui/qr.js: the order in which data bits fill the
// unreserved modules. The order is a bijection between 0..|Slots| and those modules, and
// it has room for every codeword of the version.
module Zigzag {
  import opened Assembly
  import opened Pattern

  datatype Cell = Cell(r: int, c: int)

  // How many two-column strips there are, and the right column of each; column 6 is skipped.
  function StripCount(v: Version): nat {
    2 * v + 8
  }

  function Right(v: Version, k: nat): int {
    var right := Size(v) - 1 - 2 * k;
    if right > 6 then right else right - 1
  }

  predicate RunsUpward(k: nat) {
    k % 2 == 0
  }

  function RowOf(v: Version, k: nat, step: nat): int {
    if RunsUpward(k) then Size(v) - 1 - step else step
  }

  function Slot(v: Version, r: int, c: int): seq<Cell> {
    if Reserved(v, r, c) then [] else [Cell(r, c)]
  }

  function StripSlots(v: Version, k: nat, steps: nat): seq<Cell> {
    if steps == 0 then []
    else
      var r := RowOf(v, k, steps - 1);
      StripSlots(v, k, steps - 1) + Slot(v, r, Right(v, k)) + Slot(v, r, Right(v, k) - 1)
  }

  function SlotsBefore(v: Version, strips: nat): seq<Cell> {
    if strips == 0 then [] else SlotsBefore(v, strips - 1) + StripSlots(v, strips - 1, Size(v))
  }

  // Every data module in the order in which it is filled.
  function Slots(v: Version): seq<Cell> {
    SlotsBefore(v, StripCount(v))
  }

  // ---- The inverse: which strip, step and side a module has ----

  function StripOf(v: Version, c: int): int {
    if c > 6 then (Size(v) - 1 - c) / 2 else (Size(v) - 2 - c) / 2
  }

  lemma StripFacts(v: Version, c: int)
    requires 0 <= c < Size(v) && c != 6
    ensures 0 <= StripOf(v, c) < StripCount(v)
    ensures c == Right(v, StripOf(v, c)) || c == Right(v, StripOf(v, c)) - 1
  {}

  function StepOf(v: Version, r: int, c: int): int
    requires InMatrix(Size(v), r, c) && c != 6
  {
    StripFacts(v, c);
    if RunsUpward(StripOf(v, c)) then Size(v) - 1 - r else r
  }

  // How many data modules come before this one.
  function SlotIndex(v: Version, r: int, c: int): nat
    requires InMatrix(Size(v), r, c) && c != 6
  {
    var k, step := StripOf(v, c), StepOf(v, r, c);
    StripFacts(v, c);
    |SlotsBefore(v, k)| + |StripSlots(v, k, step)| + if c == Right(v, k) then 0 else |Slot(v, r, Right(v, k))|
  }

  lemma StripColumns(v: Version, k: nat)
    requires k < StripCount(v)
    ensures 1 <= Right(v, k) < Size(v) && Right(v, k) != 6 && Right(v, k) - 1 != 6
    ensures StripOf(v, Right(v, k)) == k && StripOf(v, Right(v, k) - 1) == k
  {}

  lemma StepOfRow(v: Version, k: nat, step: nat, c: int)
    requires k < StripCount(v) && step < Size(v) && (c == Right(v, k) || c == Right(v, k) - 1)
    ensures InMatrix(Size(v), RowOf(v, k, step), c) && c != 6
    ensures StripOf(v, c) == k && StepOf(v, RowOf(v, k, step), c) == step
  {
    StripColumns(v, k);
  }

  // ---- Slot j of the order is the module whose index is j ----

  ghost predicate Indexed(v: Version, cells: seq<Cell>, base: nat) {
    forall j :: 0 <= j < |cells| ==>
      && InMatrix(Size(v), cells[j].r, cells[j].c) && cells[j].c != 6
      && !Reserved(v, cells[j].r, cells[j].c)
      && SlotIndex(v, cells[j].r, cells[j].c) == base + j
  }

  lemma IndexedConcat(v: Version, a: seq<Cell>, b: seq<Cell>, base: nat)
    requires Indexed(v, a, base) && Indexed(v, b, base + |a|)
    ensures Indexed(v, a + b, base)
  {
    hide SlotIndex, Reserved;
  }

  lemma IndexOfStep(v: Version, k: nat, step: nat)
    requires k < StripCount(v) && step < Size(v)
    ensures var r, right, base := RowOf(v, k, step), Right(v, k), |SlotsBefore(v, k)| + |StripSlots(v, k, step)|;
      && InMatrix(Size(v), r, right) && InMatrix(Size(v), r, right - 1) && right != 6 && right - 1 != 6
      && SlotIndex(v, r, right) == base && SlotIndex(v, r, right - 1) == base + |Slot(v, r, right)|
  {
    StepOfRow(v, k, step, Right(v, k));
    StepOfRow(v, k, step, Right(v, k) - 1);
    hide Reserved, StripOf, StepOf, RowOf, Right, Slot;
  }

  lemma SlotIndexed(v: Version, r: int, c: int, base: nat)
    requires InMatrix(Size(v), r, c) && c != 6 && SlotIndex(v, r, c) == base
    ensures Indexed(v, Slot(v, r, c), base)
  {
    hide Reserved, SlotIndex;
  }

  lemma NothingIndexed(v: Version, base: nat)
    ensures Indexed(v, [], base)
  {}

  lemma {:induction false} StripIndexed(v: Version, k: nat, steps: nat)
    requires k < StripCount(v) && steps <= Size(v)
    ensures Indexed(v, StripSlots(v, k, steps), |SlotsBefore(v, k)|)
  {
    hide Indexed, Reserved, SlotIndex, RowOf, Right, Slot, SlotsBefore;
    var base := |SlotsBefore(v, k)|;
    if steps == 0 {
      NothingIndexed(v, base);
    } else {
      var right, r := Right(v, k), RowOf(v, k, steps - 1);
      StripIndexed(v, k, steps - 1);
      IndexOfStep(v, k, steps - 1);
      var before := StripSlots(v, k, steps - 1);
      SlotIndexed(v, r, right, base + |before|);
      IndexedConcat(v, before, Slot(v, r, right), base);
      SlotIndexed(v, r, right - 1, base + |before + Slot(v, r, right)|);
      IndexedConcat(v, before + Slot(v, r, right), Slot(v, r, right - 1), base);
    }
  }

  lemma {:induction false} BeforeIndexed(v: Version, strips: nat)
    requires strips <= StripCount(v)
    ensures Indexed(v, SlotsBefore(v, strips), 0)
  {
    hide Indexed, StripSlots;
    if strips == 0 {
      NothingIndexed(v, 0);
    } else {
      BeforeIndexed(v, strips - 1);
      StripIndexed(v, strips - 1, Size(v));
      IndexedConcat(v, SlotsBefore(v, strips - 1), StripSlots(v, strips - 1, Size(v)), 0);
    }
  }

  // ---- Every unreserved module is in the order, at its index ----

  lemma {:induction false} InLaterSteps(v: Version, k: nat, step: nat, r: int, c: int, steps: nat)
    requires k < StripCount(v) && step < steps <= Size(v)
    requires r == RowOf(v, k, step) && (c == Right(v, k) || c == Right(v, k) - 1) && !Reserved(v, r, c)
    ensures InMatrix(Size(v), r, c) && c != 6
    ensures var i := SlotIndex(v, r, c) - |SlotsBefore(v, k)|;
            0 <= i < |StripSlots(v, k, steps)| && StripSlots(v, k, steps)[i] == Cell(r, c)
  {
    hide Reserved, SlotIndex, RowOf, Right, SlotsBefore;
    IndexOfStep(v, k, step);
    if steps > step + 1 {
      InLaterSteps(v, k, step, r, c, steps - 1);
    }
  }

  lemma {:induction false} InLaterStrips(v: Version, k: nat, step: nat, r: int, c: int, strips: nat)
    requires k < strips <= StripCount(v) && step < Size(v)
    requires r == RowOf(v, k, step) && (c == Right(v, k) || c == Right(v, k) - 1) && !Reserved(v, r, c)
    ensures InMatrix(Size(v), r, c) && c != 6
    ensures var i := SlotIndex(v, r, c);
            i < |SlotsBefore(v, strips)| && SlotsBefore(v, strips)[i] == Cell(r, c)
  {
    hide Reserved, SlotIndex, RowOf, Right, StripSlots;
    InLaterSteps(v, k, step, r, c, Size(v));
    if strips > k + 1 {
      InLaterStrips(v, k, step, r, c, strips - 1);
    }
  }

  // The zigzag visits each unreserved module exactly once and no other: the order and the
  // index are inverse to each other.
  lemma ZigzagIsBijection(v: Version)
    ensures Indexed(v, Slots(v), 0)
    ensures forall r, c :: InMatrix(Size(v), r, c) && !Reserved(v, r, c) ==>
      c != 6 && SlotIndex(v, r, c) < |Slots(v)| && Slots(v)[SlotIndex(v, r, c)] == Cell(r, c)
  {
    hide Reserved, SlotIndex, SlotsBefore, Right, Indexed;
    BeforeIndexed(v, StripCount(v));
    forall r, c | InMatrix(Size(v), r, c) && !Reserved(v, r, c)
      ensures c != 6 && SlotIndex(v, r, c) < |Slots(v)| && Slots(v)[SlotIndex(v, r, c)] == Cell(r, c)
    {
      ReservedCovered(v, r, c);
      StripFacts(v, c);
      var k, step := StripOf(v, c), StepOf(v, r, c);
      assert r == RowOf(v, k, step);
      InLaterStrips(v, k, step, r, c, StripCount(v));
    }
  }
}
