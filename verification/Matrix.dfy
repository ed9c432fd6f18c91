// buildMatrix of auth/flow-ui/qr.js: the writes to the module and reservation arrays, in
// the source's order, against a closed form of every module of the finished matrix.
module Matrix {
  import opened Bitstream
  import opened Options
  import opened Assembly
  import opened Pattern
  import opened Zigzag
  import opened Bch

  // A module that has not been written: null in the source.
  const UNSET: int := -1

  predicate MaskBit(mask: Mask, r: nat, c: nat) {
    match mask
    case 0 => (r + c) % 2 == 0
    case 1 => r % 2 == 0
    case 2 => c % 3 == 0
    case 3 => (r + c) % 3 == 0
    case 4 => (r / 2 + c / 3) % 2 == 0
    case 5 => (r * c) % 2 + (r * c) % 3 == 0
    case 6 => ((r * c) % 2 + (r * c) % 3) % 2 == 0
    case _ => ((r + c) % 2 + (r * c) % 3) % 2 == 0
  }

  function Xor(a: Bit, flip: bool): Bit {
    if flip then 1 - a else a
  }

  // Bit i of the codewords, most significant first; zero once they run out.
  function DataBit(codewords: seq<Byte>, i: nat): Bit {
    if i < 8 * |codewords| then ShiftRight(codewords[i / 8], 7 - i % 8) % 2 else 0
  }

  function DataModule(v: Version, codewords: seq<Byte>, mask: Mask, r: nat, c: nat): Bit
    requires InMatrix(Size(v), r, c) && c != 6
  {
    Xor(DataBit(codewords, SlotIndex(v, r, c)), MaskBit(mask, r, c))
  }

  // The closed form: what module (r, c) of the finished matrix holds.
  function FinalModule(v: Version, codewords: seq<Byte>, mask: Mask, r: nat, c: nat): Bit
    requires InMatrix(Size(v), r, c)
  {
    match FormatIndex(Size(v), r, c)
    case Some(i) => ShiftRight(FormatInfo(mask), i) % 2
    case None =>
      match PatternValue(v, r, c)
      case Some(bit) => bit
      case None =>
        ReservedCovered(v, r, c);
        DataModule(v, codewords, mask, r, c)
  }

  // Data and format writes leave every finder, timing, alignment and version module with
  // the value of its own pattern, whatever the codewords and the mask.
  lemma PatternsSurvive(v: Version, codewords: seq<Byte>, mask: Mask, r: nat, c: nat)
    requires InMatrix(Size(v), r, c)
    ensures var n, final := Size(v), FinalModule(v, codewords, mask, r, c);
      && (InFinder(n, r, c) ==> final == FinderValue(n, r, c))
      && (InTiming(n, r, c) ==> final == TimingValue(r, c))
      && (InAlignment(v, r, c) ==> final == AlignmentValue(v, r, c))
      && (InVersion(v, r, c) ==> final == VersionValue(v, r, c))
      && (r == n - 8 && c == 8 ==> final == 1)
  {
    PatternsIntact(v, r, c);
    hide InFinder, FinderValue, InTiming, TimingValue, InAlignment, AlignmentValue, VersionValue, DataModule;
  }

  // ---- Function patterns ----

  predicate Sized(m: array2<int>, reserved: array2<bool>, n: int) {
    m.Length0 == n && m.Length1 == n && reserved.Length0 == n && reserved.Length1 == n
  }

  method SetF(m: array2<int>, reserved: array2<bool>, n: int, r: int, c: int, value: Bit)
    requires Sized(m, reserved, n)
    modifies m, reserved
    ensures forall y, x :: InMatrix(n, y, x) ==> m[y, x] == if y == r && x == c then value else old(m[y, x])
    ensures forall y, x :: InMatrix(n, y, x) ==> reserved[y, x] == (old(reserved[y, x]) || (y == r && x == c))
  {
    if r >= 0 && r < n && c >= 0 && c < n {
      m[r, c] := value;
      reserved[r, c] := true;
    }
  }

  // Row-major order within a square loop nest.
  predicate Earlier(y: int, x: int, r: int, c: int) {
    y < r || (y == r && x < c)
  }

  method DrawFinder(m: array2<int>, reserved: array2<bool>, n: int, br: int, bc: int)
    requires Sized(m, reserved, n)
    modifies m, reserved
    ensures forall y, x :: InMatrix(n, y, x) ==>
      m[y, x] == if InFinderAt(br, bc, y, x) then FinderModule(y - br, x - bc) else old(m[y, x])
    ensures forall y, x :: InMatrix(n, y, x) ==>
      reserved[y, x] == (old(reserved[y, x]) || InFinderAt(br, bc, y, x))
  {
    for r := -1 to 8
      invariant forall y, x :: InMatrix(n, y, x) ==>
        m[y, x] == if InFinderAt(br, bc, y, x) && y - br < r then FinderModule(y - br, x - bc) else old(m[y, x])
      invariant forall y, x :: InMatrix(n, y, x) ==>
        reserved[y, x] == (old(reserved[y, x]) || (InFinderAt(br, bc, y, x) && y - br < r))
    {
      for c := -1 to 8
        invariant forall y, x :: InMatrix(n, y, x) ==>
          m[y, x] == if InFinderAt(br, bc, y, x) && Earlier(y - br, x - bc, r, c)
                     then FinderModule(y - br, x - bc) else old(m[y, x])
        invariant forall y, x :: InMatrix(n, y, x) ==>
          reserved[y, x] == (old(reserved[y, x]) || (InFinderAt(br, bc, y, x) && Earlier(y - br, x - bc, r, c)))
      {
        SetF(m, reserved, n, br + r, bc + c, FinderModule(r, c));
      }
    }
  }

  method DrawTiming(m: array2<int>, reserved: array2<bool>, n: int)
    requires Sized(m, reserved, n) && n >= 21
    modifies m, reserved
    ensures forall y, x :: InMatrix(n, y, x) ==>
      m[y, x] == if InTiming(n, y, x) then TimingValue(y, x) else old(m[y, x])
    ensures forall y, x :: InMatrix(n, y, x) ==> reserved[y, x] == (old(reserved[y, x]) || InTiming(n, y, x))
  {
    for i := 8 to n - 8
      invariant forall y, x :: InMatrix(n, y, x) ==>
        m[y, x] == if InTiming(n, y, x) && (if y == 6 then x else y) < i then TimingValue(y, x) else old(m[y, x])
      invariant forall y, x :: InMatrix(n, y, x) ==>
        reserved[y, x] == (old(reserved[y, x]) || (InTiming(n, y, x) && (if y == 6 then x else y) < i))
    {
      SetF(m, reserved, n, 6, i, if i % 2 == 0 then 1 else 0);
      SetF(m, reserved, n, i, 6, if i % 2 == 0 then 1 else 0);
    }
  }

  predicate NearCenter(r: int, c: int, y: int, x: int) {
    Abs(y - r) <= 2 && Abs(x - c) <= 2
  }

  method DrawAlignmentAt(m: array2<int>, reserved: array2<bool>, n: int, r: int, c: int)
    requires Sized(m, reserved, n)
    modifies m, reserved
    ensures forall y, x :: InMatrix(n, y, x) ==>
      m[y, x] == if NearCenter(r, c, y, x) then AlignmentModule(y - r, x - c) else old(m[y, x])
    ensures forall y, x :: InMatrix(n, y, x) ==>
      reserved[y, x] == (old(reserved[y, x]) || NearCenter(r, c, y, x))
  {
    for dr := -2 to 3
      invariant forall y, x :: InMatrix(n, y, x) ==>
        m[y, x] == if NearCenter(r, c, y, x) && y - r < dr then AlignmentModule(y - r, x - c) else old(m[y, x])
      invariant forall y, x :: InMatrix(n, y, x) ==>
        reserved[y, x] == (old(reserved[y, x]) || (NearCenter(r, c, y, x) && y - r < dr))
    {
      for dc := -2 to 3
        invariant forall y, x :: InMatrix(n, y, x) ==>
          m[y, x] == if NearCenter(r, c, y, x) && Earlier(y - r, x - c, dr, dc)
                     then AlignmentModule(y - r, x - c) else old(m[y, x])
        invariant forall y, x :: InMatrix(n, y, x) ==>
          reserved[y, x] == (old(reserved[y, x]) || (NearCenter(r, c, y, x) && Earlier(y - r, x - c, dr, dc)))
      {
        var on := (if Abs(dr) >= Abs(dc) then Abs(dr) else Abs(dc)) != 1;
        SetF(m, reserved, n, r + dr, c + dc, if on then 1 else 0);
      }
    }
  }

  // The alignment patterns of centre pairs before (i, j), in the order of the loops.
  predicate InEarlierAlignment(v: Version, y: int, x: int, i: nat, j: nat) {
    InAlignment(v, y, x) && Earlier(NearIndex(Centers(v), y), NearIndex(Centers(v), x), i, j)
  }

  lemma NextAlignment(v: Version, y: int, x: int, i: nat, j: nat)
    requires i < |Centers(v)| && j < |Centers(v)|
    ensures var r, c := Centers(v)[i], Centers(v)[j];
      && (InEarlierAlignment(v, y, x, i, j + 1) <==>
          InEarlierAlignment(v, y, x, i, j) || (NearCenter(r, c, y, x) && !Corner(Size(v), r, c)))
      && (NearCenter(r, c, y, x) && !Corner(Size(v), r, c) ==>
          InAlignment(v, y, x) && AlignmentValue(v, y, x) == AlignmentModule(y - r, x - c))
  {
    NearFacts(v, y);
    NearFacts(v, x);
    hide Centers, NearIndex;
  }

  lemma AllEarlier(v: Version)
    ensures forall y, x :: !InEarlierAlignment(v, y, x, 0, 0)
    ensures forall y, x :: InEarlierAlignment(v, y, x, |Centers(v)|, 0) <==> InAlignment(v, y, x)
    ensures forall y, x, i: nat :: InEarlierAlignment(v, y, x, i, |Centers(v)|) <==>
      InEarlierAlignment(v, y, x, i + 1, 0)
  {
    forall y { NearFacts(v, y); }
    hide Centers, NearIndex;
  }

  function AlignmentAt(v: Version, y: int, x: int): Bit {
    if InAlignment(v, y, x) then AlignmentValue(v, y, x) else 0
  }

  method DrawAlignments(m: array2<int>, reserved: array2<bool>, v: Version)
    requires Sized(m, reserved, Size(v))
    modifies m, reserved
    ensures forall y, x :: InMatrix(Size(v), y, x) ==>
      m[y, x] == if InAlignment(v, y, x) then AlignmentValue(v, y, x) else old(m[y, x])
    ensures forall y, x :: InMatrix(Size(v), y, x) ==>
      reserved[y, x] == (old(reserved[y, x]) || InAlignment(v, y, x))
  {
    var n, centers := Size(v), Centers(v);
    AllEarlier(v);
    hide Centers, InAlignment, InEarlierAlignment, AlignmentValue, Corner, NearCenter, AlignmentModule;
    for i := 0 to |centers|
      invariant forall y, x :: InMatrix(n, y, x) ==>
        m[y, x] == if InEarlierAlignment(v, y, x, i, 0) then AlignmentAt(v, y, x) else old(m[y, x])
      invariant forall y, x :: InMatrix(n, y, x) ==>
        reserved[y, x] == (old(reserved[y, x]) || InEarlierAlignment(v, y, x, i, 0))
    {
      for j := 0 to |centers|
        invariant forall y, x :: InMatrix(n, y, x) ==>
          m[y, x] == if InEarlierAlignment(v, y, x, i, j) then AlignmentAt(v, y, x) else old(m[y, x])
        invariant forall y, x :: InMatrix(n, y, x) ==>
          reserved[y, x] == (old(reserved[y, x]) || InEarlierAlignment(v, y, x, i, j))
      {
        forall y, x | InMatrix(n, y, x) { NextAlignment(v, y, x, i, j); }
        if Corner(n, centers[i], centers[j]) {
          continue;
        }
        DrawAlignmentAt(m, reserved, n, centers[i], centers[j]);
      }
    }
  }

  // Reserves the format area without writing to it.
  method KeepFormat(m: array2<int>, reserved: array2<bool>, n: int)
    requires Sized(m, reserved, n) && n >= 21
    modifies reserved
    ensures forall y, x :: InMatrix(n, y, x) ==> reserved[y, x] == (old(reserved[y, x]) || InFormatArea(n, y, x))
  {
    for i := 0 to 9
      invariant forall y, x :: InMatrix(n, y, x) ==>
        reserved[y, x] == (old(reserved[y, x]) || (y == 8 && x < i) || (x == 8 && y < i))
    {
      reserved[8, i] := true;
      reserved[i, 8] := true;
    }
    for i := 0 to 8
      invariant forall y, x :: InMatrix(n, y, x) ==>
        reserved[y, x] == (old(reserved[y, x]) || (y == 8 && (x <= 8 || x >= n - i)) ||
          (x == 8 && (y <= 8 || y >= n - i)))
    {
      reserved[8, n - 1 - i] := true;
      reserved[n - 1 - i, 8] := true;
    }
  }

  // The bit of the version word that a version module holds.
  function VersionIndex(n: int, y: int, x: int): int {
    if y < 6 && n - 11 <= x <= n - 9 then 3 * y + (x - (n - 11)) else 3 * x + (y - (n - 11))
  }

  // Each bit of the version word stands in two modules.
  lemma VersionModules(v: Version, i: nat, y: int, x: int)
    requires v >= 7 && i < 18 && InMatrix(Size(v), y, x)
    ensures var n := Size(v);
      InVersion(v, y, x) && VersionIndex(n, y, x) == i <==>
        (y == i / 3 && x == n - 11 + i % 3) || (y == n - 11 + i % 3 && x == i / 3)
    ensures InVersion(v, y, x) ==> 0 <= VersionIndex(Size(v), y, x) < 18
    ensures InVersion(v, y, x) && VersionIndex(Size(v), y, x) == i ==>
      VersionValue(v, y, x) == ShiftRight(VersionInfo(v), i) % 2
  {
    hide ShiftRight, VersionInfo;
  }

  method DrawVersion(m: array2<int>, reserved: array2<bool>, v: Version)
    requires Sized(m, reserved, Size(v))
    modifies m, reserved
    ensures forall y, x :: InMatrix(Size(v), y, x) ==>
      m[y, x] == if InVersion(v, y, x) then VersionValue(v, y, x) else old(m[y, x])
    ensures forall y, x :: InMatrix(Size(v), y, x) ==>
      reserved[y, x] == (old(reserved[y, x]) || InVersion(v, y, x))
  {
    if v < 7 {
      return;
    }
    var n := Size(v);
    var vbits := ComputeVersion(v);
    hide VersionInfo, ShiftRight, InVersion, VersionIndex, VersionValue;
    forall y, x | InMatrix(n, y, x)
      ensures InVersion(v, y, x) ==> 0 <= VersionIndex(n, y, x) < 18
    {
      VersionModules(v, 0, y, x);
    }
    for i := 0 to 18
      invariant forall y, x :: InMatrix(n, y, x) ==>
        m[y, x] == if InVersion(v, y, x) && VersionIndex(n, y, x) < i then VersionValue(v, y, x) else old(m[y, x])
      invariant forall y, x :: InMatrix(n, y, x) ==>
        reserved[y, x] == (old(reserved[y, x]) || (InVersion(v, y, x) && VersionIndex(n, y, x) < i))
    {
      var bit := ShiftRight(vbits, i) % 2;
      forall y, x | InMatrix(n, y, x)
        ensures InVersion(v, y, x) && VersionIndex(n, y, x) == i <==>
                (y == i / 3 && x == n - 11 + i % 3) || (y == n - 11 + i % 3 && x == i / 3)
        ensures InVersion(v, y, x) && VersionIndex(n, y, x) == i ==> VersionValue(v, y, x) == bit
      {
        VersionModules(v, i, y, x);
      }
      SetF(m, reserved, n, i / 3, n - 11 + i % 3, bit);
      SetF(m, reserved, n, n - 11 + i % 3, i / 3, bit);
    }
  }

  // ---- Data placement ----

  ghost predicate Reserving(reserved: array2<bool>, v: Version)
    requires reserved.Length0 == Size(v) && reserved.Length1 == Size(v)
    reads reserved
  {
    forall y, x :: InMatrix(Size(v), y, x) ==> reserved[y, x] == Reserved(v, y, x)
  }

  // One module of the zigzag: skipped when reserved, otherwise the next bit under the mask.
  method PlaceModule(m: array2<int>, reserved: array2<bool>, v: Version, codewords: seq<Byte>, mask: Mask,
                     r: int, c: int, bitIndex: nat) returns (next: nat)
    requires Sized(m, reserved, Size(v)) && Reserving(reserved, v)
    requires InMatrix(Size(v), r, c) && c != 6 && bitIndex == SlotIndex(v, r, c)
    modifies m
    ensures next == bitIndex + |Slot(v, r, c)|
    ensures forall y, x :: InMatrix(Size(v), y, x) ==>
      m[y, x] == if y == r && x == c && !Reserved(v, r, c) then DataModule(v, codewords, mask, r, c) else old(m[y, x])
  {
    hide Reserved, SlotIndex, MaskBit;
    next := bitIndex;
    if reserved[r, c] {
      return;
    }
    var bit: Bit := 0;
    if bitIndex < |codewords| * 8 {
      bit := ShiftRight(codewords[bitIndex / 8], 7 - bitIndex % 8) % 2;
    }
    next := bitIndex + 1;
    m[r, c] := Xor(bit, MaskBit(mask, r, c));
  }

  // How many data modules the first k strips hold.
  function FilledBefore(v: Version, k: nat): nat {
    |SlotsBefore(v, k)|
  }

  // DataModule, made total: column 6 never holds data.
  function DataModuleOrZero(v: Version, codewords: seq<Byte>, mask: Mask, r: int, c: int): Bit {
    if InMatrix(Size(v), r, c) && c != 6 then DataModule(v, codewords, mask, r, c) else 0
  }

  // How many data modules come before a step of strip k.
  function FilledAt(v: Version, k: nat, step: nat): nat {
    FilledBefore(v, k) + |StripSlots(v, k, step)|
  }

  lemma StripEnds(v: Version, k: nat)
    ensures FilledAt(v, k, 0) == FilledBefore(v, k)
    ensures FilledAt(v, k, Size(v)) == FilledBefore(v, k + 1)
  {
    hide Slot;
  }

  lemma NextStep(v: Version, k: nat, step: nat)
    requires k < StripCount(v) && step < Size(v)
    ensures var r, right := RowOf(v, k, step), Right(v, k);
      && InMatrix(Size(v), r, right) && InMatrix(Size(v), r, right - 1) && right != 6 && right - 1 != 6
      && SlotIndex(v, r, right) == FilledAt(v, k, step)
      && SlotIndex(v, r, right - 1) == FilledAt(v, k, step) + |Slot(v, r, right)|
      && FilledAt(v, k, step + 1) == FilledAt(v, k, step) + |Slot(v, r, right)| + |Slot(v, r, right - 1)|
  {
    IndexOfStep(v, k, step);
    hide SlotIndex, Slot, Right, RowOf, SlotsBefore;
  }

  method PlaceStrip(m: array2<int>, reserved: array2<bool>, v: Version, codewords: seq<Byte>, mask: Mask,
                    ghost k: nat, right: int, upward: bool, bitIndex: nat) returns (next: nat)
    requires Sized(m, reserved, Size(v)) && Reserving(reserved, v)
    requires k < StripCount(v) && right == Right(v, k) && upward == RunsUpward(k)
    requires bitIndex == FilledBefore(v, k)
    modifies m
    ensures next == FilledBefore(v, k + 1)
    ensures forall y, x :: InMatrix(Size(v), y, x) ==>
      m[y, x] == if right - 1 <= x <= right && !Reserved(v, y, x)
                 then DataModuleOrZero(v, codewords, mask, y, x) else old(m[y, x])
  {
    var n := Size(v);
    next := bitIndex;
    StripEnds(v, k);
    hide Reserved, SlotIndex, DataModule, Right, Slot, RunsUpward, FilledBefore, FilledAt, StripSlots;
    for step := 0 to n
      invariant next == FilledAt(v, k, step)
      invariant Reserving(reserved, v)
      invariant forall y, x :: InMatrix(n, y, x) ==>
        m[y, x] == if right - 1 <= x <= right && !Reserved(v, y, x) && (if upward then n - 1 - y else y) < step
                   then DataModuleOrZero(v, codewords, mask, y, x) else old(m[y, x])
    {
      NextStep(v, k, step);
      var r := if upward then n - 1 - step else step;
      next := PlaceModule(m, reserved, v, codewords, mask, r, right, next);
      next := PlaceModule(m, reserved, v, codewords, mask, r, right - 1, next);
    }
  }

  // The loop variable at the head of iteration k, before column 6 is skipped.
  function HeadRight(v: Version, k: nat): int {
    if Size(v) - 1 - 2 * k >= 6 then Size(v) - 1 - 2 * k else Size(v) - 2 - 2 * k
  }

  lemma NextHead(v: Version, k: nat)
    ensures HeadRight(v, k) >= 1 <==> k < StripCount(v)
    ensures k == StripCount(v) ==> HeadRight(v, k) == -1
    ensures k < StripCount(v) ==> Right(v, k) == if HeadRight(v, k) == 6 then 5 else HeadRight(v, k)
    ensures k < StripCount(v) ==> HeadRight(v, k + 1) == Right(v, k) - 2 < HeadRight(v, k)
    ensures RunsUpward(k + 1) == !RunsUpward(k)
  {}

  lemma ColumnSix(v: Version)
    ensures forall y :: 0 <= y < Size(v) ==> Reserved(v, y, 6)
  {
    forall y | 0 <= y < Size(v)
      ensures Reserved(v, y, 6)
    {
      ReservedCovered(v, y, 6);
    }
  }

  // One iteration of the strip loop: skips column 6, fills a strip, moves two columns left.
  method PlaceNextStrip(m: array2<int>, reserved: array2<bool>, v: Version, codewords: seq<Byte>, mask: Mask,
                        ghost k: nat, head: int, upward: bool, bitIndex: nat) returns (right: int, next: nat)
    requires Sized(m, reserved, Size(v)) && Reserving(reserved, v)
    requires k < StripCount(v) && head == HeadRight(v, k) && upward == RunsUpward(k)
    requires bitIndex == FilledBefore(v, k)
    modifies m
    ensures right == HeadRight(v, k + 1) && next == FilledBefore(v, k + 1)
    ensures forall y, x :: InMatrix(Size(v), y, x) ==>
      m[y, x] == if right < x <= head && !Reserved(v, y, x)
                 then DataModuleOrZero(v, codewords, mask, y, x) else old(m[y, x])
  {
    hide Reserved, DataModuleOrZero, FilledBefore, HeadRight, Right, StripCount, RunsUpward;
    NextHead(v, k);
    right := head;
    if right == 6 {
      ColumnSix(v);
      right := 5;
    }
    next := PlaceStrip(m, reserved, v, codewords, mask, k, right, upward, bitIndex);
    right := right - 2;
  }

  lemma FirstHead(v: Version)
    ensures HeadRight(v, 0) == Size(v) - 1 && StripCount(v) > 0 && RunsUpward(0) && FilledBefore(v, 0) == 0
  {}

  method PlaceData(m: array2<int>, reserved: array2<bool>, v: Version, codewords: seq<Byte>, mask: Mask)
    requires Sized(m, reserved, Size(v)) && Reserving(reserved, v)
    modifies m
    ensures forall y, x :: InMatrix(Size(v), y, x) ==>
      m[y, x] == if !Reserved(v, y, x) then DataModuleOrZero(v, codewords, mask, y, x) else old(m[y, x])
  {
    hide Reserved, DataModuleOrZero, FilledBefore, HeadRight, Right, StripCount, RunsUpward, Size, Reserving;
    var bitIndex, upward, right := 0, true, Size(v) - 1;
    ghost var k := 0;
    FirstHead(v);
    while right >= 1
      invariant 0 <= k <= StripCount(v) && right == HeadRight(v, k)
      invariant upward == RunsUpward(k) && bitIndex == FilledBefore(v, k)
      invariant forall y, x :: InMatrix(Size(v), y, x) ==>
        m[y, x] == if right < x && !Reserved(v, y, x)
                   then DataModuleOrZero(v, codewords, mask, y, x) else old(m[y, x])
      decreases StripCount(v) - k
    {
      NextHead(v, k);
      right, bitIndex := PlaceNextStrip(m, reserved, v, codewords, mask, k, right, upward, bitIndex);
      upward := !upward;
      k := k + 1;
    }
    NextHead(v, k);
  }

  // ---- Format information ----

  method WriteFormat(m: array2<int>, n: int, mask: Mask)
    requires m.Length0 == n && m.Length1 == n && n >= 21
    modifies m
    ensures forall y, x :: InMatrix(n, y, x) ==>
      m[y, x] == match FormatIndex(n, y, x)
                 case Some(i) => ShiftRight(FormatInfo(mask), i) % 2
                 case None => if y == n - 8 && x == 8 then 1 else old(m[y, x])
  {
    var fmt := ComputeFormat(mask);
    hide FormatInfo;
    for i := 0 to 6
      invariant forall y, x :: InMatrix(n, y, x) ==>
        m[y, x] == if x == 8 && y < i then ShiftRight(fmt, y) % 2 else old(m[y, x])
    {
      m[i, 8] := ShiftRight(fmt, i) % 2;
    }
    m[7, 8] := ShiftRight(fmt, 6) % 2;
    m[8, 8] := ShiftRight(fmt, 7) % 2;
    m[8, 7] := ShiftRight(fmt, 8) % 2;
    for i := 9 to 15
      invariant forall y, x :: InMatrix(n, y, x) ==>
        m[y, x] == if FormatIndex(n, y, x).Some? && y <= 8 && x <= 8 && FormatIndex(n, y, x).value < i
                   then ShiftRight(fmt, FormatIndex(n, y, x).value) % 2 else old(m[y, x])
    {
      m[8, 14 - i] := ShiftRight(fmt, i) % 2;
    }
    for i := 0 to 8
      invariant forall y, x :: InMatrix(n, y, x) ==>
        m[y, x] == if FormatIndex(n, y, x).Some? && y <= 8 && (x <= 8 || x >= n - i)
                   then ShiftRight(fmt, FormatIndex(n, y, x).value) % 2 else old(m[y, x])
    {
      m[8, n - 1 - i] := ShiftRight(fmt, i) % 2;
    }
    for i := 8 to 15
      invariant forall y, x :: InMatrix(n, y, x) ==>
        m[y, x] == if FormatIndex(n, y, x).Some? && (y <= 8 || FormatIndex(n, y, x).value < i)
                   then ShiftRight(fmt, FormatIndex(n, y, x).value) % 2 else old(m[y, x])
    {
      m[n - 15 + i, 8] := ShiftRight(fmt, i) % 2;
    }
    m[n - 8, 8] := 1;
  }

  // ---- The whole matrix ----

  method DrawPatterns(m: array2<int>, reserved: array2<bool>, v: Version)
    requires Sized(m, reserved, Size(v))
    requires forall y, x :: InMatrix(Size(v), y, x) ==> m[y, x] == UNSET && !reserved[y, x]
    modifies m, reserved
    ensures Reserving(reserved, v)
    ensures forall y, x :: InMatrix(Size(v), y, x) ==>
      m[y, x] == match PatternValue(v, y, x) case Some(bit) => bit case None => UNSET
  {
    var n := Size(v);
    hide FinderModule, InAlignment, AlignmentValue, VersionValue, InVersion, TimingValue, InTiming, InFinderAt;
    DrawFinder(m, reserved, n, 0, 0);
    DrawFinder(m, reserved, n, 0, n - 7);
    DrawFinder(m, reserved, n, n - 7, 0);
    DrawTiming(m, reserved, n);
    DrawAlignments(m, reserved, v);
    SetF(m, reserved, n, n - 8, 8, 1);
    KeepFormat(m, reserved, n);
    DrawVersion(m, reserved, v);
  }

  // Every module is written, and holds its closed form: null remains nowhere, and the later
  // data and format writes leave finder, timing, alignment and version modules as they were.
  method BuildMatrix(v: Version, codewords: seq<Byte>, mask: Mask) returns (m: array2<int>)
    ensures fresh(m) && m.Length0 == Size(v) && m.Length1 == Size(v)
    ensures forall y, x :: InMatrix(Size(v), y, x) ==> m[y, x] == FinalModule(v, codewords, mask, y, x)
  {
    var n := Size(v);
    m := new int[n, n]((_, _) => UNSET);
    var reserved := new bool[n, n]((_, _) => false);
    DrawPatterns(m, reserved, v);
    PlaceData(m, reserved, v, codewords, mask);
    WriteFormat(m, n, mask);
    forall y, x | InMatrix(n, y, x)
      ensures m[y, x] == FinalModule(v, codewords, mask, y, x)
    {
      PatternsIntact(v, y, x);
      ReservedCovered(v, y, x);
    }
  }
}
