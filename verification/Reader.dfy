// A reader of finished matrices and the end-to-end round trip through it: format modules,
// unmasking in zigzag order, de-interleaving, mode and length. It knows the layout of ISO/IEC
// 18004 as the drawn matrix does, from Reserved, Slots and MaskBit; what the encoder's loops
// make of the layout it inverts on its own.
module Reader {
  import opened Arithmetic
  import opened Bitstream
  import opened Options
  import opened Assembly
  import opened Pattern
  import opened Zigzag
  import opened Matrix
  import Capacity

  type Grid = seq<seq<Bit>>

  predicate Square(grid: Grid, n: nat) {
    |grid| == n && forall r :: 0 <= r < n ==> |grid[r]| == n
  }

  // ---- Reading ----

  function ReadVersion(grid: Grid): Option<Version> {
    if |grid| % 4 == 1 && 21 <= |grid| <= 77 && Square(grid, |grid|) then Some((|grid| - 17) / 4) else None
  }

  // Where format bit i stands in the copy around the top left finder, and in the copy
  // split between the other two finders.
  function NearPlace(i: int): Cell {
    if i <= 5 then Cell(i, 8)
    else if i <= 7 then Cell(i + 1, 8)
    else if i == 8 then Cell(8, 7)
    else Cell(8, 14 - i)
  }

  function FarPlace(n: int, i: int): Cell {
    if i < 8 then Cell(8, n - 1 - i) else Cell(n - 15 + i, 8)
  }

  // Both copies, most significant bit first.
  function NearCopy(): (cells: seq<Cell>)
    ensures |cells| == 15
  {
    seq(15, k => NearPlace(14 - k))
  }

  function FarCopy(n: int): (cells: seq<Cell>)
    ensures |cells| == 15
  {
    seq(15, k => FarPlace(n, 14 - k))
  }

  ghost predicate Inside(cells: seq<Cell>, n: int) {
    forall j :: 0 <= j < |cells| ==> InMatrix(n, cells[j].r, cells[j].c)
  }

  function ReadCells(grid: Grid, cells: seq<Cell>): (bits: seq<Bit>)
    requires Square(grid, |grid|) && Inside(cells, |grid|)
    ensures |bits| == |cells|
  {
    seq(|cells|, j requires 0 <= j < |cells| =>
      var cell := cells[j];
      assert InMatrix(|grid|, cell.r, cell.c);
      grid[cell.r][cell.c])
  }

  function FindMask(word: nat, from: nat): (r: Option<Mask>)
    ensures r.Some? ==> FormatInfo(r.value) == word
    decreases 8 - from
  {
    if from >= 8 then None else if FormatInfo(from) == word then Some(from) else FindMask(word, from + 1)
  }

  // The data bits in zigzag order, with the mask taken off.
  function ReadBits(grid: Grid, mask: Mask, cells: seq<Cell>): (bits: seq<Bit>)
    requires Square(grid, |grid|) && Inside(cells, |grid|)
    ensures |bits| == |cells|
  {
    var masked := ReadCells(grid, cells);
    seq(|cells|, j requires 0 <= j < |cells| =>
      assert InMatrix(|grid|, cells[j].r, cells[j].c);
      Xor(masked[j], MaskBit(mask, cells[j].r, cells[j].c)))
  }

  lemma SlotsInside(v: Version)
    ensures Inside(Slots(v), Size(v))
  {
    ZigzagIsBijection(v);
    hide Reserved, SlotIndex, Slots;
  }

  // The cells that hold codewords, in order; the remainder bits after them are not read.
  function CodewordCells(v: Version): (cells: seq<Cell>)
    ensures |cells| == 8 * TotalCodewords(v) <= |Slots(v)|
    ensures Inside(cells, Size(v))
  {
    Capacity.RoomForAllCodewords(v);
    SlotsInside(v);
    Slots(v)[..8 * TotalCodewords(v)]
  }

  lemma CopiesInside(n: int)
    requires n >= 21
    ensures Inside(NearCopy(), n) && Inside(FarCopy(n), n)
  {}

  function DecodeVersion(grid: Grid, v: Version): Option<seq<Byte>>
    requires Square(grid, Size(v))
  {
    CopiesInside(Size(v));
    match FindMask(FromBits(ReadCells(grid, NearCopy())), 0)
    case None => None
    case Some(mask) =>
      Read(Pack(ReadBits(grid, mask, CodewordCells(v)), TotalCodewords(v)), v)
  }

  function Decode(grid: Grid): Option<seq<Byte>> {
    match ReadVersion(grid)
    case None => None
    case Some(v) => DecodeVersion(grid, v)
  }

  // ---- What the encoder draws ----

  function Drawn(v: Version, codewords: seq<Byte>, mask: Mask): (grid: Grid)
    ensures Square(grid, Size(v))
  {
    var n := Size(v);
    seq(n, r requires 0 <= r < n => seq(n, c requires 0 <= c < n => FinalModule(v, codewords, mask, r, c)))
  }

  lemma DrawnAt(v: Version, codewords: seq<Byte>, mask: Mask, r: nat, c: nat)
    requires InMatrix(Size(v), r, c)
    ensures Drawn(v, codewords, mask)[r][c] == FinalModule(v, codewords, mask, r, c)
  {
    hide FinalModule;
  }

  lemma Fifteen()
    ensures Pow2(15) == 0x8000
  {
    assert Pow2(5) == 32;
    assert Pow2(10) == 1024;
  }

  // Cells that hold the 15 format bits in order read as the word of the mask.
  lemma CopyIsFormat(v: Version, codewords: seq<Byte>, mask: Mask, cells: seq<Cell>)
    requires Inside(cells, Size(v)) && |cells| == 15
    requires forall k :: 0 <= k < 15 ==> FormatIndex(Size(v), cells[k].r, cells[k].c) == Some(14 - k)
    ensures FromBits(ReadCells(Drawn(v, codewords, mask), cells)) == FormatInfo(mask)
  {
    hide FormatIndex, Drawn, FormatInfo, FromBits, ToBits, PatternValue, DataModule;
    var grid, word := Drawn(v, codewords, mask), FormatInfo(mask);
    var bits := ReadCells(grid, cells);
    forall k | 0 <= k < 15
      ensures bits[k] == ToBits(word, 15)[k]
    {
      assert InMatrix(|grid|, cells[k].r, cells[k].c);
      DrawnAt(v, codewords, mask, cells[k].r, cells[k].c);
      ToBitsAt(word, 15, k);
    }
    assert bits == ToBits(word, 15);
    Fifteen();
    FromToBits(word, 15);
  }

  // Both copies of the format word are the word of the mask.
  lemma FormatCopies(v: Version, codewords: seq<Byte>, mask: Mask)
    ensures var n, grid := Size(v), Drawn(v, codewords, mask);
      && Inside(NearCopy(), n) && FromBits(ReadCells(grid, NearCopy())) == FormatInfo(mask)
      && Inside(FarCopy(n), n) && FromBits(ReadCells(grid, FarCopy(n))) == FormatInfo(mask)
  {
    var n := Size(v);
    CopiesInside(n);
    hide Drawn, FormatInfo, FromBits, ReadCells;
    CopyIsFormat(v, codewords, mask, NearCopy());
    CopyIsFormat(v, codewords, mask, FarCopy(n));
  }

  // No two masks share a format word.
  lemma MaskFound(mask: Mask, from: nat)
    requires from <= mask
    ensures FindMask(FormatInfo(mask), from) == Some(mask)
    decreases 8 - from
  {
    if from < mask {
      MaskFound(mask, from + 1);
    }
  }

  lemma DataAt(v: Version, codewords: seq<Byte>, mask: Mask, r: nat, c: nat)
    requires InMatrix(Size(v), r, c) && !Reserved(v, r, c) && c != 6
    ensures FinalModule(v, codewords, mask, r, c)
         == Xor(DataBit(codewords, SlotIndex(v, r, c)), MaskBit(mask, r, c))
  {
    ReservedCovered(v, r, c);
    hide Reserved, SlotIndex, FormatIndex, PatternValue, MaskBit, DataBit;
  }

  lemma BitAt(codewords: seq<Byte>, i: nat)
    requires i < 8 * |codewords|
    ensures DataBit(codewords, i) == Unpack(codewords)[i]
  {
    UnpackAt(codewords, i);
  }

  // Unmasking in zigzag order gives back the codewords' bits.
  lemma BitsAreCodewords(v: Version, codewords: seq<Byte>, mask: Mask)
    requires |codewords| == TotalCodewords(v)
    ensures ReadBits(Drawn(v, codewords, mask), mask, CodewordCells(v)) == Unpack(codewords)
  {
    ZigzagIsBijection(v);
    hide Reserved, SlotIndex, Slots, TotalCodewords, Drawn, FinalModule, Unpack, MaskBit, DataBit;
    var grid, cells := Drawn(v, codewords, mask), CodewordCells(v);
    var bits := ReadBits(grid, mask, cells);
    forall j | 0 <= j < |cells|
      ensures bits[j] == Unpack(codewords)[j]
    {
      var cell := cells[j];
      assert cell == Slots(v)[j];
      assert InMatrix(Size(v), cell.r, cell.c) && SlotIndex(v, cell.r, cell.c) == j;
      DrawnAt(v, codewords, mask, cell.r, cell.c);
      DataAt(v, codewords, mask, cell.r, cell.c);
      BitAt(codewords, j);
    }
  }

  lemma VersionFound(v: Version, grid: Grid)
    requires Square(grid, Size(v))
    ensures ReadVersion(grid) == Some(v)
  {}

  // A drawn matrix reads as the codewords drawn into it, under every mask.
  lemma DecodeDrawn(v: Version, codewords: seq<Byte>, mask: Mask)
    requires |codewords| == TotalCodewords(v)
    ensures Decode(Drawn(v, codewords, mask)) == Read(codewords, v)
  {
    var grid := Drawn(v, codewords, mask);
    VersionFound(v, grid);
    hide Drawn, Size, Read, TotalCodewords, Unpack, Pack, ReadBits, ReadCells, FromBits, CodewordCells,
      FormatInfo, FindMask, NearCopy, FarCopy, Inside, Square, ReadVersion;
    FormatCopies(v, codewords, mask);
    MaskFound(mask, 0);
    BitsAreCodewords(v, codewords, mask);
    PackUnpack(codewords);
  }

  // The round trip: whatever the bytes, the version that fits them and the mask, the drawn
  // matrix reads back as the bytes.
  lemma RoundTrip(bytes: seq<Byte>, v: Version, mask: Mask)
    requires Fits(v, |bytes|)
    ensures Decode(Drawn(v, Codewords(bytes, v), mask)) == Some(bytes)
  {
    hide Fits, Codewords, Read, TotalCodewords, Decode, Drawn;
    ReadCodewords(bytes, v);
    DecodeDrawn(v, Codewords(bytes, v), mask);
  }
}
