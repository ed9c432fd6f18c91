// Codeword assembly of auth/flow-ui/qr.js: choosing the version, packing and padding the
// payload, splitting it into blocks, error correction, interleaving, and the reader that
// takes it all apart again.
module Assembly {
  import opened Arithmetic
  import opened Bitstream
  import opened Hamming
  import opened Options
  import RS = ReedSolomon
  import Galois

  // One row of the level-M table.
  datatype Layout = Layout(ec: nat, blocks1: nat, data1: nat, blocks2: nat, data2: nat)

  type Version = v: int | 1 <= v <= 15 witness 1

  function EcM(v: Version): (l: Layout)
    ensures l.ec > 0 && l.blocks1 > 0
  {
    match v
    case 1 => Layout(10, 1, 16, 0, 0)
    case 2 => Layout(16, 1, 28, 0, 0)
    case 3 => Layout(26, 1, 44, 0, 0)
    case 4 => Layout(18, 2, 32, 0, 0)
    case 5 => Layout(24, 2, 43, 0, 0)
    case 6 => Layout(16, 4, 27, 0, 0)
    case 7 => Layout(18, 4, 31, 0, 0)
    case 8 => Layout(22, 2, 38, 2, 39)
    case 9 => Layout(22, 3, 36, 2, 37)
    case 10 => Layout(26, 4, 43, 1, 44)
    case 11 => Layout(30, 1, 50, 4, 51)
    case 12 => Layout(22, 6, 36, 2, 37)
    case 13 => Layout(22, 8, 37, 1, 38)
    case 14 => Layout(24, 4, 40, 5, 41)
    case _ => Layout(24, 5, 41, 5, 42)
  }

  function TotalDataCodewords(v: Version): nat {
    var l := EcM(v);
    l.blocks1 * l.data1 + l.blocks2 * l.data2
  }

  function CountBits(v: Version): nat {
    if v < 10 then 8 else 16
  }

  predicate Fits(v: Version, byteLen: nat) {
    4 + CountBits(v) + byteLen * 8 <= TotalDataCodewords(v) * 8
  }

  // The smallest version that fits, or nothing.
  ghost predicate IsChosen(r: Option<Version>, byteLen: nat) {
    match r
    case Some(v) => Fits(v, byteLen) && forall u: Version :: u < v ==> !Fits(u, byteLen)
    case None => forall u: Version :: !Fits(u, byteLen)
  }

  method ChooseVersion(byteLen: nat) returns (r: Option<Version>)
    ensures IsChosen(r, byteLen)
    ensures r.Some? <==> byteLen <= 412
  {
    var v := 1;
    while v <= 15
      invariant 1 <= v <= 16
      invariant forall u: Version :: u < v ==> !Fits(u, byteLen)
    {
      if Fits(v, byteLen) {
        return Some(v);
      }
      v := v + 1;
    }
    assert !Fits(15, byteLen);
    return None;
  }

  // ---- The payload ----

  function Zeros(n: nat): seq<Bit> {
    seq(n, _ => 0)
  }

  // Mode, character count and the bytes.
  function Content(bytes: seq<Byte>, v: Version): seq<Bit> {
    ToBits(4, 4) + ToBits(|bytes|, CountBits(v)) + Unpack(bytes)
  }

  // The terminator: up to four zero bits, as far as the capacity allows.
  function Terminate(bits: seq<Bit>, capacity: nat): (terminated: seq<Bit>)
    requires |bits| <= capacity
    ensures bits <= terminated && |terminated| <= capacity
  {
    bits + ToBits(0, Min(4, capacity - |bits|))
  }

  function BytesFor(bits: seq<Bit>): nat {
    (|bits| + 7) / 8
  }

  // Zeros up to a byte boundary.
  function PadToByte(bits: seq<Bit>): (padded: seq<Bit>)
    ensures bits <= padded && |padded| == 8 * BytesFor(bits)
  {
    bits + Zeros(8 * BytesFor(bits) - |bits|)
  }

  function Fill(n: nat): seq<Byte> {
    seq(n, i => if i % 2 == 0 then 0xec else 0x11)
  }

  // The data codewords: packed content, then 0xec and 0x11 in turn up to n bytes.
  function FillTo(data: seq<Byte>, n: nat): (filled: seq<Byte>)
    requires |data| <= n
    ensures data <= filled && |filled| == n
  {
    data + Fill(n - |data|)
  }

  // n data codewords for content bits that fit in them.
  function Assemble(content: seq<Bit>, n: nat): (data: seq<Byte>)
    requires |content| <= 8 * n
    ensures |data| == n
  {
    var padded := PadToByte(Terminate(content, 8 * n));
    FillTo(Pack(padded, BytesFor(Terminate(content, 8 * n))), n)
  }

  function DataCodewords(bytes: seq<Byte>, v: Version): (data: seq<Byte>)
    requires Fits(v, |bytes|)
    ensures |data| == TotalDataCodewords(v)
  {
    Assemble(Content(bytes, v), TotalDataCodewords(v))
  }

  // The reader's side: mode, count, and that many bytes.
  function Parse(data: seq<Byte>, v: Version): Option<seq<Byte>> {
    var bits, start := Unpack(data), 4 + CountBits(v);
    if |bits| < start || FromBits(bits[..4]) != 4 then None
    else
      var count := FromBits(bits[4..start]);
      if |bits| < start + 8 * count then None
      else Some(Pack(bits[start..start + 8 * count], count))
  }

  lemma UnpackAssemble(content: seq<Bit>, n: nat)
    requires |content| <= 8 * n
    ensures content <= Unpack(Assemble(content, n))
  {
    hide Pack, Unpack, ToBits;
    var terminated := Terminate(content, 8 * n);
    var m := BytesFor(terminated);
    var padded := PadToByte(terminated);
    UnpackPack(padded, m);
    UnpackConcat(Pack(padded, m), Fill(n - m));
  }

  // The character count never overflows its 8 or 16 bits.
  lemma CountFits(v: Version, byteLen: nat)
    requires Fits(v, byteLen)
    ensures byteLen < Pow2(CountBits(v))
  {
    assert Pow2(4) == 16;
    assert Pow2(8) == 256;
    assert Pow2(12) == 4096;
    assert Pow2(16) == 65536;
  }

  lemma FourBits()
    ensures FromBits(ToBits(4, 4)) == 4
  {
    assert Pow2(2) == 4;
    FromToBits(4, 4);
  }

  lemma ThreeSlices(bits: seq<Bit>, a: seq<Bit>, b: seq<Bit>, c: seq<Bit>)
    requires a + b + c <= bits
    ensures |a| + |b| + |c| <= |bits| && bits[..|a|] == a && bits[|a|..|a| + |b|] == b
    ensures bits[|a| + |b|..|a| + |b| + |c|] == c
  {
    var abc := a + b + c;
    assert bits[..|abc|] == abc;
    assert bits[..|a|] == abc[..|a|];
    assert bits[|a|..|a| + |b|] == abc[|a|..|a| + |b|];
    assert bits[|a| + |b|..|abc|] == abc[|a| + |b|..];
  }

  // A reader that sees the content first recovers the bytes, whatever follows.
  lemma ParseContent(data: seq<Byte>, bytes: seq<Byte>, v: Version)
    requires Content(bytes, v) <= Unpack(data) && |bytes| < Pow2(CountBits(v))
    ensures Parse(data, v) == Some(bytes)
  {
    var bits, cb := Unpack(data), CountBits(v);
    var mode, count := ToBits(4, 4), ToBits(|bytes|, cb);
    FourBits();
    FromToBits(|bytes|, cb);
    PackUnpack(bytes);
    hide ToBits, FromBits, Unpack, Pack, Pow2, CountBits;
    ThreeSlices(bits, mode, count, Unpack(bytes));
  }

  lemma ParseDataCodewords(bytes: seq<Byte>, v: Version)
    requires Fits(v, |bytes|)
    ensures Parse(DataCodewords(bytes, v), v) == Some(bytes)
  {
    hide EcM, Unpack, Pack, Parse, TotalDataCodewords, ToBits;
    CountFits(v, |bytes|);
    UnpackAssemble(Content(bytes, v), TotalDataCodewords(v));
    ParseContent(DataCodewords(bytes, v), bytes, v);
  }

  // ---- Blocks ----

  // The block sizes of a version, in order.
  function Sizes(v: Version): seq<nat> {
    var l := EcM(v);
    seq(l.blocks1 + l.blocks2, i => if i < l.blocks1 then l.data1 else l.data2)
  }

  function Total(sizes: seq<nat>): nat {
    if sizes == [] then 0 else Total(sizes[..|sizes| - 1]) + sizes[|sizes| - 1]
  }

  // The first |sizes| consecutive slices of data.
  function Split(data: seq<Byte>, sizes: seq<nat>): (blocks: seq<seq<Byte>>)
    requires Total(sizes) <= |data|
    ensures |blocks| == |sizes|
    ensures forall j :: 0 <= j < |sizes| ==> |blocks[j]| == sizes[j]
  {
    if sizes == [] then []
    else
      var n := |sizes| - 1;
      Split(data, sizes[..n]) + [data[Total(sizes[..n])..Total(sizes)]]
  }

  function Flatten(blocks: seq<seq<Byte>>): seq<Byte> {
    if blocks == [] then [] else Flatten(blocks[..|blocks| - 1]) + blocks[|blocks| - 1]
  }

  lemma {:induction false} FlattenSplit(data: seq<Byte>, sizes: seq<nat>)
    requires Total(sizes) <= |data|
    ensures Flatten(Split(data, sizes)) == data[..Total(sizes)]
  {
    if sizes != [] {
      var n := |sizes| - 1;
      FlattenSplit(data, sizes[..n]);
      assert Split(data, sizes)[..n] == Split(data, sizes[..n]);
    }
  }

  // ---- Interleaving ----

  // Codeword i of each of the first j blocks that has one.
  function Row(blocks: seq<seq<Byte>>, i: nat, j: nat): seq<Byte>
    requires j <= |blocks|
  {
    if j == 0 then []
    else Row(blocks, i, j - 1) + if i < |blocks[j - 1]| then [blocks[j - 1][i]] else []
  }

  function Rows(blocks: seq<seq<Byte>>, n: nat): seq<Byte> {
    if n == 0 then [] else Rows(blocks, n - 1) + Row(blocks, n - 1, |blocks|)
  }

  // How many of the first j blocks reach row i, and how many codewords precede row i.
  function RowWidth(sizes: seq<nat>, i: nat, j: nat): nat
    requires j <= |sizes|
  {
    if j == 0 then 0 else RowWidth(sizes, i, j - 1) + if i < sizes[j - 1] then 1 else 0
  }

  function RowStart(sizes: seq<nat>, n: nat): nat {
    if n == 0 then 0 else RowStart(sizes, n - 1) + RowWidth(sizes, n - 1, |sizes|)
  }

  ghost predicate HasSizes(blocks: seq<seq<Byte>>, sizes: seq<nat>) {
    |blocks| == |sizes| && forall j :: 0 <= j < |sizes| ==> |blocks[j]| == sizes[j]
  }

  // Where the reader finds codeword i of block j.
  function Place(sizes: seq<nat>, i: nat, j: nat): nat
    requires j <= |sizes|
  {
    RowStart(sizes, i) + RowWidth(sizes, i, j)
  }

  ghost predicate Within(sizes: seq<nat>, length: nat) {
    forall i, j :: 0 <= j < |sizes| && 0 <= i < sizes[j] ==> Place(sizes, i, j) < length
  }

  // The reader: the blocks of a stream, given their sizes.
  function Deinterleave(stream: seq<Byte>, sizes: seq<nat>): (blocks: seq<seq<Byte>>)
    requires Within(sizes, |stream|)
    ensures HasSizes(blocks, sizes)
  {
    seq(|sizes|, j requires 0 <= j < |sizes| =>
      seq(sizes[j], i requires 0 <= i < sizes[j] => stream[Place(sizes, i, j)]))
  }

  lemma {:induction false} RowAt(blocks: seq<seq<Byte>>, sizes: seq<nat>, i: nat, j: nat, n: nat)
    requires HasSizes(blocks, sizes) && n <= |sizes|
    ensures |Row(blocks, i, n)| == RowWidth(sizes, i, n)
    ensures j < n && i < sizes[j] ==>
      RowWidth(sizes, i, j) < RowWidth(sizes, i, n) && Row(blocks, i, n)[RowWidth(sizes, i, j)] == blocks[j][i]
  {
    if n > 0 {
      RowAt(blocks, sizes, i, j, n - 1);
    }
  }

  lemma {:induction false} RowsAt(blocks: seq<seq<Byte>>, sizes: seq<nat>, i: nat, j: nat, n: nat)
    requires HasSizes(blocks, sizes) && j < |sizes|
    ensures |Rows(blocks, n)| == RowStart(sizes, n)
    ensures i < n && i < sizes[j] ==>
      Place(sizes, i, j) < RowStart(sizes, n) && Rows(blocks, n)[Place(sizes, i, j)] == blocks[j][i]
  {
    hide Row, RowWidth;
    if n > 0 {
      RowsAt(blocks, sizes, i, j, n - 1);
      RowAt(blocks, sizes, n - 1, j, |sizes|);
    }
  }

  // Interleaving any blocks of known sizes is undone by the reader, whatever follows.
  lemma DeinterleaveRows(blocks: seq<seq<Byte>>, sizes: seq<nat>, n: nat, rest: seq<Byte>)
    requires HasSizes(blocks, sizes)
    requires forall j :: 0 <= j < |sizes| ==> sizes[j] <= n
    ensures Within(sizes, |Rows(blocks, n)|)
    ensures Deinterleave(Rows(blocks, n) + rest, sizes) == blocks
  {
    hide Rows, RowStart, Place;
    forall i, j | 0 <= j < |sizes| && 0 <= i < sizes[j]
      ensures Place(sizes, i, j) < |Rows(blocks, n)| && Rows(blocks, n)[Place(sizes, i, j)] == blocks[j][i]
    {
      RowsAt(blocks, sizes, i, j, n);
    }
    var read := Deinterleave(Rows(blocks, n) + rest, sizes);
    forall j | 0 <= j < |sizes|
      ensures read[j] == blocks[j]
    {
      forall i | 0 <= i < sizes[j]
        ensures read[j][i] == blocks[j][i]
      {}
    }
  }

  // Counting by rows and counting by blocks give the same total.
  lemma {:induction false} WidthOfMore(sizes: seq<nat>, i: nat, j: nat)
    requires j < |sizes|
    ensures RowWidth(sizes[..|sizes| - 1], i, j) == RowWidth(sizes, i, j)
  {
    if j > 0 {
      WidthOfMore(sizes, i, j - 1);
    }
  }

  lemma {:induction false} StartOfMore(sizes: seq<nat>, n: nat)
    requires sizes != []
    ensures RowStart(sizes, n) == RowStart(sizes[..|sizes| - 1], n) + Min(n, sizes[|sizes| - 1])
  {
    if n > 0 {
      StartOfMore(sizes, n - 1);
      WidthOfMore(sizes, n - 1, |sizes| - 1);
    }
  }

  lemma {:induction false} StartOfNone(n: nat)
    ensures RowStart([], n) == 0
  {
    if n > 0 {
      StartOfNone(n - 1);
    }
  }

  lemma {:induction false} RowsTotal(sizes: seq<nat>, n: nat)
    requires forall j :: 0 <= j < |sizes| ==> sizes[j] <= n
    ensures RowStart(sizes, n) == Total(sizes)
  {
    if sizes == [] {
      StartOfNone(n);
    } else {
      StartOfMore(sizes, n);
      RowsTotal(sizes[..|sizes| - 1], n);
    }
  }

  // ---- Error correction per block, and the whole codeword sequence ----

  function AsField(bytes: seq<Byte>): (field: seq<bv8>)
    ensures |field| == |bytes|
  {
    seq(|bytes|, k requires 0 <= k < |bytes| => bytes[k] as bv8)
  }

  function AsBytes(field: seq<bv8>): seq<Byte> {
    seq(|field|, k requires 0 <= k < |field| => field[k] as int)
  }

  lemma AsFieldAsBytes(field: seq<bv8>)
    ensures AsField(AsBytes(field)) == field
  {
    forall k | 0 <= k < |field|
      ensures AsField(AsBytes(field))[k] == field[k]
    {
      Galois.IntOfByte(field[k]);
    }
  }

  ghost function EcBlock(block: seq<Byte>, ec: nat): (r: seq<Byte>)
    requires ec > 0
    ensures |r| == ec
  {
    AsBytes(RS.Remainder(AsField(block), ec))
  }

  ghost function EcBlocks(blocks: seq<seq<Byte>>, ec: nat): (r: seq<seq<Byte>>)
    requires ec > 0
    ensures |r| == |blocks|
    ensures forall j :: 0 <= j < |blocks| ==> |r[j]| == ec
  {
    seq(|blocks|, j requires 0 <= j < |blocks| => EcBlock(blocks[j], ec))
  }

  function MaxData(v: Version): nat {
    var l := EcM(v);
    if l.data1 >= l.data2 then l.data1 else l.data2
  }

  function EcSizes(v: Version): seq<nat> {
    seq(|Sizes(v)|, _ => EcM(v).ec)
  }

  lemma {:induction false} TotalOfGroups(l: Layout, n: nat)
    ensures Total(seq(n, i => if i < l.blocks1 then l.data1 else l.data2))
         == if n <= l.blocks1 then n * l.data1 else l.blocks1 * l.data1 + (n - l.blocks1) * l.data2
  {
    if n > 0 {
      var sizes := seq(n, i => if i < l.blocks1 then l.data1 else l.data2);
      assert sizes[..n - 1] == seq(n - 1, i => if i < l.blocks1 then l.data1 else l.data2);
      TotalOfGroups(l, n - 1);
      assert n * l.data1 == (n - 1) * l.data1 + l.data1;
      if n > l.blocks1 {
        assert (n - l.blocks1) * l.data2 == (n - l.blocks1 - 1) * l.data2 + l.data2;
      }
    }
  }

  lemma SizesTotal(v: Version)
    ensures |Sizes(v)| > 0
    ensures Total(Sizes(v)) == TotalDataCodewords(v)
    ensures forall j :: 0 <= j < |Sizes(v)| ==> Sizes(v)[j] <= MaxData(v)
    ensures Total(EcSizes(v)) == |Sizes(v)| * EcM(v).ec
  {
    var l := EcM(v);
    TotalOfGroups(l, l.blocks1 + l.blocks2);
    assert (l.blocks1 + l.blocks2 - l.blocks1) * l.data2 == l.blocks2 * l.data2;
    var n := |Sizes(v)|;
    TotalOfGroups(Layout(0, n, l.ec, 0, 0), n);
    assert EcSizes(v) == seq(n, i => if i < n then l.ec else 0);
  }

  ghost function DataBlocks(bytes: seq<Byte>, v: Version): (blocks: seq<seq<Byte>>)
    requires Fits(v, |bytes|)
    ensures HasSizes(blocks, Sizes(v))
  {
    SizesTotal(v);
    Split(DataCodewords(bytes, v), Sizes(v))
  }

  // What buildCodewords returns.
  ghost function Codewords(bytes: seq<Byte>, v: Version): seq<Byte>
    requires Fits(v, |bytes|)
  {
    var blocks := DataBlocks(bytes, v);
    Rows(blocks, MaxData(v)) + Rows(EcBlocks(blocks, EcM(v).ec), EcM(v).ec)
  }

  function TotalCodewords(v: Version): nat {
    TotalDataCodewords(v) + |Sizes(v)| * EcM(v).ec
  }

  // A stream of exactly the version's data and error-correction codewords, whose two
  // halves the reader takes apart into these blocks.
  ghost predicate ReadsAs(stream: seq<Byte>, v: Version, blocks: seq<seq<Byte>>, ecBlocks: seq<seq<Byte>>) {
    && |stream| == TotalCodewords(v)
    && TotalDataCodewords(v) <= |stream|
    && Within(Sizes(v), |stream|)
    && Deinterleave(stream, Sizes(v)) == blocks
    && var rest := stream[TotalDataCodewords(v)..];
       Within(EcSizes(v), |rest|) && Deinterleave(rest, EcSizes(v)) == ecBlocks
  }

  lemma WithinMore(sizes: seq<nat>, length: nat, more: nat)
    requires length <= more
    ensures Within(sizes, length) ==> Within(sizes, more)
  {}

  // Two interleaved lists of blocks, one after the other, are both read back.
  lemma SplitRows(blocks: seq<seq<Byte>>, sizes: seq<nat>, n: nat,
                  ecBlocks: seq<seq<Byte>>, ecSizes: seq<nat>, ec: nat)
    requires HasSizes(blocks, sizes) && |sizes| > 0
    requires forall j :: 0 <= j < |sizes| ==> sizes[j] <= n
    requires HasSizes(ecBlocks, ecSizes) && |ecSizes| > 0
    requires forall j :: 0 <= j < |ecSizes| ==> ecSizes[j] <= ec
    ensures var stream := Rows(blocks, n) + Rows(ecBlocks, ec);
            && |stream| == Total(sizes) + Total(ecSizes)
            && Within(sizes, |stream|) && Deinterleave(stream, sizes) == blocks
            && Within(ecSizes, Total(ecSizes)) && Deinterleave(stream[Total(sizes)..], ecSizes) == ecBlocks
  {
    hide Rows, RowStart, RowWidth, Within, Deinterleave, Total;
    var rows, ecRows := Rows(blocks, n), Rows(ecBlocks, ec);
    DeinterleaveRows(blocks, sizes, n, ecRows);
    RowsAt(blocks, sizes, 0, 0, n);
    RowsTotal(sizes, n);
    DeinterleaveRows(ecBlocks, ecSizes, ec, []);
    RowsAt(ecBlocks, ecSizes, 0, 0, ec);
    RowsTotal(ecSizes, ec);
    WithinMore(sizes, |rows|, |rows + ecRows|);
    assert (rows + ecRows)[|rows|..] == ecRows == ecRows + [];
  }

  lemma CodewordsSplit(bytes: seq<Byte>, v: Version)
    requires Fits(v, |bytes|)
    ensures ReadsAs(Codewords(bytes, v), v, DataBlocks(bytes, v), EcBlocks(DataBlocks(bytes, v), EcM(v).ec))
  {
    hide EcM, Rows, RowStart, RowWidth, Within, Deinterleave, DataBlocks, EcBlock, EcBlocks,
      Sizes, Total, TotalDataCodewords, MaxData;
    var blocks, ec := DataBlocks(bytes, v), EcM(v).ec;
    SizesTotal(v);
    SplitRows(blocks, Sizes(v), MaxData(v), EcBlocks(blocks, ec), EcSizes(v), ec);
  }

  lemma ShortestFits(v: Version)
    ensures Fits(v, 0)
  {}

  lemma ReadInBounds(v: Version)
    ensures Within(Sizes(v), TotalCodewords(v))
    ensures Within(EcSizes(v), TotalCodewords(v) - TotalDataCodewords(v))
  {
    hide EcM, Sizes, EcSizes, Codewords, DataBlocks, EcBlocks, Deinterleave, Within, Fits;
    ShortestFits(v);
    CodewordsSplit([], v);
  }

  // The reader of a codeword sequence: de-interleave, drop the error correction, parse.
  function Read(codewords: seq<Byte>, v: Version): Option<seq<Byte>>
    requires |codewords| == TotalCodewords(v)
  {
    ReadInBounds(v);
    Parse(Flatten(Deinterleave(codewords, Sizes(v))), v)
  }

  lemma ReadCodewords(bytes: seq<Byte>, v: Version)
    requires Fits(v, |bytes|)
    ensures |Codewords(bytes, v)| == TotalCodewords(v)
    ensures Read(Codewords(bytes, v), v) == Some(bytes)
  {
    hide EcM, Codewords, Parse, DataCodewords, Sizes, TotalDataCodewords, TotalCodewords, Within, Deinterleave;
    CodewordsSplit(bytes, v);
    SizesTotal(v);
    FlattenSplit(DataCodewords(bytes, v), Sizes(v));
    var data := DataCodewords(bytes, v);
    assert data[..Total(Sizes(v))] == data;
    ParseDataCodewords(bytes, v);
  }

  // Every block of the sequence, with its own error correction, is a word of the code.
  lemma BlocksAreCodewords(bytes: seq<Byte>, v: Version, j: nat)
    requires Fits(v, |bytes|) && j < |Sizes(v)|
    ensures var block := DataBlocks(bytes, v)[j];
            var ecBlock := EcBlocks(DataBlocks(bytes, v), EcM(v).ec)[j];
            RS.Vanishes(AsField(block) + AsField(ecBlock), EcM(v).ec)
  {
    hide Galois.Power, RS.Remainder, RS.Eval, DataBlocks;
    var block, ec := DataBlocks(bytes, v)[j], EcM(v).ec;
    AsFieldAsBytes(RS.Remainder(AsField(block), ec));
    RS.CodewordVanishes(AsField(block), ec);
  }

  // ---- Damaged codewords ----

  // Block j of a payload, and block j as a reader takes it from a stream, with error correction.
  ghost function BlockWord(bytes: seq<Byte>, v: Version, j: nat): (word: RS.Poly)
    requires Fits(v, |bytes|) && j < |Sizes(v)|
    ensures |word| == Sizes(v)[j] + EcM(v).ec
  {
    RS.Codeword(AsField(DataBlocks(bytes, v)[j]), EcM(v).ec)
  }

  ghost function ReceivedWord(stream: seq<Byte>, v: Version, j: nat): (word: RS.Poly)
    requires |stream| == TotalCodewords(v) && j < |Sizes(v)|
    ensures |word| == Sizes(v)[j] + EcM(v).ec
  {
    ReadInBounds(v);
    var rest := stream[TotalDataCodewords(v)..];
    AsField(Deinterleave(stream, Sizes(v))[j]) + AsField(Deinterleave(rest, EcSizes(v))[j])
  }

  // At most half of the error-correction codewords' number of damaged codewords, in each block.
  ghost predicate LightlyDamaged(stream: seq<Byte>, bytes: seq<Byte>, v: Version)
    requires |stream| == TotalCodewords(v) && Fits(v, |bytes|)
  {
    forall j :: 0 <= j < |Sizes(v)| ==>
      2 * Distance(ReceivedWord(stream, v, j), BlockWord(bytes, v, j)) <= EcM(v).ec
  }

  // Undamaged, a stream's blocks are the payload's.
  lemma ReceivedIsSent(bytes: seq<Byte>, v: Version, j: nat)
    requires Fits(v, |bytes|) && j < |Sizes(v)|
    ensures |Codewords(bytes, v)| == TotalCodewords(v)
    ensures ReceivedWord(Codewords(bytes, v), v, j) == BlockWord(bytes, v, j)
  {
    hide EcM, Sizes, EcSizes, Codewords, DataBlocks, Deinterleave, Within, TotalDataCodewords, RS.Remainder;
    CodewordsSplit(bytes, v);
    AsFieldAsBytes(RS.Remainder(AsField(DataBlocks(bytes, v)[j]), EcM(v).ec));
  }

  lemma AsFieldIsInjective(a: seq<Byte>, b: seq<Byte>)
    requires AsField(a) == AsField(b)
    ensures a == b
  {
    assert |a| == |AsField(a)| == |b|;
    forall k | 0 <= k < |a|
      ensures a[k] == b[k]
    {
      assert AsField(a)[k] == AsField(b)[k];
      Galois.ByteOfInt(a[k]);
      Galois.ByteOfInt(b[k]);
    }
  }

  lemma SameBlocksSamePayload(a: seq<Byte>, b: seq<Byte>, v: Version)
    requires Fits(v, |a|) && Fits(v, |b|) && DataBlocks(a, v) == DataBlocks(b, v)
    ensures a == b
  {
    hide EcM, Sizes, Parse, DataCodewords, Flatten, Split, Total, TotalDataCodewords;
    SizesTotal(v);
    ParseDataCodewords(a, v);
    ParseDataCodewords(b, v);
    FlattenSplit(DataCodewords(a, v), Sizes(v));
    FlattenSplit(DataCodewords(b, v), Sizes(v));
    assert DataCodewords(a, v)[..Total(Sizes(v))] == DataCodewords(a, v);
    assert DataCodewords(b, v)[..Total(Sizes(v))] == DataCodewords(b, v);
  }

  lemma {:induction false} FirstDifference<T>(s: seq<T>, t: seq<T>) returns (j: nat)
    requires |s| == |t| && s != t
    ensures j < |s| && s[j] != t[j]
  {
    if s[0] != t[0] {
      return 0;
    }
    assert s == [s[0]] + s[1..] && t == [t[0]] + t[1..];
    j := FirstDifference(s[1..], t[1..]);
    j := j + 1;
  }

  lemma BlocksAreShort(v: Version)
    ensures forall j :: 0 <= j < |Sizes(v)| ==> Sizes(v)[j] + EcM(v).ec <= 255
  {}

  // A lightly damaged stream still determines the payload: no other payload of the version
  // is that close to it in every block.
  lemma DamageIdentifiesPayload(stream: seq<Byte>, sent: seq<Byte>, other: seq<Byte>, v: Version)
    requires |stream| == TotalCodewords(v) && Fits(v, |sent|) && Fits(v, |other|)
    requires LightlyDamaged(stream, sent, v) && LightlyDamaged(stream, other, v)
    ensures sent == other
  {
    hide EcM, Sizes, EcSizes, DataBlocks, Deinterleave, Within, RS.Remainder, Distance, TotalDataCodewords,
      TotalCodewords, AsField, Fits;
    if sent != other {
      if DataBlocks(sent, v) == DataBlocks(other, v) {
        SameBlocksSamePayload(sent, other, v);
      }
      var j := FirstDifference(DataBlocks(sent, v), DataBlocks(other, v));
      var x, y, ec := DataBlocks(sent, v)[j], DataBlocks(other, v)[j], EcM(v).ec;
      BlocksAreShort(v);
      if AsField(x) == AsField(y) {
        AsFieldIsInjective(x, y);
      }
      RS.DamageIsCorrectable(AsField(x), AsField(y), ReceivedWord(stream, v, j), ec);
      RS.DamageIsCorrectable(AsField(y), AsField(x), ReceivedWord(stream, v, j), ec);
      assert false;
    }
  }

  // ---- The loops of buildCodewords ----

  lemma UnpackOne(b: Byte)
    ensures Unpack([b]) == ToBits(b, 8)
  {
    assert Unpack([]) == [];
  }

  method WriteContent(bytes: seq<Byte>, v: Version) returns (bs: Bits)
    ensures fresh(bs) && bs.bits == Content(bytes, v)
  {
    hide Unpack, ToBits;
    bs := new Bits();
    bs.Push(4, 4);
    bs.Push(|bytes|, CountBits(v));
    ghost var header := bs.bits;
    assert Unpack(bytes[..0]) == [];
    for i := 0 to |bytes|
      invariant bs.bits == header + Unpack(bytes[..i])
    {
      UnpackConcat(bytes[..i], [bytes[i]]);
      UnpackOne(bytes[i]);
      assert bytes[..i + 1] == bytes[..i] + [bytes[i]];
      bs.Push(bytes[i], 8);
    }
    assert bytes[..|bytes|] == bytes;
  }

  method ReadByte(bits: seq<Bit>) returns (byte: Byte)
    requires |bits| == 8
    ensures byte == FromBits(bits)
  {
    var value: nat := 0;
    for j := 0 to 8
      invariant value == FromBits(bits[..j])
    {
      assert bits[..j + 1][..j] == bits[..j];
      value := 2 * value + bits[j];
    }
    assert bits[..8] == bits;
    FromBitsBound(bits);
    byte := value;
  }

  lemma PackOne(bits: seq<Bit>)
    requires |bits| == 8
    ensures FromBits(bits) < 256 && Pack(bits, 1) == [FromBits(bits)]
  {
    FromBitsBound(bits);
    assert bits[..8] == bits;
  }

  method PackBits(bits: seq<Bit>, ghost n: nat) returns (data: seq<Byte>)
    requires |bits| == 8 * n
    ensures data == Pack(bits, n)
  {
    data := [];
    var i := 0;
    ghost var k := 0;
    assert bits[..0] == [];
    while i < |bits|
      invariant i == 8 * k && k <= n
      invariant data == Pack(bits[..i], k)
    {
      var byte := ReadByte(bits[i..i + 8]);
      PackOne(bits[i..i + 8]);
      PackConcat(bits[..i], k, bits[i..i + 8], 1);
      assert bits[..i + 8] == bits[..i] + bits[i..i + 8];
      data := data + [byte];
      i := i + 8;
      k := k + 1;
    }
    assert bits[..|bits|] == bits;
  }

  lemma ZerosMore(bits: seq<Bit>, n: nat)
    ensures bits + Zeros(0) == bits && bits + Zeros(n) + [0] == bits + Zeros(n + 1)
  {}

  // Zero bits up to a byte boundary.
  method PadBits(bs: Bits)
    modifies bs
    ensures bs.bits == PadToByte(old(bs.bits))
  {
    ghost var was, n := bs.bits, 0;
    ZerosMore(was, 0);
    while |bs.bits| % 8 != 0
      invariant bs.bits == was + Zeros(n) && |was| + n <= 8 * BytesFor(was)
      decreases 8 * BytesFor(was) - |bs.bits|
    {
      ZerosMore(was, n);
      bs.bits := bs.bits + [0];
      n := n + 1;
    }
  }

  lemma FillMore(data: seq<Byte>, n: nat)
    ensures data + Fill(0) == data
    ensures data + Fill(n) + [if n % 2 == 0 then 0xec else 0x11] == data + Fill(n + 1)
  {}

  // 0xec and 0x11 in turn, up to n bytes.
  method FillBytes(packed: seq<Byte>, n: nat) returns (data: seq<Byte>)
    requires |packed| <= n
    ensures data == FillTo(packed, n)
  {
    data := packed;
    var i := 0;
    FillMore(packed, 0);
    while |data| < n
      invariant |data| == |packed| + i <= n
      invariant data == packed + Fill(i)
    {
      FillMore(packed, i);
      data := data + [if i % 2 == 0 then 0xec else 0x11];
      i := i + 1;
    }
  }

  method BuildData(bytes: seq<Byte>, v: Version) returns (data: seq<Byte>)
    requires Fits(v, |bytes|)
    ensures data == DataCodewords(bytes, v)
  {
    var capacity := TotalDataCodewords(v) * 8;
    hide EcM, Pack, Unpack, FromBits, ToBits, TotalDataCodewords, PadToByte, FillTo;
    var bs := WriteContent(bytes, v);
    bs.Push(0, Min(4, capacity - |bs.bits|));
    ghost var terminated := bs.bits;
    PadBits(bs);
    data := PackBits(bs.bits, BytesFor(terminated));
    data := FillBytes(data, capacity / 8);
  }

  lemma EcAtMost512(v: Version)
    ensures EcM(v).ec <= 512
  {}

  lemma NoBlocks(data: seq<Byte>)
    ensures Total([]) == 0 && Split(data, []) == []
  {}

  lemma NextTotal(done: seq<nat>, size: nat, next: seq<nat>)
    requires next == done + [size]
    ensures Total(next) == Total(done) + size
  {
    assert next[..|next| - 1] == done;
  }

  lemma {:induction false} TotalOfPrefix(prefix: seq<nat>, sizes: seq<nat>)
    requires prefix <= sizes
    ensures Total(prefix) <= Total(sizes)
  {
    if |prefix| < |sizes| {
      assert prefix <= sizes[..|sizes| - 1];
      TotalOfPrefix(prefix, sizes[..|sizes| - 1]);
    } else {
      assert prefix == sizes;
    }
  }

  lemma NextFits(sizes: seq<nat>, done: seq<nat>, size: nat, next: seq<nat>)
    requires next == done + [size] && next <= sizes
    ensures Total(done) + size == Total(next) <= Total(sizes)
  {
    hide Total;
    NextTotal(done, size, next);
    TotalOfPrefix(next, sizes);
  }

  lemma NextBlock(data: seq<Byte>, done: seq<nat>, size: nat, next: seq<nat>)
    requires next == done + [size] && Total(next) == Total(done) + size <= |data|
    ensures Split(data, next) == Split(data, done) + [data[Total(done)..Total(done) + size]]
  {
    hide Total;
    assert next[..|next| - 1] == done;
  }

  method SplitBlocks(tables: Galois.Tables, data: seq<Byte>, v: Version)
    returns (blocks: seq<seq<Byte>>, ecBlocks: seq<seq<Byte>>)
    requires tables.Valid() && |data| == TotalDataCodewords(v)
    ensures Total(Sizes(v)) == |data|
    ensures blocks == Split(data, Sizes(v))
    ensures ecBlocks == EcBlocks(blocks, EcM(v).ec)
  {
    var l := EcM(v);
    ghost var sizes := Sizes(v);
    SizesTotal(v);
    EcAtMost512(v);
    hide EcM, RS.Remainder, TotalDataCodewords, MaxData, EcSizes, Total, Split, AsField, AsBytes;
    NoBlocks(data);
    blocks, ecBlocks := [], [];
    var pos := 0;
    ghost var done: seq<nat> := [];
    for i := 0 to l.blocks1 + l.blocks2
      invariant |done| == i && done <= sizes
      invariant pos == Total(done) <= |data|
      invariant blocks == Split(data, done)
      invariant ecBlocks == EcBlocks(blocks, l.ec)
    {
      var size := if i < l.blocks1 then l.data1 else l.data2;
      ghost var next := done + [size];
      assert next <= sizes;
      NextFits(sizes, done, size, next);
      NextBlock(data, done, size, next);
      done := next;
      var block := data[pos..pos + size];
      pos := pos + size;
      blocks := blocks + [block];
      var ec := RS.RsRemainder(tables, AsField(block), l.ec);
      ecBlocks := ecBlocks + [AsBytes(ec)];
      assert ecBlocks == EcBlocks(blocks, l.ec);
    }
    assert done == sizes;
  }

  method Interleave(blocks: seq<seq<Byte>>, n: nat) returns (out: seq<Byte>)
    ensures out == Rows(blocks, n)
  {
    out := [];
    for i := 0 to n
      invariant out == Rows(blocks, i)
    {
      for j := 0 to |blocks|
        invariant out == Rows(blocks, i) + Row(blocks, i, j)
      {
        if i < |blocks[j]| {
          out := out + [blocks[j][i]];
        }
      }
    }
  }

  method BuildCodewords(tables: Galois.Tables, bytes: seq<Byte>, v: Version) returns (out: seq<Byte>)
    requires tables.Valid() && Fits(v, |bytes|)
    ensures out == Codewords(bytes, v)
    ensures |out| == TotalCodewords(v) && Read(out, v) == Some(bytes)
  {
    hide Read, Fits;
    var data := BuildData(bytes, v);
    var blocks, ecBlocks := SplitBlocks(tables, data, v);
    out := Interleave(blocks, MaxData(v));
    var ecOut := Interleave(ecBlocks, EcM(v).ec);
    out := out + ecOut;
    ReadCodewords(bytes, v);
  }
}
