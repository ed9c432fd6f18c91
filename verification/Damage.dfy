// How much of a symbol of auth/flow-ui/qr.js may be damaged, module by module, before it could
// be taken for the symbol of another payload.
module Damage {
  import opened Bitstream
  import opened Hamming
  import opened Assembly
  import opened Pattern
  import opened Zigzag
  import opened Reader

  // ---- The format words ----

  // Three bits of a format word, and all fifteen.
  datatype Three = Three(p: bool, q: bool, r: bool)
  datatype Word = Word(a: Three, b: Three, c: Three, d: Three, e: Three)

  const T0 := Three(false, false, false)
  const T1 := Three(false, false, true)
  const T2 := Three(false, true, false)
  const T3 := Three(false, true, true)
  const T4 := Three(true, false, false)
  const T5 := Three(true, false, true)
  const T6 := Three(true, true, false)
  const T7 := Three(true, true, true)

  function Value(t: Three): nat {
    (if t.p then 4 else 0) + (if t.q then 2 else 0) + if t.r then 1 else 0
  }

  function Bits3(t: Three): seq<Bit> {
    [if t.p then 1 else 0, if t.q then 1 else 0, if t.r then 1 else 0]
  }

  function Spell(w: Word): (bits: seq<Bit>)
    ensures |bits| == 15
  {
    Bits3(w.a) + Bits3(w.b) + Bits3(w.c) + Bits3(w.d) + Bits3(w.e)
  }

  // The format words, in octal.
  function FormatOf(mask: Mask): Word {
    match mask
    case 0 => Word(T5, T2, T0, T2, T2)
    case 1 => Word(T5, T0, T4, T4, T5)
    case 2 => Word(T5, T7, T1, T7, T4)
    case 3 => Word(T5, T5, T5, T1, T3)
    case 4 => Word(T4, T2, T7, T7, T1)
    case 5 => Word(T4, T0, T3, T1, T6)
    case 6 => Word(T4, T7, T6, T2, T7)
    case _ => Word(T4, T5, T2, T4, T0)
  }

  function FormatBits(mask: Mask): (bits: seq<Bit>)
    ensures |bits| == 15
  {
    ToBits(FormatInfo(mask), 15)
  }

  lemma OneMoreBit(bits: seq<Bit>, b: Bit)
    ensures FromBits(bits + [b]) == 2 * FromBits(bits) + b
  {
    assert (bits + [b])[..|bits|] == bits;
  }

  lemma BitsInTurn(bits: seq<Bit>, t: Three, p: Bit, q: Bit, r: Bit)
    requires Bits3(t) == [p, q, r]
    ensures bits + Bits3(t) == bits + [p] + [q] + [r]
  {}

  lemma ThreeMoreBits(bits: seq<Bit>, t: Three)
    ensures FromBits(bits + Bits3(t)) == 8 * FromBits(bits) + Value(t)
  {
    var p: Bit, q: Bit, r: Bit := if t.p then 1 else 0, if t.q then 1 else 0, if t.r then 1 else 0;
    BitsInTurn(bits, t, p, q, r);
    hide FromBits, Bits3;
    OneMoreBit(bits, p);
    OneMoreBit(bits + [p], q);
    OneMoreBit(bits + [p] + [q], r);
  }

  lemma SpellValue(w: Word)
    ensures FromBits(Spell(w))
         == 4096 * Value(w.a) + 512 * Value(w.b) + 64 * Value(w.c) + 8 * Value(w.d) + Value(w.e)
  {
    assert FromBits([]) == 0;
    hide FromBits, Value, Bits3;
    assert [] + Bits3(w.a) == Bits3(w.a);
    ThreeMoreBits([], w.a);
    ThreeMoreBits(Bits3(w.a), w.b);
    ThreeMoreBits(Bits3(w.a) + Bits3(w.b), w.c);
    ThreeMoreBits(Bits3(w.a) + Bits3(w.b) + Bits3(w.c), w.d);
    ThreeMoreBits(Bits3(w.a) + Bits3(w.b) + Bits3(w.c) + Bits3(w.d), w.e);
  }

  lemma FormatIsSpelt(mask: Mask)
    ensures FormatBits(mask) == Spell(FormatOf(mask))
  {
    SpellValue(FormatOf(mask));
    ToFromBits(Spell(FormatOf(mask)));
    hide Spell, FromBits, ToBits;
  }

  function Apart3(s: Three, t: Three): nat {
    (if s.p == t.p then 0 else 1) + (if s.q == t.q then 0 else 1) + if s.r == t.r then 0 else 1
  }

  lemma ThreeApart(u: seq<Bit>, v: seq<Bit>, s: Three, t: Three)
    requires |u| == |v|
    ensures Distance(u + Bits3(s), v + Bits3(t)) == Distance(u, v) + Apart3(s, t)
  {
    hide Distance;
    var x, y := Bits3(s), Bits3(t);
    DistanceMore(u, v, x[0], y[0]);
    DistanceMore(u + [x[0]], v + [y[0]], x[1], y[1]);
    DistanceMore(u + [x[0]] + [x[1]], v + [y[0]] + [y[1]], x[2], y[2]);
    assert u + x == u + [x[0]] + [x[1]] + [x[2]] && v + y == v + [y[0]] + [y[1]] + [y[2]];
  }

  function ApartAll(x: Word, y: Word): nat {
    Apart3(x.a, y.a) + Apart3(x.b, y.b) + Apart3(x.c, y.c) + Apart3(x.d, y.d) + Apart3(x.e, y.e)
  }

  lemma BitsAreThree()
    ensures forall t: Three :: |Bits3(t)| == 3
  {}

  lemma SpellApart(x: Word, y: Word)
    ensures Distance(Spell(x), Spell(y))
         == ApartAll(x, y)
  {
    assert Distance<Bit>([], []) == 0;
    BitsAreThree();
    hide Distance, Apart3, Bits3;
    assert [] + Bits3(x.a) == Bits3(x.a) && [] + Bits3(y.a) == Bits3(y.a);
    ThreeApart([], [], x.a, y.a);
    ThreeApart(Bits3(x.a), Bits3(y.a), x.b, y.b);
    ThreeApart(Bits3(x.a) + Bits3(x.b), Bits3(y.a) + Bits3(y.b), x.c, y.c);
    ThreeApart(Bits3(x.a) + Bits3(x.b) + Bits3(x.c), Bits3(y.a) + Bits3(y.b) + Bits3(y.c), x.d, y.d);
    ThreeApart(Bits3(x.a) + Bits3(x.b) + Bits3(x.c) + Bits3(x.d), Bits3(y.a) + Bits3(y.b) + Bits3(y.c) + Bits3(y.d),
               x.e, y.e);
  }

  lemma WordsApart(a: Mask, b: Mask)
    requires a != b
    ensures ApartAll(FormatOf(a), FormatOf(b)) >= 7
  {
    match a {
      case 0 =>
      case 1 =>
      case 2 =>
      case 3 =>
      case 4 =>
      case 5 =>
      case 6 =>
      case _ =>
    }
  }

  // Two different format words differ in at least seven of their fifteen bits.
  lemma FormatWordsAreApart(a: Mask, b: Mask)
    requires a != b
    ensures Distance(FormatBits(a), FormatBits(b)) >= 7
  {
    hide *;
    FormatIsSpelt(a);
    FormatIsSpelt(b);
    SpellApart(FormatOf(a), FormatOf(b));
    WordsApart(a, b);
  }

  // ---- Damaged modules ----

  // One of the eight modules of codeword t differs from the one drawn.
  ghost predicate Touched(grid: Grid, drawn: Grid, cells: seq<Cell>, t: nat)
    requires Square(grid, |grid|) && Square(drawn, |grid|) && Inside(cells, |grid|) && 8 * t + 8 <= |cells|
  {
    ReadCells(grid, cells)[8 * t..8 * t + 8] != ReadCells(drawn, cells)[8 * t..8 * t + 8]
  }

  // What a reader takes for the codewords, under some mask.
  function StreamOf(grid: Grid, v: Version, mask: Mask): (stream: seq<Byte>)
    requires Square(grid, Size(v))
    ensures |stream| == TotalCodewords(v)
  {
    Pack(ReadBits(grid, mask, CodewordCells(v)), TotalCodewords(v))
  }

  lemma SameCellsSameBits(grid: Grid, drawn: Grid, mask: Mask, cells: seq<Cell>, t: nat)
    requires Square(grid, |grid|) && Square(drawn, |grid|) && Inside(cells, |grid|) && 8 * t + 8 <= |cells|
    requires !Touched(grid, drawn, cells, t)
    ensures ReadBits(grid, mask, cells)[8 * t..8 * t + 8] == ReadBits(drawn, mask, cells)[8 * t..8 * t + 8]
  {
    var a, b := ReadCells(grid, cells), ReadCells(drawn, cells);
    forall i | 8 * t <= i < 8 * t + 8
      ensures ReadBits(grid, mask, cells)[i] == ReadBits(drawn, mask, cells)[i]
    {
      assert a[8 * t..8 * t + 8][i - 8 * t] == b[8 * t..8 * t + 8][i - 8 * t];
    }
    hide ReadBits;
  }

  // A codeword whose modules are all as drawn is read as drawn.
  lemma UntouchedReads(grid: Grid, v: Version, codewords: seq<Byte>, mask: Mask, t: nat)
    requires Square(grid, Size(v)) && |codewords| == TotalCodewords(v) && t < TotalCodewords(v)
    requires !Touched(grid, Drawn(v, codewords, mask), CodewordCells(v), t)
    ensures StreamOf(grid, v, mask)[t] == codewords[t]
  {
    hide TotalCodewords, CodewordCells, Drawn, ReadBits, Unpack, Pack, FromBits, ReadCells, Touched, Size;
    var n, cells, drawn := TotalCodewords(v), CodewordCells(v), Drawn(v, codewords, mask);
    SameCellsSameBits(grid, drawn, mask, cells, t);
    BitsAreCodewords(v, codewords, mask);
    PackAt(ReadBits(grid, mask, cells), n, t);
    PackAt(Unpack(codewords), n, t);
    PackUnpack(codewords);
  }

  // Where codeword k of block j, error correction included, stands in the stream.
  function StreamPlace(v: Version, j: nat, k: nat): (t: nat)
    requires j < |Sizes(v)| && k < Sizes(v)[j] + EcM(v).ec
    ensures t < TotalCodewords(v)
  {
    ReadInBounds(v);
    if k < Sizes(v)[j] then Place(Sizes(v), k, j)
    else TotalDataCodewords(v) + Place(EcSizes(v), k - Sizes(v)[j], j)
  }

  lemma FieldAt(bytes: seq<Byte>, k: int)
    ensures 0 <= k < |bytes| ==> AsField(bytes)[k] == bytes[k] as bv8
  {}

  lemma DeinterleaveAt(stream: seq<Byte>, sizes: seq<nat>, j: nat, i: nat)
    requires Within(sizes, |stream|) && j < |sizes| && i < sizes[j]
    ensures Place(sizes, i, j) < |stream| && Deinterleave(stream, sizes)[j][i] == stream[Place(sizes, i, j)]
  {
    hide Place;
  }

  lemma ReceivedParts(stream: seq<Byte>, v: Version, j: nat) returns (rest: seq<Byte>, data: seq<Byte>, ec: seq<Byte>)
    requires |stream| == TotalCodewords(v) && j < |Sizes(v)|
    ensures TotalDataCodewords(v) <= |stream| && rest == stream[TotalDataCodewords(v)..]
    ensures Within(Sizes(v), |stream|) && data == Deinterleave(stream, Sizes(v))[j]
    ensures j < |EcSizes(v)| && EcSizes(v)[j] == EcM(v).ec
    ensures Within(EcSizes(v), |rest|) && ec == Deinterleave(rest, EcSizes(v))[j]
    ensures ReceivedWord(stream, v, j) == AsField(data) + AsField(ec)
  {
    rest := stream[TotalDataCodewords(v)..];
    hide EcM, TotalDataCodewords, TotalCodewords, Within, AsField, Deinterleave, Sizes;
    ReadInBounds(v);
    data, ec := Deinterleave(stream, Sizes(v))[j], Deinterleave(rest, EcSizes(v))[j];
  }

  lemma ReceivedAt(stream: seq<Byte>, v: Version, j: nat, k: nat)
    requires |stream| == TotalCodewords(v) && j < |Sizes(v)| && k < Sizes(v)[j] + EcM(v).ec
    ensures ReceivedWord(stream, v, j)[k] == stream[StreamPlace(v, j, k)] as bv8
  {
    hide EcM, TotalDataCodewords, TotalCodewords, Within, AsField, Deinterleave, Sizes, EcSizes, Place, ReceivedWord;
    var rest, data, ec := ReceivedParts(stream, v, j);
    var n := Sizes(v)[j];
    if k < n {
      DeinterleaveAt(stream, Sizes(v), j, k);
      FieldAt(data, k);
    } else {
      DeinterleaveAt(rest, EcSizes(v), j, k - n);
      FieldAt(ec, k - n);
    }
  }

  // The codewords of block j that the damage touches.
  ghost function TouchedIn(grid: Grid, v: Version, codewords: seq<Byte>, mask: Mask, j: nat): set<nat>
    requires Square(grid, Size(v)) && |codewords| == TotalCodewords(v) && j < |Sizes(v)|
  {
    set k: nat | k < Sizes(v)[j] + EcM(v).ec &&
      Touched(grid, Drawn(v, codewords, mask), CodewordCells(v), StreamPlace(v, j, k))
  }

  // One of the two format copies.
  function FormatCells(v: Version, far: bool): (cells: seq<Cell>)
    ensures |cells| == 15 && Inside(cells, Size(v))
  {
    CopiesInside(Size(v));
    if far then FarCopy(Size(v)) else NearCopy()
  }

  // A symbol of a payload with few damaged modules: at most three in one format copy, and
  // elsewhere in at most half as many codewords of each block as it has for error correction.
  ghost predicate LightlyDamagedSymbol(grid: Grid, bytes: seq<Byte>, v: Version, mask: Mask, far: bool)
    requires Fits(v, |bytes|)
  {
    && Square(grid, Size(v))
    && (ReadCodewords(bytes, v);
        var codewords, format := Codewords(bytes, v), FormatCells(v, far);
        && Distance(ReadCells(grid, format), ReadCells(Drawn(v, codewords, mask), format)) <= 3
        && forall j: nat :: j < |Sizes(v)| ==> 2 * |TouchedIn(grid, v, codewords, mask, j)| <= EcM(v).ec)
  }

  lemma FormatAsDrawn(v: Version, codewords: seq<Byte>, mask: Mask, far: bool)
    ensures ReadCells(Drawn(v, codewords, mask), FormatCells(v, far)) == FormatBits(mask)
  {
    hide Drawn, FormatInfo, FromBits, ReadCells, ToBits;
    FormatCopies(v, codewords, mask);
    ToFromBits(ReadCells(Drawn(v, codewords, mask), FormatCells(v, far)));
  }

  // Three damaged modules leave the mask certain.
  lemma FormatIdentifiesMask(format: seq<Bit>, a: Mask, b: Mask)
    requires |format| == 15 && Distance(format, FormatBits(a)) <= 3 && Distance(format, FormatBits(b)) <= 3
    ensures a == b
  {
    hide FormatBits, Distance;
    if a != b {
      FormatWordsAreApart(a, b);
      Triangle(FormatBits(a), FormatBits(b), format);
      assert false;
    }
  }

  // Damage to modules is damage to codewords.
  lemma FewModulesFewCodewords(grid: Grid, bytes: seq<Byte>, v: Version, mask: Mask, j: nat)
    requires Square(grid, Size(v)) && Fits(v, |bytes|) && |Codewords(bytes, v)| == TotalCodewords(v) && j < |Sizes(v)|
    ensures Distance(ReceivedWord(StreamOf(grid, v, mask), v, j), BlockWord(bytes, v, j))
         <= |TouchedIn(grid, v, Codewords(bytes, v), mask, j)|
  {
    hide EcM, Sizes, TotalCodewords, Codewords, StreamOf, ReceivedWord, BlockWord, Touched, Drawn, CodewordCells,
      StreamPlace, Distance, Fits, Size;
    var codewords, stream := Codewords(bytes, v), StreamOf(grid, v, mask);
    var received, sent := ReceivedWord(stream, v, j), BlockWord(bytes, v, j);
    var touched := TouchedIn(grid, v, codewords, mask, j);
    ReceivedIsSent(bytes, v, j);
    forall k | 0 <= k < |received| && received[k] != sent[k]
      ensures k in touched
    {
      ReceivedAt(stream, v, j, k);
      ReceivedAt(codewords, v, j, k);
      if k !in touched {
        UntouchedReads(grid, v, codewords, mask, StreamPlace(v, j, k));
      }
    }
    DistanceWithin(received, sent, touched);
  }

  lemma LightlyDamagedStream(grid: Grid, bytes: seq<Byte>, v: Version, mask: Mask, far: bool)
    requires Fits(v, |bytes|) && LightlyDamagedSymbol(grid, bytes, v, mask, far)
    ensures LightlyDamaged(StreamOf(grid, v, mask), bytes, v)
    ensures Distance(ReadCells(grid, FormatCells(v, far)), FormatBits(mask)) <= 3
  {
    hide EcM, Sizes, TotalCodewords, Codewords, StreamOf, ReceivedWord, BlockWord, TouchedIn, Distance, Fits, Size,
      FormatCells, ReadCells, Drawn, FormatBits;
    ReadCodewords(bytes, v);
    FormatAsDrawn(v, Codewords(bytes, v), mask, far);
    forall j: nat | j < |Sizes(v)|
      ensures 2 * Distance(ReceivedWord(StreamOf(grid, v, mask), v, j), BlockWord(bytes, v, j)) <= EcM(v).ec
    {
      FewModulesFewCodewords(grid, bytes, v, mask, j);
    }
  }

  lemma SameSizeSameVersion(u: Version, v: Version)
    requires Size(u) == Size(v)
    ensures u == v
  {}

  lemma SquaresAgree(grid: Grid, m: nat, n: nat)
    requires Square(grid, m) && Square(grid, n)
    ensures m == n
  {}

  // A lightly damaged symbol still determines version, mask and payload: no symbol of another
  // payload, or under another mask, is that close to it.
  lemma DamagedSymbolIdentifiesPayload(grid: Grid, sent: seq<Byte>, u: Version, a: Mask,
                                       other: seq<Byte>, v: Version, b: Mask, far: bool)
    requires Fits(u, |sent|) && Fits(v, |other|)
    requires LightlyDamagedSymbol(grid, sent, u, a, far) && LightlyDamagedSymbol(grid, other, v, b, far)
    ensures u == v && a == b && sent == other
  {
    SquaresAgree(grid, Size(u), Size(v));
    SameSizeSameVersion(u, v);
    hide Fits, LightlyDamaged, StreamOf, Distance, FormatBits, FormatCells, ReadCells;
    LightlyDamagedStream(grid, sent, u, a, far);
    LightlyDamagedStream(grid, other, v, b, far);
    hide LightlyDamagedSymbol;
    FormatIdentifiesMask(ReadCells(grid, FormatCells(u, far)), a, b);
    DamageIdentifiesPayload(StreamOf(grid, u, a), sent, other, u);
  }
}
