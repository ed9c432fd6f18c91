// What TextEncoder makes of a JavaScript string: UTF-16 code units to code points, with lone
// surrogates replaced, and code points to UTF-8 as in section 3 of RFC 3629. A decoder gets
// the repaired text back.
module Utf8 {
  import opened Bitstream
  import opened Options

  type Unit = u: int | 0 <= u < 0x10000
  type Scalar = s: int | 0 <= s < 0xd800 || 0xe000 <= s < 0x110000

  const REPLACEMENT: Unit := 0xfffd

  predicate IsHigh(u: Unit) {
    0xd800 <= u < 0xdc00
  }

  predicate IsLow(u: Unit) {
    0xdc00 <= u < 0xe000
  }

  // ---- The encoder ----

  predicate StartsPair(text: seq<Unit>) {
    |text| >= 2 && IsHigh(text[0]) && IsLow(text[1])
  }

  function Scalars(text: seq<Unit>): seq<Scalar> {
    if text == [] then []
    else if StartsPair(text) then [0x10000 + (text[0] - 0xd800) * 0x400 + (text[1] - 0xdc00)] + Scalars(text[2..])
    else [if IsHigh(text[0]) || IsLow(text[0]) then REPLACEMENT else text[0]] + Scalars(text[1..])
  }

  function EncodeScalar(s: Scalar): (bytes: seq<Byte>)
    ensures bytes != []
  {
    if s < 0x80 then [s]
    else if s < 0x800 then [0xc0 + s / 0x40, 0x80 + s % 0x40]
    else if s < 0x10000 then [0xe0 + s / 0x40 / 0x40, 0x80 + s / 0x40 % 0x40, 0x80 + s % 0x40]
    else [0xf0 + s / 0x40 / 0x40 / 0x40, 0x80 + s / 0x40 / 0x40 % 0x40, 0x80 + s / 0x40 % 0x40, 0x80 + s % 0x40]
  }

  function EncodeScalars(scalars: seq<Scalar>): seq<Byte> {
    if scalars == [] then [] else EncodeScalar(scalars[0]) + EncodeScalars(scalars[1..])
  }

  function Encode(text: seq<Unit>): seq<Byte> {
    EncodeScalars(Scalars(text))
  }

  // ---- A decoder ----

  predicate IsContinuation(b: Byte) {
    0x80 <= b < 0xc0
  }

  // How many bytes a code point takes, and the bits of it in its first byte.
  function Lead(b: Byte): Option<(nat, nat)> {
    if b < 0x80 then Some((1, b))
    else if 0xc0 <= b < 0xe0 then Some((2, b - 0xc0))
    else if 0xe0 <= b < 0xf0 then Some((3, b - 0xe0))
    else if 0xf0 <= b < 0xf8 then Some((4, b - 0xf0))
    else None
  }

  // The bits of continuation bytes, six each, after those read so far.
  function Continue(bits: nat, bytes: seq<Byte>): Option<nat>
    decreases |bytes|
  {
    if bytes == [] then Some(bits)
    else if IsContinuation(bytes[0]) then Continue(bits * 0x40 + (bytes[0] - 0x80), bytes[1..])
    else None
  }

  function DecodeScalar(bytes: seq<Byte>): (r: Option<(Scalar, nat)>)
    requires bytes != []
    ensures r.Some? ==> 0 < r.value.1 <= |bytes|
  {
    var lead := Lead(bytes[0]);
    if lead.None? || lead.value.0 > |bytes| then None
    else
      var s := Continue(lead.value.1, bytes[1..lead.value.0]);
      if s.None? || !(s.value < 0xd800 || 0xe000 <= s.value < 0x110000) then None
      else Some((s.value, lead.value.0))
  }

  function DecodeScalars(bytes: seq<Byte>): Option<seq<Scalar>> {
    if bytes == [] then Some([])
    else
      var first := DecodeScalar(bytes);
      if first.None? then None
      else
        var rest := DecodeScalars(bytes[first.value.1..]);
        if rest.None? then None else Some([first.value.0] + rest.value)
  }

  function UnitsOf(s: Scalar): seq<Unit> {
    if s < 0x10000 then [s] else [0xd800 + (s - 0x10000) / 0x400, 0xdc00 + (s - 0x10000) % 0x400]
  }

  function Units(scalars: seq<Scalar>): seq<Unit> {
    if scalars == [] then [] else UnitsOf(scalars[0]) + Units(scalars[1..])
  }

  function Decode(bytes: seq<Byte>): Option<seq<Unit>> {
    var scalars := DecodeScalars(bytes);
    if scalars.None? then None else Some(Units(scalars.value))
  }

  // ---- Bytes and code points ----

  lemma ContinueNone(bits: nat)
    ensures Continue(bits, []) == Some(bits)
  {}

  lemma ContinueTwo(bits: nat, b: Byte, c: Byte)
    requires IsContinuation(b) && IsContinuation(c)
    ensures Continue(bits, [b]) == Some(bits * 0x40 + (b - 0x80))
    ensures Continue(bits, [b, c]) == Some((bits * 0x40 + (b - 0x80)) * 0x40 + (c - 0x80))
  {
    var more := bits * 0x40 + (b - 0x80);
    assert [b][1..] == [] && [c][1..] == [];
    assert [b, c][1..] == [c];
    assert Continue(more, [c]) == Some(more * 0x40 + (c - 0x80));
  }

  lemma ContinueThree(bits: nat, b: Byte, c: Byte, d: Byte)
    requires IsContinuation(b) && IsContinuation(c) && IsContinuation(d)
    ensures Continue(bits, [b, c, d]) == Some(((bits * 0x40 + (b - 0x80)) * 0x40 + (c - 0x80)) * 0x40 + (d - 0x80))
  {
    assert [b, c, d][1..] == [c, d];
    ContinueTwo(bits * 0x40 + (b - 0x80), c, d);
  }

  lemma DecodeOf(e: seq<Byte>, rest: seq<Byte>, n: nat, bits: nat, s: Scalar)
    requires e != [] && Lead(e[0]) == Some((n, bits)) && |e| == n && Continue(bits, e[1..]) == Some(s)
    ensures DecodeScalar(e + rest) == Some((s, n))
  {
    hide Lead, Continue;
    assert (e + rest)[0] == e[0] && (e + rest)[1..n] == e[1..];
  }

  lemma ScalarRoundTrips(s: Scalar, rest: seq<Byte>)
    ensures DecodeScalar(EncodeScalar(s) + rest) == Some((s, |EncodeScalar(s)|))
  {
    var e := EncodeScalar(s);
    var q := s / 0x40;
    hide Continue, DecodeScalar;
    if s < 0x80 {
      ContinueNone(s);
      assert e[1..] == [];
      DecodeOf(e, rest, 1, s, s);
    } else if s < 0x800 {
      assert e[1..] == [0x80 + s % 0x40];
      ContinueTwo(q, 0x80 + s % 0x40, 0x80);
      DecodeOf(e, rest, 2, q, s);
    } else if s < 0x10000 {
      assert e[1..] == [0x80 + q % 0x40, 0x80 + s % 0x40];
      ContinueTwo(q / 0x40, 0x80 + q % 0x40, 0x80 + s % 0x40);
      DecodeOf(e, rest, 3, q / 0x40, s);
    } else {
      var r := q / 0x40;
      assert e[1..] == [0x80 + r % 0x40, 0x80 + q % 0x40, 0x80 + s % 0x40];
      ContinueThree(r / 0x40, 0x80 + r % 0x40, 0x80 + q % 0x40, 0x80 + s % 0x40);
      DecodeOf(e, rest, 4, r / 0x40, s);
    }
  }

  lemma {:induction false} ScalarsRoundTrip(scalars: seq<Scalar>)
    ensures DecodeScalars(EncodeScalars(scalars)) == Some(scalars)
  {
    if scalars != [] {
      hide EncodeScalar, DecodeScalar;
      var first, rest := EncodeScalar(scalars[0]), EncodeScalars(scalars[1..]);
      ScalarRoundTrips(scalars[0], rest);
      ScalarsRoundTrip(scalars[1..]);
      assert (first + rest)[|first|..] == rest && first + rest != [];
      assert scalars == [scalars[0]] + scalars[1..];
    }
  }

  // ---- Code points and units ----

  lemma FirstUnits(s: Scalar, rest: seq<Unit>)
    ensures Scalars(UnitsOf(s) + rest) == [s] + Scalars(rest)
  {
    var text := UnitsOf(s) + rest;
    if s < 0x10000 {
      assert text[0] == s && text[1..] == rest;
    } else {
      assert StartsPair(text) && text[2..] == rest;
      var high: int, low: int := text[0], text[1];
      assert 0x10000 + (high - 0xd800) * 0x400 + (low - 0xdc00) == s;
    }
  }

  lemma {:induction false} ScalarsOfUnits(scalars: seq<Scalar>)
    ensures Scalars(Units(scalars)) == scalars
  {
    if scalars != [] {
      var s, rest := scalars[0], Units(scalars[1..]);
      ScalarsOfUnits(scalars[1..]);
      FirstUnits(s, rest);
      assert scalars == [s] + scalars[1..];
    }
  }

  // A surrogate that is not part of a pair.
  predicate IsLone(text: seq<Unit>, i: nat)
    requires i < |text|
  {
    || (IsHigh(text[i]) && (i + 1 == |text| || !IsLow(text[i + 1])))
    || (IsLow(text[i]) && (i == 0 || !IsHigh(text[i - 1])))
  }

  ghost predicate WellFormed(text: seq<Unit>) {
    forall i :: 0 <= i < |text| ==> !IsLone(text, i)
  }

  // The text with its lone surrogates replaced.
  function Repaired(text: seq<Unit>): (t: seq<Unit>)
    ensures |t| == |text|
  {
    seq(|text|, i requires 0 <= i < |text| => if IsLone(text, i) then REPLACEMENT else text[i])
  }

  lemma RepairedTail(text: seq<Unit>, n: nat)
    requires n <= |text| && (n == 0 || n == |text| || !(IsHigh(text[n - 1]) && IsLow(text[n])))
    ensures Repaired(text)[n..] == Repaired(text[n..])
  {
    var tail := text[n..];
    forall i | 0 <= i < |tail|
      ensures IsLone(tail, i) == IsLone(text, n + i)
    {
      assert tail[i] == text[n + i];
    }
  }

  // How many units the first code point takes, and which one it is.
  lemma FirstScalar(text: seq<Unit>) returns (n: nat, s: Scalar)
    requires text != []
    ensures 0 < n <= |text| && Scalars(text) == [s] + Scalars(text[n..])
    ensures n == |text| || !(IsHigh(text[n - 1]) && IsLow(text[n]))
    ensures UnitsOf(s) == Repaired(text)[..n]
  {
    n := if StartsPair(text) then 2 else 1;
    s := Scalars(text)[0];
  }

  lemma {:induction false} UnitsOfScalars(text: seq<Unit>)
    ensures Units(Scalars(text)) == Repaired(text)
  {
    if text == [] {
      assert Repaired(text) == [];
    } else {
      hide Repaired, UnitsOf, Scalars;
      var n, s := FirstScalar(text);
      UnitsOfScalars(text[n..]);
      RepairedTail(text, n);
      assert Scalars(text)[1..] == Scalars(text[n..]);
      assert Repaired(text) == Repaired(text)[..n] + Repaired(text)[n..];
    }
  }

  // Every text comes back from its encoding, but for its lone surrogates.
  lemma TextRoundTrips(text: seq<Unit>)
    ensures Decode(Encode(text)) == Some(Repaired(text))
    ensures Decode(Encode(text)) == Some(text) <==> WellFormed(text)
  {
    ScalarsRoundTrip(Scalars(text));
    UnitsOfScalars(text);
    hide Scalars, Units, EncodeScalars, DecodeScalars;
    if Repaired(text) == text {
      forall i | 0 <= i < |text|
        ensures !IsLone(text, i)
      {
        assert Repaired(text)[i] == text[i];
      }
    }
  }

  // Two texts have one encoding exactly when they are repaired to one text.
  lemma EncodingsAgreeIff(a: seq<Unit>, b: seq<Unit>)
    ensures Encode(a) == Encode(b) <==> Repaired(a) == Repaired(b)
  {
    TextRoundTrips(a);
    TextRoundTrips(b);
    UnitsOfScalars(a);
    UnitsOfScalars(b);
    ScalarsOfUnits(Scalars(a));
    ScalarsOfUnits(Scalars(b));
    hide Scalars, Units, Repaired, Decode, EncodeScalars;
  }
}
