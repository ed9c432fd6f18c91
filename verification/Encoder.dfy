// qrMatrix of auth/flow-ui/qr.js: from a text to the matrix under the best mask, and what a
// reader gets back from it.
module Encoder {
  import opened Bitstream
  import opened Options
  import opened Assembly
  import opened Pattern
  import opened Matrix
  import opened Reader
  import opened Penalty
  import Galois
  import Utf8

  // The first mask of least penalty.
  ghost predicate IsBestMask(v: Version, codewords: seq<Byte>, best: Mask, tried: nat) {
    && best < tried
    && forall mask: Mask :: mask < tried ==>
      var s, t := Score(Drawn(v, codewords, best)), Score(Drawn(v, codewords, mask));
      s <= t && (mask < best ==> s < t)
  }

  // The symbol for some bytes: smallest version, the standard's codewords, best mask.
  ghost predicate IsSymbol(bytes: seq<Byte>, grid: Grid) {
    exists v: Version, mask: Mask ::
      && IsChosen(Some(v), |bytes|)
      && grid == Drawn(v, Codewords(bytes, v), mask)
      && IsBestMask(v, Codewords(bytes, v), mask, 8)
  }

  lemma SymbolDecodes(bytes: seq<Byte>, grid: Grid)
    requires IsSymbol(bytes, grid)
    ensures Decode(grid) == Some(bytes)
  {
    hide Drawn, Decode, Fits, Codewords, IsBestMask;
    var v: Version, mask: Mask :|
      IsChosen(Some(v), |bytes|) && grid == Drawn(v, Codewords(bytes, v), mask);
    RoundTrip(bytes, v, mask);
  }

  // Two payloads never share a symbol.
  lemma SymbolsAreDistinct(a: seq<Byte>, b: seq<Byte>, grid: Grid)
    requires IsSymbol(a, grid) && IsSymbol(b, grid)
    ensures a == b
  {
    hide Decode, IsSymbol;
    SymbolDecodes(a, grid);
    SymbolDecodes(b, grid);
  }

  // What a reader of the matrix makes of its bytes.
  function DecodeText(grid: Grid): Option<seq<Utf8.Unit>> {
    var bytes := Decode(grid);
    if bytes.None? then None else Utf8.Decode(bytes.value)
  }

  // A symbol of a text decodes to the text, but for its lone surrogates.
  lemma TextDecodes(text: seq<Utf8.Unit>, grid: Grid)
    requires IsSymbol(Utf8.Encode(text), grid)
    ensures DecodeText(grid) == Some(Utf8.Repaired(text))
    ensures DecodeText(grid) == Some(text) <==> Utf8.WellFormed(text)
  {
    hide Decode, IsSymbol, Utf8.Encode, Utf8.Decode, Utf8.WellFormed;
    SymbolDecodes(Utf8.Encode(text), grid);
    Utf8.TextRoundTrips(text);
  }

  // A symbol of one text is a symbol of another exactly when they differ at most in lone
  // surrogates.
  lemma TextsShareSymbolIff(a: seq<Utf8.Unit>, b: seq<Utf8.Unit>, grid: Grid)
    requires IsSymbol(Utf8.Encode(a), grid)
    ensures IsSymbol(Utf8.Encode(b), grid) <==> Utf8.Repaired(a) == Utf8.Repaired(b)
  {
    hide IsSymbol, Utf8.Encode, Utf8.Repaired;
    Utf8.EncodingsAgreeIff(a, b);
    if IsSymbol(Utf8.Encode(b), grid) {
      SymbolsAreDistinct(Utf8.Encode(a), Utf8.Encode(b), grid);
    }
  }

  method DrawMask(v: Version, codewords: seq<Byte>, mask: Mask, round: real -> real)
    returns (m: array2<int>, score: nat)
    requires IsRounding(round)
    ensures fresh(m) && HasLines(m, false, Drawn(v, codewords, mask))
    ensures score == Score(Drawn(v, codewords, mask))
  {
    hide FinalModule, Score, IsRounding;
    m := BuildMatrix(v, codewords, mask);
    score := ScoreMatrix(m, round, Drawn(v, codewords, mask));
  }

  method BestMatrix(v: Version, codewords: seq<Byte>, round: real -> real)
    returns (matrix: array2<int>, ghost chosen: Mask)
    requires IsRounding(round)
    ensures fresh(matrix) && HasLines(matrix, false, Drawn(v, codewords, chosen))
    ensures IsBestMask(v, codewords, chosen, 8)
  {
    hide Drawn, Score, HasLines, IsRounding;
    chosen := 0;
    var best: array2?<int>, bestScore: Option<nat> := null, None; // no score yet: Infinity in the source
    for mask := 0 to 8
      invariant bestScore.None? <==> mask == 0
      invariant mask > 0 ==> best != null && fresh(best) && HasLines(best, false, Drawn(v, codewords, chosen))
      invariant mask > 0 ==> bestScore.value == Score(Drawn(v, codewords, chosen))
      invariant mask > 0 ==> IsBestMask(v, codewords, chosen, mask)
    {
      var m, s := DrawMask(v, codewords, mask, round);
      if bestScore.None? || s < bestScore.value {
        bestScore, best, chosen := Some(s), m, mask;
      }
    }
    matrix := best;
  }

  // Fails exactly when the text is too long; otherwise draws its symbol, which decodes to it.
  method QrMatrix(tables: Galois.Tables, round: real -> real, text: seq<Utf8.Unit>)
    returns (r: Option<array2<int>>, ghost grid: Grid)
    requires tables.Valid() && IsRounding(round)
    ensures r.Some? <==> |Utf8.Encode(text)| <= 412
    ensures r.Some? ==> fresh(r.value) && HasLines(r.value, false, grid)
    ensures r.Some? ==> IsSymbol(Utf8.Encode(text), grid) && DecodeText(grid) == Some(Utf8.Repaired(text))
  {
    hide Drawn, HasLines, Score, DecodeText, Fits, IsBestMask, Codewords, IsRounding, Utf8.Encode, Utf8.Repaired;
    grid := [];
    var bytes := Utf8.Encode(text);
    var version := ChooseVersion(|bytes|);
    if version.None? {
      return None, grid;
    }
    var codewords := BuildCodewords(tables, bytes, version.value);
    var best, mask := BestMatrix(version.value, codewords, round);
    r, grid := Some(best), Drawn(version.value, codewords, mask);
    TextDecodes(text, grid);
  }
}
