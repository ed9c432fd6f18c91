// The fixed part of a QR matrix of auth/flow-ui/qr.js: which modules are reserved and what
// the finder, timing, alignment, version and format modules hold, as closed forms.
module Pattern {
  import opened Bitstream
  import opened Options
  import opened Assembly

  function Size(v: Version): (n: int)
    ensures 21 <= n <= 77
  {
    v * 4 + 17
  }

  function Centers(v: Version): seq<int> {
    match v
    case 1 => []
    case 2 => [6, 18]
    case 3 => [6, 22]
    case 4 => [6, 26]
    case 5 => [6, 30]
    case 6 => [6, 34]
    case 7 => [6, 22, 38]
    case 8 => [6, 24, 42]
    case 9 => [6, 26, 46]
    case 10 => [6, 28, 50]
    case 11 => [6, 30, 54]
    case 12 => [6, 32, 58]
    case 13 => [6, 34, 62]
    case 14 => [6, 26, 46, 66]
    case _ => [6, 26, 48, 70]
  }

  function Abs(x: int): nat {
    if x < 0 then -x else x
  }

  // ---- Finder patterns and separators ----

  // Within one finder, relative to its corner; the separators are row and column -1 and 7.
  predicate InFinderAt(br: int, bc: int, r: int, c: int) {
    br - 1 <= r <= br + 7 && bc - 1 <= c <= bc + 7
  }

  function FinderModule(r: int, c: int): Bit {
    if 0 <= r <= 6 && 0 <= c <= 6 && (r == 0 || r == 6 || c == 0 || c == 6 || (2 <= r <= 4 && 2 <= c <= 4))
    then 1 else 0
  }

  predicate InFinder(n: int, r: int, c: int) {
    InFinderAt(0, 0, r, c) || InFinderAt(0, n - 7, r, c) || InFinderAt(n - 7, 0, r, c)
  }

  function FinderValue(n: int, r: int, c: int): Bit
    requires InFinder(n, r, c)
  {
    if InFinderAt(n - 7, 0, r, c) then FinderModule(r - (n - 7), c)
    else if InFinderAt(0, n - 7, r, c) then FinderModule(r, c - (n - 7))
    else FinderModule(r, c)
  }

  // ---- Timing patterns ----

  predicate InTiming(n: int, r: int, c: int) {
    (r == 6 && 8 <= c < n - 8) || (c == 6 && 8 <= r < n - 8)
  }

  function TimingValue(r: int, c: int): Bit {
    if r == 6 then 1 - c % 2 else 1 - r % 2
  }

  // ---- Alignment patterns ----

  ghost predicate Spaced(centers: seq<int>) {
    forall i, j :: 0 <= i < j < |centers| ==> centers[i] + 5 <= centers[j]
  }

  predicate Near(centers: seq<int>, k: nat, x: int) {
    k < |centers| && Abs(x - centers[k]) <= 2
  }

  // The index of the centre within two modules of x, or |centers|; no version has more
  // than four centres.
  function NearIndex(centers: seq<int>, x: int): nat {
    if Near(centers, 0, x) then 0
    else if Near(centers, 1, x) then 1
    else if Near(centers, 2, x) then 2
    else if Near(centers, 3, x) then 3
    else |centers|
  }

  lemma CentersSpaced(v: Version)
    ensures Spaced(Centers(v)) && |Centers(v)| <= 4
  {}

  lemma NearFacts(v: Version, x: int)
    ensures var centers, i := Centers(v), NearIndex(Centers(v), x);
      && i <= |centers|
      && (i < |centers| ==> Abs(x - centers[i]) <= 2)
      && (forall j :: 0 <= j < |centers| && Abs(x - centers[j]) <= 2 ==> j == i)
  {
    var centers := Centers(v);
    CentersSpaced(v);
    hide Centers;
    forall j | 0 <= j < |centers| && Abs(x - centers[j]) <= 2
      ensures j == NearIndex(centers, x)
    {
      assert Near(centers, j, x);
    }
  }

  // A centre pair that would collide with a finder is skipped.
  predicate Corner(n: int, a: int, b: int) {
    (a <= 8 && b <= 8) || (a <= 8 && b >= n - 9) || (a >= n - 9 && b <= 8)
  }

  predicate InAlignment(v: Version, r: int, c: int) {
    var centers := Centers(v);
    var i, j := NearIndex(centers, r), NearIndex(centers, c);
    i < |centers| && j < |centers| && !Corner(Size(v), centers[i], centers[j])
  }

  function AlignmentModule(dr: int, dc: int): Bit {
    if Abs(dr) <= 1 && Abs(dc) <= 1 && (dr != 0 || dc != 0) then 0 else 1
  }

  function AlignmentValue(v: Version, r: int, c: int): Bit
    requires InAlignment(v, r, c)
  {
    var centers := Centers(v);
    AlignmentModule(r - centers[NearIndex(centers, r)], c - centers[NearIndex(centers, c)])
  }

  // ---- Version information ----

  predicate InVersion(v: Version, r: int, c: int) {
    v >= 7 && ((0 <= r < 6 && Size(v) - 11 <= c <= Size(v) - 9) || (0 <= c < 6 && Size(v) - 11 <= r <= Size(v) - 9))
  }

  // The 18-bit words of ISO/IEC 18004, Annex D.
  function VersionInfo(v: Version): nat {
    match v
    case 7 => 0x07c94
    case 8 => 0x085bc
    case 9 => 0x09a99
    case 10 => 0x0a4d3
    case 11 => 0x0bbf6
    case 12 => 0x0c762
    case 13 => 0x0d847
    case 14 => 0x0e60d
    case 15 => 0x0f928
    case _ => 0
  }

  function VersionValue(v: Version, r: int, c: int): Bit
    requires InVersion(v, r, c)
  {
    var n := Size(v);
    if r < 6 && n - 11 <= c <= n - 9 then ShiftRight(VersionInfo(v), 3 * r + (c - (n - 11))) % 2
    else ShiftRight(VersionInfo(v), 3 * c + (r - (n - 11))) % 2
  }

  // ---- Format information ----

  type Mask = m: int | 0 <= m < 8

  // The masked 15-bit words for level M of ISO/IEC 18004, Annex C.
  function FormatInfo(mask: Mask): (word: nat)
    ensures word < 0x8000
  {
    match mask
    case 0 => 0x5412
    case 1 => 0x5125
    case 2 => 0x5e7c
    case 3 => 0x5b4b
    case 4 => 0x45f9
    case 5 => 0x40ce
    case 6 => 0x4f97
    case _ => 0x4aa0
  }

  // Which format bit a module holds: copy 1 around the top left finder, copy 2 split
  // between the other two.
  function FormatIndex(n: int, r: int, c: int): Option<nat> {
    if c == 8 && 0 <= r <= 5 then Some(r)
    else if c == 8 && r == 7 then Some(6)
    else if c == 8 && r == 8 then Some(7)
    else if r == 8 && c == 7 then Some(8)
    else if r == 8 && 0 <= c <= 5 then Some(14 - c)
    else if r == 8 && n - 8 <= c < n then Some(n - 1 - c)
    else if c == 8 && n - 7 <= r < n then Some(r - (n - 15))
    else None
  }

  predicate InFormatArea(n: int, r: int, c: int) {
    (r == 8 && (0 <= c <= 8 || n - 8 <= c < n)) || (c == 8 && (0 <= r <= 8 || n - 8 <= r < n))
  }

  // ---- Reserved modules ----

  predicate Reserved(v: Version, r: int, c: int) {
    var n := Size(v);
    InFinder(n, r, c) || InTiming(n, r, c) || InAlignment(v, r, c) || InFormatArea(n, r, c) || InVersion(v, r, c)
  }

  predicate InMatrix(n: int, r: int, c: int) {
    0 <= r < n && 0 <= c < n
  }

  // What the function patterns put in a module, before data and format.
  function PatternValue(v: Version, r: int, c: int): Option<Bit> {
    var n := Size(v);
    if InVersion(v, r, c) then Some(VersionValue(v, r, c))
    else if r == n - 8 && c == 8 then Some(1)
    else if InAlignment(v, r, c) then Some(AlignmentValue(v, r, c))
    else if InTiming(n, r, c) then Some(TimingValue(r, c))
    else if InFinder(n, r, c) then Some(FinderValue(n, r, c))
    else None
  }

  // The positions of the centres: 6, then even ones up to n - 7, clear of the finders.
  lemma CenterFacts(v: Version, i: nat)
    requires i < |Centers(v)|
    ensures Centers(v)[i] % 2 == 0
    ensures |Centers(v)| >= 2
    ensures i == 0 ==> Centers(v)[i] == 6
    ensures i == |Centers(v)| - 1 ==> Centers(v)[i] == Size(v) - 7
    ensures 0 < i < |Centers(v)| - 1 ==> 20 <= Centers(v)[i] <= Size(v) - 23
  {}

  predicate CenterPlaced(n: int, a: int) {
    a % 2 == 0 && (a == 6 || a == n - 7 || 20 <= a <= n - 23)
  }

  lemma BlockApart(n: int, a: int, b: int, r: int, c: int)
    requires n >= 21 && CenterPlaced(n, a) && CenterPlaced(n, b) && !Corner(n, a, b)
    requires Abs(r - a) <= 2 && Abs(c - b) <= 2
    ensures !InFinder(n, r, c) && !InFormatArea(n, r, c) && InMatrix(n, r, c)
    ensures !(0 <= r < 6 && n - 11 <= c <= n - 9) && !(0 <= c < 6 && n - 11 <= r <= n - 9)
  {}

  lemma BlockOnTiming(n: int, a: int, b: int, r: int, c: int)
    requires n >= 21 && CenterPlaced(n, a) && CenterPlaced(n, b) && !Corner(n, a, b)
    requires Abs(r - a) <= 2 && Abs(c - b) <= 2
    ensures InTiming(n, r, c) ==> AlignmentModule(r - a, c - b) == TimingValue(r, c)
  {
    if r == 6 && InTiming(n, r, c) {
      assert a == 6;
    }
  }

  // An alignment module lies clear of the finders, the format area and the version blocks,
  // and agrees with the timing line where it crosses it.
  lemma AlignmentApart(v: Version, r: int, c: int)
    requires InAlignment(v, r, c)
    ensures var n := Size(v);
            !InFinder(n, r, c) && !InFormatArea(n, r, c) && !InVersion(v, r, c) && InMatrix(n, r, c)
    ensures InTiming(Size(v), r, c) ==> AlignmentValue(v, r, c) == TimingValue(r, c)
  {
    var n, centers := Size(v), Centers(v);
    var i, j := NearIndex(centers, r), NearIndex(centers, c);
    NearFacts(v, r);
    NearFacts(v, c);
    CenterFacts(v, i);
    CenterFacts(v, j);
    hide Centers, NearIndex, Corner, InFinder, InFormatArea, InTiming, AlignmentModule;
    BlockApart(n, centers[i], centers[j], r, c);
    BlockOnTiming(n, centers[i], centers[j], r, c);
  }

  lemma VersionApart(v: Version, r: int, c: int)
    requires InVersion(v, r, c)
    ensures var n := Size(v);
            !InFinder(n, r, c) && !InFormatArea(n, r, c) && !InTiming(n, r, c) && InMatrix(n, r, c)
  {}

  // The patterns do not disturb one another: every finder, timing and alignment module
  // holds the value its own pattern gives it, and none is a format module.
  lemma PatternsIntact(v: Version, r: int, c: int)
    requires InMatrix(Size(v), r, c)
    ensures var n := Size(v);
      && (InFinder(n, r, c) ==> PatternValue(v, r, c) == Some(FinderValue(n, r, c)))
      && (InTiming(n, r, c) ==> PatternValue(v, r, c) == Some(TimingValue(r, c)))
      && (InAlignment(v, r, c) ==> PatternValue(v, r, c) == Some(AlignmentValue(v, r, c)))
      && (InFinder(n, r, c) || InTiming(n, r, c) || InAlignment(v, r, c) || InVersion(v, r, c) ==>
            FormatIndex(n, r, c) == None && !(r == n - 8 && c == 8))
  {
    if InAlignment(v, r, c) { AlignmentApart(v, r, c); }
    if InVersion(v, r, c) { VersionApart(v, r, c); }
    hide InAlignment, AlignmentValue, VersionValue;
  }

  // A reserved module is a format module or holds a pattern value; an unreserved one is neither.
  lemma ReservedCovered(v: Version, r: int, c: int)
    requires InMatrix(Size(v), r, c)
    ensures Reserved(v, r, c) <==> FormatIndex(Size(v), r, c).Some? || PatternValue(v, r, c).Some?
    ensures c == 6 ==> Reserved(v, r, c)
  {
    hide InAlignment, AlignmentValue, VersionValue;
  }
}
