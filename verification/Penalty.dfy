// penalty of auth/flow-ui/qr.js: the four scoring rules of ISO/IEC 18004 section 8.8.2 as
// definitions on a square grid, and the source's loops computing their sum.
module Penalty {
  import opened Bitstream
  import opened Zigzag
  import opened Reader

  // ---- Rule 1: maximal runs ----

  // What a maximal run of the given length costs: 3 for five modules, 1 for each one more.
  function RunCost(length: nat): nat {
    if length < 5 then 0 else length - 2
  }

  // A maximal run at the front of a line, and one at its end.
  ghost predicate IsFirstRun(line: seq<Bit>, k: nat) {
    && 0 < k <= |line|
    && (forall i :: 0 <= i < k ==> line[i] == line[0])
    && (k < |line| ==> line[k] != line[0])
  }

  ghost predicate IsLastRun(line: seq<Bit>, k: nat) {
    && 0 < k <= |line|
    && (forall i :: |line| - k <= i < |line| ==> line[i] == line[|line| - 1])
    && (k < |line| ==> line[|line| - k - 1] != line[|line| - 1])
  }

  function FirstRun(line: seq<Bit>): (k: nat)
    requires line != []
    ensures IsFirstRun(line, k)
  {
    if |line| == 1 || line[1] != line[0] then 1 else 1 + FirstRun(line[1..])
  }

  // The cost of a line: its maximal runs, taken off from the front.
  function LineCost(line: seq<Bit>): nat {
    if line == [] then 0 else RunCost(FirstRun(line)) + LineCost(line[FirstRun(line)..])
  }

  function LinesCost(lines: seq<seq<Bit>>): nat {
    if lines == [] then 0 else LinesCost(lines[..|lines| - 1]) + LineCost(lines[|lines| - 1])
  }

  lemma FirstRunUnique(line: seq<Bit>, j: nat, k: nat)
    requires IsFirstRun(line, j) && IsFirstRun(line, k)
    ensures j == k
  {}

  lemma LastRunWithin(line: seq<Bit>, first: nat, last: nat)
    requires IsFirstRun(line, first) && IsLastRun(line, last)
    ensures 0 < first <= |line| && 0 < last <= |line|
    ensures first < |line| ==> first + last <= |line| && IsLastRun(line[first..], last)
    ensures first == |line| ==> last == |line|
    ensures first < |line| ==> IsFirstRun(line[..|line| - last], first)
  {
    assert line[first - 1] == line[0];
  }

  lemma TakeFirstRun(line: seq<Bit>, first: nat)
    requires IsFirstRun(line, first)
    ensures first <= |line| && LineCost(line) == RunCost(first) + LineCost(line[first..])
    ensures LineCost([]) == 0
  {
    FirstRunUnique(line, FirstRun(line), first);
  }

  lemma RunBetween(line: seq<Bit>, first: nat, last: nat, tail: seq<Bit>, rest: seq<Bit>)
    requires first + last <= |line| && tail == line[first..] && rest == line[..|line| - last]
    ensures tail[..|tail| - last] == rest[first..]
  {}

  // The last maximal run can be taken off instead.
  lemma {:induction false} LastRunCost(line: seq<Bit>, last: nat)
    requires IsLastRun(line, last)
    ensures 0 < last <= |line|
    ensures LineCost(line) == LineCost(line[..|line| - last]) + RunCost(last)
    decreases |line|
  {
    var first := (assert line != []; FirstRun(line));
    hide RunCost, LineCost, IsFirstRun, IsLastRun;
    LastRunWithin(line, first, last);
    TakeFirstRun(line, first);
    var rest, tail := line[..|line| - last], line[first..];
    if first == |line| {
      assert rest == [] && tail == [];
    } else {
      LastRunCost(tail, last);
      TakeFirstRun(rest, first);
      RunBetween(line, first, last, tail, rest);
    }
  }

  lemma WithoutLastRun(rest: seq<Bit>, line: seq<Bit>, last: nat)
    requires IsLastRun(line, last) && rest <= line && |rest| + last == |line|
    ensures LineCost(line) == LineCost(rest) + RunCost(last)
  {
    LastRunCost(line, last);
    assert line[..|line| - last] == rest;
  }

  lemma LongerRun(line: seq<Bit>, x: Bit, run: nat, longer: seq<Bit>)
    requires IsLastRun(line, run) && line[|line| - 1] == x && longer == line + [x]
    ensures IsLastRun(longer, run + 1) && run <= |line| && line[..|line| - run] <= longer
  {
    assert forall i :: 0 <= i < |line| ==> longer[i] == line[i];
  }

  // One more module on a line: its last run grows or a new one starts.
  lemma SameModule(line: seq<Bit>, x: Bit, run: nat, longer: seq<Bit>)
    requires IsLastRun(line, run) && line[|line| - 1] == x && longer == line + [x]
    ensures IsLastRun(longer, run + 1)
    ensures LineCost(longer) == LineCost(line) + RunCost(run + 1) - RunCost(run)
  {
    LongerRun(line, x, run, longer);
    hide RunCost, LineCost, IsLastRun;
    var rest := line[..|line| - run];
    WithoutLastRun(rest, line, run);
    WithoutLastRun(rest, longer, run + 1);
  }

  lemma OtherModule(line: seq<Bit>, x: Bit, longer: seq<Bit>)
    requires longer == line + [x] && (line == [] || line[|line| - 1] != x)
    ensures IsLastRun(longer, 1)
    ensures LineCost(longer) == LineCost(line)
  {
    assert IsLastRun(longer, 1) && RunCost(1) == 0;
    hide RunCost, LineCost, IsLastRun;
    WithoutLastRun(line, longer, 1);
  }

  // ---- Rule 2: 2x2 blocks of one colour ----

  predicate Solid(grid: Grid, r: nat, c: nat)
    requires Square(grid, |grid|) && r + 1 < |grid| && c + 1 < |grid|
  {
    grid[r][c] == grid[r][c + 1] == grid[r + 1][c] == grid[r + 1][c + 1]
  }

  // The top left corners of the one-colour blocks that come before (r, c), row by row.
  ghost function SolidBefore(grid: Grid, r: nat, c: nat): set<Cell>
    requires Square(grid, |grid|)
  {
    set y, x | 0 <= y < |grid| - 1 && 0 <= x < |grid| - 1 && (y < r || (y == r && x < c)) && Solid(grid, y, x) ::
      Cell(y, x)
  }

  ghost function SolidBlocks(grid: Grid): set<Cell>
    requires Square(grid, |grid|)
  {
    SolidBefore(grid, |grid|, 0)
  }

  // ---- Rule 3: 1:1:3:1:1 with four light modules on one side ----

  const LIGHT_AFTER: seq<Bit> := [1, 0, 1, 1, 1, 0, 1, 0, 0, 0, 0]
  const LIGHT_BEFORE: seq<Bit> := [0, 0, 0, 0, 1, 0, 1, 1, 1, 0, 1]

  predicate FinderLike(line: seq<Bit>, i: nat) {
    i + 11 <= |line| && (line[i..i + 11] == LIGHT_AFTER || line[i..i + 11] == LIGHT_BEFORE)
  }

  // The places (line, start) of finder-like patterns before (a, i), line by line.
  ghost function FindersBefore(lines: seq<seq<Bit>>, a: nat, i: nat): set<Cell> {
    set y, x | 0 <= y < |lines| && 0 <= x < |lines[y]| && (y < a || (y == a && x < i)) && FinderLike(lines[y], x) ::
      Cell(y, x)
  }

  ghost function Finders(lines: seq<seq<Bit>>): set<Cell> {
    FindersBefore(lines, |lines|, 0)
  }

  // ---- Rule 4: how far the share of dark modules is from one half ----

  function Dark(line: seq<Bit>): nat {
    if line == [] then 0 else Dark(line[..|line| - 1]) + line[|line| - 1]
  }

  function AllDark(lines: seq<seq<Bit>>): nat {
    if lines == [] then 0 else AllDark(lines[..|lines| - 1]) + Dark(lines[|lines| - 1])
  }

  // How far dark modules are from half of the area, in hundredths of modules.
  function Distance(dark: nat, area: nat): nat {
    if 100 * dark >= 50 * area then 100 * dark - 50 * area else 50 * area - 100 * dark
  }

  // How many whole steps fit in a distance.
  function Steps(distance: nat, step: nat): (k: nat)
    requires step > 0
    ensures k * step <= distance < (k + 1) * step
  {
    assert distance == step * (distance / step) + distance % step;
    distance / step
  }

  // The whole steps of five per cent between the dark share of area modules and one half.
  function Deviation(dark: nat, area: nat): nat
    requires area > 0
  {
    Steps(Distance(dark, area), 5 * area)
  }

  // ---- The score ----

  function Transpose(grid: Grid): (t: Grid)
    requires Square(grid, |grid|)
    ensures Square(t, |grid|)
    ensures forall r, c :: 0 <= r < |grid| && 0 <= c < |grid| ==> t[r][c] == grid[c][r]
  {
    seq(|grid|, r requires 0 <= r < |grid| => seq(|grid|, c requires 0 <= c < |grid| => grid[c][r]))
  }

  ghost function Score(grid: Grid): nat
    requires Square(grid, |grid|) && |grid| > 0
  {
    LinesCost(grid) + LinesCost(Transpose(grid))
    + 3 * |SolidBlocks(grid)|
    + 40 * (|Finders(grid)| + |Finders(Transpose(grid))|)
    + 10 * Deviation(AllDark(grid), |grid| * |grid|)
  }

  // ---- The loops of penalty ----

  // The lines of a matrix: its rows, or its columns when transposed.
  ghost predicate HasLines(m: array2<int>, transposed: bool, lines: Grid)
    reads m
  {
    && m.Length0 == |lines| && m.Length1 == |lines| && Square(lines, |lines|)
    && forall a, b :: 0 <= a < |lines| && 0 <= b < |lines| ==>
      (if transposed then m[b, a] else m[a, b]) == lines[a][b]
  }

  ghost function Part(line: seq<Bit>, b: nat): seq<Bit>
    requires b <= |line|
  {
    line[..b]
  }

  lemma FirstModule(line: seq<Bit>)
    requires line != []
    ensures IsLastRun(Part(line, 1), 1) && LineCost(Part(line, 1)) == 0
  {
    OtherModule([], line[0], line[..1]);
  }

  lemma NextModule(line: seq<Bit>, b: nat, run: nat)
    requires 0 < b < |line| && IsLastRun(Part(line, b), run)
    ensures line[b] == line[b - 1] ==> IsLastRun(Part(line, b + 1), run + 1)
    ensures line[b] == line[b - 1] ==>
      LineCost(Part(line, b + 1)) == LineCost(Part(line, b)) + if run + 1 < 5 then 0 else if run + 1 == 5 then 3 else 1
    ensures line[b] != line[b - 1] ==>
      IsLastRun(Part(line, b + 1), 1) && LineCost(Part(line, b + 1)) == LineCost(Part(line, b))
  {
    hide LineCost, IsLastRun;
    if line[b] == line[b - 1] {
      SameModule(line[..b], line[b], run, line[..b + 1]);
    } else {
      OtherModule(line[..b], line[b], line[..b + 1]);
    }
  }

  lemma WholeLine(line: seq<Bit>)
    ensures Part(line, |line|) == line
  {}

  method ScoreLine(m: array2<int>, transposed: bool, a: nat, ghost line: seq<Bit>) returns (score: nat)
    requires m.Length0 == m.Length1 == |line| && a < |line|
    requires forall b :: 0 <= b < |line| ==> (if transposed then m[b, a] else m[a, b]) == line[b]
    ensures score == LineCost(line)
  {
    FirstModule(line);
    hide LineCost, IsLastRun, Part, RunCost;
    score := 0;
    var run := 1;
    for b := 1 to m.Length0
      invariant IsLastRun(Part(line, b), run)
      invariant score == LineCost(Part(line, b))
    {
      NextModule(line, b, run);
      var cur := if transposed then m[b, a] else m[a, b];
      var prev := if transposed then m[b - 1, a] else m[a, b - 1];
      assert cur == line[b] && prev == line[b - 1];
      if cur == prev {
        run := run + 1;
        if run == 5 {
          score := score + 3;
        } else if run > 5 {
          score := score + 1;
        }
      } else {
        run := 1;
      }
    }
    WholeLine(line);
  }

  method ScoreRuns(m: array2<int>, transposed: bool, ghost lines: Grid) returns (score: nat)
    requires HasLines(m, transposed, lines)
    ensures score == LinesCost(lines)
  {
    hide LineCost;
    score := 0;
    for a := 0 to m.Length0
      invariant score == LinesCost(lines[..a])
    {
      var cost := ScoreLine(m, transposed, a, lines[a]);
      score := score + cost;
      assert lines[..a + 1][..a] == lines[..a];
    }
    assert lines[..|lines|] == lines;
  }

  lemma NextBlock(grid: Grid, r: nat, c: nat)
    requires Square(grid, |grid|) && r < |grid| - 1 && c < |grid| - 1
    ensures |SolidBefore(grid, r, c + 1)| == |SolidBefore(grid, r, c)| + if Solid(grid, r, c) then 1 else 0
  {
    hide Solid;
    assert SolidBefore(grid, r, c + 1) == SolidBefore(grid, r, c) + if Solid(grid, r, c) then {Cell(r, c)} else {};
  }

  method ScoreBlocks(m: array2<int>, ghost grid: Grid) returns (score: nat)
    requires HasLines(m, false, grid) && |grid| > 0
    ensures score == 3 * |SolidBlocks(grid)|
  {
    var n := m.Length0;
    score := 0;
    assert SolidBefore(grid, 0, 0) == {};
    for r := 0 to n - 1
      invariant score == 3 * |SolidBefore(grid, r, 0)|
    {
      for c := 0 to n - 1
        invariant score == 3 * |SolidBefore(grid, r, c)|
      {
        NextBlock(grid, r, c);
        var v := m[r, c];
        if v == m[r, c + 1] && v == m[r + 1, c] && v == m[r + 1, c + 1] {
          score := score + 3;
        }
      }
      assert SolidBefore(grid, r, n - 1) == SolidBefore(grid, r + 1, 0);
    }
    assert SolidBefore(grid, n - 1, 0) == SolidBlocks(grid);
  }

  lemma NextSame(s: seq<Bit>, t: seq<Bit>, k: nat)
    requires k < |s| && k < |t|
    ensures s[..k + 1] == t[..k + 1] <==> s[..k] == t[..k] && s[k] == t[k]
  {
    assert s[..k + 1] == s[..k] + [s[k]] && t[..k + 1] == t[..k] + [t[k]];
  }

  method MatchesAt(m: array2<int>, transposed: bool, ghost lines: Grid, a: nat, i: nat) returns (found: bool)
    requires HasLines(m, transposed, lines) && a < |lines| && i + 11 <= |lines|
    ensures found == FinderLike(lines[a], i)
  {
    var after, before := true, true;
    ghost var part := lines[a][i..i + 11];
    for k := 0 to 11
      invariant after == (part[..k] == LIGHT_AFTER[..k])
      invariant before == (part[..k] == LIGHT_BEFORE[..k])
    {
      var v := if transposed then m[i + k, a] else m[a, i + k];
      assert v == part[k];
      NextSame(part, LIGHT_AFTER, k);
      NextSame(part, LIGHT_BEFORE, k);
      if v != LIGHT_AFTER[k] { after := false; }
      if v != LIGHT_BEFORE[k] { before := false; }
    }
    assert part[..11] == part && LIGHT_AFTER[..11] == LIGHT_AFTER && LIGHT_BEFORE[..11] == LIGHT_BEFORE;
    found := after || before;
  }

  lemma NextFinder(lines: seq<seq<Bit>>, a: nat, i: nat)
    requires a < |lines| && i < |lines[a]|
    ensures |FindersBefore(lines, a, i + 1)| == |FindersBefore(lines, a, i)| + if FinderLike(lines[a], i) then 1 else 0
  {
    hide FinderLike;
    assert FindersBefore(lines, a, i + 1)
        == FindersBefore(lines, a, i) + if FinderLike(lines[a], i) then {Cell(a, i)} else {};
  }

  lemma LineDone(lines: seq<seq<Bit>>, a: nat, i: nat)
    requires a < |lines| && i + 11 > |lines[a]|
    ensures FindersBefore(lines, a, i) == FindersBefore(lines, a + 1, 0)
  {}

  method ScoreFinders(m: array2<int>, transposed: bool, ghost lines: Grid) returns (score: nat)
    requires HasLines(m, transposed, lines)
    ensures score == 40 * |Finders(lines)|
  {
    hide FinderLike;
    var n := m.Length0;
    score := 0;
    assert FindersBefore(lines, 0, 0) == {};
    for a := 0 to n
      invariant score == 40 * |FindersBefore(lines, a, 0)|
    {
      var i := 0;
      while i + 11 <= n
        invariant 0 <= i <= n
        invariant score == 40 * |FindersBefore(lines, a, i)|
      {
        NextFinder(lines, a, i);
        var found := MatchesAt(m, transposed, lines, a, i);
        if found {
          score := score + 40;
        }
        i := i + 1;
      }
      LineDone(lines, a, i);
    }
  }

  method CountDark(m: array2<int>, ghost grid: Grid) returns (dark: nat)
    requires HasLines(m, false, grid)
    ensures dark == AllDark(grid)
  {
    dark := 0;
    for r := 0 to m.Length0
      invariant dark == AllDark(grid[..r])
    {
      for c := 0 to m.Length1
        invariant dark == AllDark(grid[..r]) + Dark(grid[r][..c])
      {
        assert grid[r][..c + 1][..c] == grid[r][..c];
        assert m[r, c] == grid[r][c];
        dark := dark + m[r, c];
      }
      assert grid[r][..m.Length1] == grid[r] && grid[..r + 1][..r] == grid[..r];
    }
    assert grid[..m.Length0] == grid;
  }

  function AbsReal(x: real): real {
    if x < 0.0 then -x else x
  }

  // ---- Rule 4 in floating point ----

  // How far a rounded number may be off. Double precision errs by less than 2^-43 on numbers
  // below a thousand.
  const ERROR: real := 0.000000000001

  // Rounding to some format: nearly right on numbers up to a thousand, right on the integers.
  ghost predicate IsRounding(round: real -> real) {
    && (forall x: real :: -1000.0 <= x <= 1000.0 ==> x - ERROR <= round(x) <= x + ERROR)
    && (forall x: real :: -1000.0 <= x <= 1000.0 && x == x.Floor as real ==> round(x) == x)
  }

  function Share(dark: nat, area: nat): real
    requires area > 0
  {
    (dark * 100) as real / area as real
  }

  // The share with its operation rounded, and the steps counted from it, likewise.
  function RoundedShare(round: real -> real, dark: nat, area: nat): real
    requires area > 0
  {
    round(Share(dark, area))
  }

  function RoundedSteps(round: real -> real, pct: real): int {
    round(AbsReal(round(pct - 50.0)) / 5.0).Floor
  }

  lemma Cancel(x: real, y: real, step: real)
    requires step > 0.0
    ensures x * step <= y * step ==> x <= y
    ensures x * step < y * step ==> x < y
  {
    assert (x - y) * step == x * step - y * step;
    if x > y {
      assert (x - y) * step > 0.0;
    }
  }

  lemma ShareBetween(dark: nat, area: nat)
    requires area > 0 && dark <= area
    ensures 0.0 <= Share(dark, area) <= 100.0
  {
    var pct := Share(dark, area);
    assert pct * area as real == (dark * 100) as real;
    Cancel(0.0, pct, area as real);
    Cancel(pct, 100.0, area as real);
  }

  lemma RoundedUnfold(round: real -> real, dark: nat, area: nat)
    requires area > 0
    ensures RoundedShare(round, dark, area) == round(Share(dark, area))
  {
    hide Share;
  }

  lemma AbsScaled(x: real, a: real)
    requires a > 0.0
    ensures AbsReal(x) * a == AbsReal(x * a)
  {}

  lemma AwayScaled(dark: nat, area: nat, pct: real)
    requires area > 0 && pct == (dark * 100) as real / area as real
    ensures AbsReal(pct - 50.0) / 5.0 * (5 * area) as real == Distance(dark, area) as real
  {
    var a := area as real;
    assert pct * a == (dark * 100) as real;
    assert (pct - 50.0) * a == (dark * 100) as real - 50.0 * a;
    AbsScaled(pct - 50.0, a);
    assert (5 * area) as real == 5.0 * a;
  }

  lemma ShareAway(dark: nat, area: nat, step: nat) returns (away: real)
    requires area > 0 && step == 5 * area
    ensures away == AbsReal(Share(dark, area) - 50.0) / 5.0
    ensures away * step as real == Distance(dark, area) as real
  {
    AwayScaled(dark, area, Share(dark, area));
    hide *;
    away := AbsReal(Share(dark, area) - 50.0) / 5.0;
  }

  lemma DeviationSteps(dark: nat, area: nat, step: nat)
    requires area > 0 && step == 5 * area
    ensures var k := Deviation(dark, area); k * step <= Distance(dark, area) < (k + 1) * step
  {
    hide Distance;
  }

  lemma Products(k: nat, step: nat)
    ensures (k * step) as real == k as real * step as real
  {}

  lemma WholeSteps(k: nat, step: nat, d: nat, away: real)
    requires step > 0 && away * step as real == d as real && d == k * step
    ensures away == k as real
  {
    Products(k, step);
    Cancel(away, k as real, step as real);
    Cancel(k as real, away, step as real);
  }

  lemma RoundedWhole(round: real -> real, pct: real, k: nat)
    requires IsRounding(round) && 0.0 <= pct <= 100.0 && AbsReal(pct - 50.0) / 5.0 == k as real
    ensures RoundedSteps(round, round(pct)) == k
  {
    var signed := if pct < 50.0 then -5 * k else 5 * k;
    assert pct == (50 + signed) as real && pct - 50.0 == signed as real;
    assert round(pct) == pct && round(pct - 50.0) == pct - 50.0;
    assert round(k as real) == k as real;
  }

  // Between two whole numbers of steps, a share keeps away from both.
  lemma StepsApart(k: nat, step: nat, d: nat, away: real)
    requires 0 < step <= 200000 && away * step as real == d as real
    requires k * step + 1 <= d <= (k + 1) * step - 1
    ensures k as real + 0.000005 <= away <= k as real + 0.999995
  {
    var s := step as real;
    Products(k, step);
    Products(k + 1, step);
    assert (k as real + 0.000005) * s == k as real * s + 0.000005 * s;
    assert (k as real + 0.999995) * s == (k as real + 1.0) * s - 0.000005 * s;
    Cancel(k as real + 0.000005, away, s);
    Cancel(away, k as real + 0.999995, s);
  }

  lemma RoundedClose(round: real -> real, pct: real, k: nat)
    requires IsRounding(round) && 0.0 <= pct <= 100.0
    requires k as real + 0.000005 <= AbsReal(pct - 50.0) / 5.0 <= k as real + 0.999995
    ensures RoundedSteps(round, round(pct)) == k
  {
    var p := round(pct);
    var d := round(p - 50.0);
    assert pct - ERROR <= p <= pct + ERROR;
    assert p - 50.0 - ERROR <= d <= p - 50.0 + ERROR;
    var y := AbsReal(d) / 5.0;
    assert y - ERROR <= round(y) <= y + ERROR;
  }

  lemma StepsOfShare(round: real -> real, pct: real, away: real, d: nat, step: nat, k: nat)
    requires IsRounding(round) && 0.0 <= pct <= 100.0 && away == AbsReal(pct - 50.0) / 5.0
    requires 0 < step <= 200000 && away * step as real == d as real && k * step <= d < (k + 1) * step
    ensures RoundedSteps(round, round(pct)) == k
  {
    hide *;
    if d == k * step {
      WholeSteps(k, step, d, away);
      RoundedWhole(round, pct, k);
    } else {
      StepsApart(k, step, d, away);
      RoundedClose(round, pct, k);
    }
  }

  lemma ShareWithStep(round: real -> real, dark: nat, area: nat, step: nat)
    requires IsRounding(round) && 0 < area && step == 5 * area <= 200000 && 0.0 <= Share(dark, area) <= 100.0
    ensures RoundedSteps(round, round(Share(dark, area))) == Deviation(dark, area)
  {
    hide *;
    var away := ShareAway(dark, area, step);
    DeviationSteps(dark, area, step);
    StepsOfShare(round, Share(dark, area), away, Distance(dark, area), step, Deviation(dark, area));
  }

  // Rounding never changes the number of steps, for no share comes so close to the next one:
  // either it is a whole number of steps, and then exact, or off by a part of the area.
  lemma ShareInSteps(round: real -> real, dark: nat, area: nat)
    requires IsRounding(round) && 0 < area <= 40000 && dark <= area
    ensures RoundedSteps(round, RoundedShare(round, dark, area)) == Deviation(dark, area)
  {
    hide *;
    ShareBetween(dark, area);
    RoundedUnfold(round, dark, area);
    ShareWithStep(round, dark, area, 5 * area);
  }

  lemma {:induction false} DarkAtMost(line: seq<Bit>)
    ensures Dark(line) <= |line|
  {
    if line != [] {
      DarkAtMost(line[..|line| - 1]);
    }
  }

  lemma {:induction false} AllDarkAtMost(lines: seq<seq<Bit>>, width: nat)
    requires forall a :: 0 <= a < |lines| ==> |lines[a]| == width
    ensures AllDark(lines) <= |lines| * width
  {
    if lines != [] {
      var n := |lines| - 1;
      AllDarkAtMost(lines[..n], width);
      DarkAtMost(lines[n]);
      assert |lines| * width == n * width + width;
    }
  }

  lemma AreaAtMost(n: nat)
    requires 0 < n <= 177
    ensures 0 < n * n <= 40000
  {
    assert n * n <= 177 * n;
  }

  // The score of a matrix no larger than the largest symbol, under any rounding.
  method ScoreMatrix(m: array2<int>, round: real -> real, ghost grid: Grid) returns (score: nat)
    requires HasLines(m, false, grid) && 0 < |grid| <= 177 && IsRounding(round)
    ensures score == Score(grid)
  {
    hide IsRounding, RoundedShare, RoundedSteps, Deviation;
    var n := m.Length0;
    ghost var columns := Transpose(grid);
    score := ScoreRuns(m, false, grid);
    var more := ScoreRuns(m, true, columns);
    score := score + more;
    more := ScoreBlocks(m, grid);
    score := score + more;
    more := ScoreFinders(m, false, grid);
    score := score + more;
    more := ScoreFinders(m, true, columns);
    score := score + more;
    var dark := CountDark(m, grid);
    AreaAtMost(n);
    AllDarkAtMost(grid, n);
    ShareInSteps(round, dark, n * n);
    var pct := RoundedShare(round, dark, n * n);
    score := score + RoundedSteps(round, pct) * 10;
  }
}
