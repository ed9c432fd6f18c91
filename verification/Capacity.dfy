// The unreserved modules of every version have room for all of its codewords: the reserved
// ones are covered by rectangles whose areas leave at least eight modules per codeword.
module Capacity {
  import opened Assembly
  import opened Pattern
  import opened Zigzag

  // Rows r0..r1 and columns c0..c1, upper bounds excluded.
  datatype Area = Area(r0: int, r1: int, c0: int, c1: int) {
    predicate Contains(cell: Cell) {
      r0 <= cell.r < r1 && c0 <= cell.c < c1
    }

    function Count(): nat {
      if r0 <= r1 && c0 <= c1 then (r1 - r0) * (c1 - c0) else 0
    }
  }

  predicate Covered(areas: seq<Area>, cell: Cell) {
    areas != [] && (areas[0].Contains(cell) || Covered(areas[1..], cell))
  }

  function TotalArea(areas: seq<Area>): nat {
    if areas == [] then 0 else areas[0].Count() + TotalArea(areas[1..])
  }

  // ---- Counting cells ----

  ghost function RowCells(r: int, c0: int, c1: int): (cells: set<Cell>)
    requires c0 <= c1
    ensures |cells| == c1 - c0
    ensures forall cell :: cell in cells <==> cell.r == r && c0 <= cell.c < c1
    decreases c1 - c0
  {
    if c0 == c1 then {} else RowCells(r, c0, c1 - 1) + {Cell(r, c1 - 1)}
  }

  lemma OneMoreRow(area: Area)
    requires area.r0 < area.r1 && area.c0 <= area.c1
    ensures area.Count() == Area(area.r0, area.r1 - 1, area.c0, area.c1).Count() + (area.c1 - area.c0)
  {
    var height, width := area.r1 - area.r0, area.c1 - area.c0;
    assert (height - 1) * width + width == height * width;
  }

  lemma Apart<T>(a: set<T>, b: set<T>)
    requires a * b == {}
    ensures |a + b| == |a| + |b|
  {}

  ghost function Cells(area: Area): (cells: set<Cell>)
    requires area.r0 <= area.r1 && area.c0 <= area.c1
    ensures |cells| == area.Count()
    ensures forall cell :: cell in cells <==> area.Contains(cell)
    decreases area.r1 - area.r0
  {
    if area.r0 == area.r1 then {}
    else
      var above := Area(area.r0, area.r1 - 1, area.c0, area.c1);
      OneMoreRow(area);
      Apart(Cells(above), RowCells(area.r1 - 1, area.c0, area.c1));
      Cells(above) + RowCells(area.r1 - 1, area.c0, area.c1)
  }

  ghost function Cover(areas: seq<Area>): (cells: set<Cell>)
    ensures |cells| <= TotalArea(areas)
    ensures forall cell :: Covered(areas, cell) ==> cell in cells
  {
    if areas == [] then {}
    else
      var a := areas[0];
      if a.r0 <= a.r1 && a.c0 <= a.c1 then Cells(a) + Cover(areas[1..])
      else Cover(areas[1..])
  }

  ghost function Listed(cells: seq<Cell>): (listed: set<Cell>)
    ensures |listed| <= |cells|
    ensures forall j :: 0 <= j < |cells| ==> cells[j] in listed
  {
    if cells == [] then {}
    else
      var last := |cells| - 1;
      Listed(cells[..last]) + {cells[last]}
  }

  lemma {:induction false} SubsetSize<T>(a: set<T>, b: set<T>)
    requires a <= b
    ensures |a| <= |b|
  {
    if a != {} {
      var x :| x in a;
      SubsetSize(a - {x}, b - {x});
    }
  }

  // If everything in the matrix is covered or listed, the list is long enough.
  lemma ListIsLong(n: int, areas: seq<Area>, cells: seq<Cell>)
    requires n >= 0
    requires forall cell: Cell :: InMatrix(n, cell.r, cell.c) ==> Covered(areas, cell) || cell in Listed(cells)
    ensures |cells| >= n * n - TotalArea(areas)
  {
    var all := Cells(Area(0, n, 0, n));
    var cover, listed := Cover(areas), Listed(cells);
    assert all <= cover + listed;
    SubsetSize(all, cover + listed);
    assert |cover + listed| <= |cover| + |listed|;
  }

  // ---- The rectangles of a version ----

  // Patterns on the timing lines leave out the timing modules they share.
  function PairAreas(n: int, a: int, b: int): seq<Area> {
    if Corner(n, a, b) then []
    else if a == 6 then [Area(4, 6, b - 2, b + 3), Area(7, 9, b - 2, b + 3)]
    else if b == 6 then [Area(a - 2, a + 3, 4, 6), Area(a - 2, a + 3, 7, 9)]
    else [Area(a - 2, a + 3, b - 2, b + 3)]
  }

  // The alignment patterns of centre row i and the first j centre columns.
  function RowAreas(v: Version, i: nat, j: nat): seq<Area>
    requires i < |Centers(v)| && j <= |Centers(v)|
  {
    if j == 0 then []
    else RowAreas(v, i, j - 1) + PairAreas(Size(v), Centers(v)[i], Centers(v)[j - 1])
  }

  function AlignmentAreas(v: Version, i: nat): seq<Area>
    requires i <= |Centers(v)|
  {
    if i == 0 then [] else AlignmentAreas(v, i - 1) + RowAreas(v, i - 1, |Centers(v)|)
  }

  // Finders with separators and format modules, timing lines, version blocks.
  function FixedAreas(v: Version): seq<Area> {
    var n := Size(v);
    [Area(0, 9, 0, 9)] + [Area(0, 9, n - 8, n), Area(n - 8, n, 0, 9)]
    + [Area(6, 7, 9, n - 8), Area(9, n - 8, 6, 7)]
    + if v >= 7 then [Area(0, 6, n - 11, n - 8), Area(n - 11, n - 8, 0, 6)] else []
  }

  function Areas(v: Version): seq<Area> {
    FixedAreas(v) + AlignmentAreas(v, |Centers(v)|)
  }

  lemma {:induction false} CoveredConcat(a: seq<Area>, b: seq<Area>, cell: Cell)
    ensures Covered(a + b, cell) <==> Covered(a, cell) || Covered(b, cell)
    ensures TotalArea(a + b) == TotalArea(a) + TotalArea(b)
  {
    if a == [] {
      assert a + b == b;
    } else {
      assert (a + b)[1..] == a[1..] + b;
      CoveredConcat(a[1..], b, cell);
    }
  }

  lemma PairCovered(n: int, a: int, b: int, cell: Cell)
    requires !Corner(n, a, b) && Abs(cell.r - a) <= 2 && Abs(cell.c - b) <= 2
    requires !(a == 6 && cell.r == 6) && !(b == 6 && cell.c == 6)
    ensures Covered(PairAreas(n, a, b), cell)
  {
    if a == 6 {
      var areas := PairAreas(n, a, b);
      assert areas[1..] == [Area(7, 9, b - 2, b + 3)];
    } else if b == 6 {
      var areas := PairAreas(n, a, b);
      assert areas[1..] == [Area(a - 2, a + 3, 7, 9)];
    }
  }

  lemma {:induction false} RowCovered(v: Version, i: nat, j: nat, m: nat, cell: Cell)
    requires i < |Centers(v)| && j < m <= |Centers(v)|
    requires Covered(PairAreas(Size(v), Centers(v)[i], Centers(v)[j]), cell)
    ensures Covered(RowAreas(v, i, m), cell)
  {
    hide Centers, PairAreas, Covered;
    CoveredConcat(RowAreas(v, i, m - 1), PairAreas(Size(v), Centers(v)[i], Centers(v)[m - 1]), cell);
    if j < m - 1 {
      RowCovered(v, i, j, m - 1, cell);
    }
  }

  lemma {:induction false} AlignmentCovered(v: Version, i: nat, m: nat, cell: Cell)
    requires i < m <= |Centers(v)| && Covered(RowAreas(v, i, |Centers(v)|), cell)
    ensures Covered(AlignmentAreas(v, m), cell)
  {
    hide Centers, RowAreas, Covered;
    CoveredConcat(AlignmentAreas(v, m - 1), RowAreas(v, m - 1, |Centers(v)|), cell);
    if i < m - 1 {
      AlignmentCovered(v, i, m - 1, cell);
    }
  }

  lemma {:induction false} CoveredAt(areas: seq<Area>, k: nat, cell: Cell)
    requires k < |areas| && areas[k].Contains(cell)
    ensures Covered(areas, cell)
  {
    if k > 0 {
      CoveredAt(areas[1..], k - 1, cell);
    }
  }

  lemma FixedCovered(v: Version, cell: Cell)
    requires InMatrix(Size(v), cell.r, cell.c)
    requires InFinder(Size(v), cell.r, cell.c) || InTiming(Size(v), cell.r, cell.c)
          || InFormatArea(Size(v), cell.r, cell.c) || InVersion(v, cell.r, cell.c)
    ensures Covered(FixedAreas(v), cell)
  {
    var areas, n := FixedAreas(v), Size(v);
    if InVersion(v, cell.r, cell.c) {
      CoveredAt(areas, if cell.r < 6 then 5 else 6, cell);
    } else if cell.r <= 8 && cell.c <= 8 {
      CoveredAt(areas, 0, cell);
    } else if cell.r <= 8 && cell.c >= n - 8 {
      CoveredAt(areas, 1, cell);
    } else if cell.r >= n - 8 {
      CoveredAt(areas, 2, cell);
    } else {
      CoveredAt(areas, if cell.r == 6 then 3 else 4, cell);
    }
  }

  lemma ReservedIsCovered(v: Version, cell: Cell)
    requires InMatrix(Size(v), cell.r, cell.c) && Reserved(v, cell.r, cell.c)
    ensures Covered(Areas(v), cell)
  {
    CoveredConcat(FixedAreas(v), AlignmentAreas(v, |Centers(v)|), cell);
    var n := Size(v);
    if InFinder(n, cell.r, cell.c) || InTiming(n, cell.r, cell.c)
      || InFormatArea(n, cell.r, cell.c) || InVersion(v, cell.r, cell.c) {
      FixedCovered(v, cell);
    } else {
      var centers := Centers(v);
      var i, j := NearIndex(centers, cell.r), NearIndex(centers, cell.c);
      NearFacts(v, cell.r);
      NearFacts(v, cell.c);
      hide Centers, NearIndex, FixedAreas, PairAreas, RowAreas, AlignmentAreas, Covered;
      CenterFacts(v, i);
      CenterFacts(v, j);
      PairCovered(n, centers[i], centers[j], cell);
      RowCovered(v, i, j, |centers|, cell);
      AlignmentCovered(v, i, |centers|, cell);
    }
  }

  // ---- Adding up the areas ----

  // The alignment modules off the timing lines in the first j patterns of centre row i,
  // when there are k centres.
  function RowCount(k: nat, i: nat, j: nat): int {
    if j == 0 then 0
    else if i == 0 then 20 * (j - 1) - (if j == k then 20 else 0)
    else if i < k - 1 then 25 * j - 5
    else 25 * j - 25
  }

  function RowsCount(k: nat, i: nat): int {
    if i == 0 then 0 else RowsCount(k, i - 1) + RowCount(k, i - 1, k)
  }

  lemma TotalOfOne(a: Area)
    ensures TotalArea([a]) == a.Count()
  {
    assert [a][1..] == [];
  }

  lemma TotalOfTwo(a: Area, b: Area)
    ensures TotalArea([a, b]) == a.Count() + b.Count()
  {
    assert [a, b][1..] == [b];
    TotalOfOne(b);
  }

  lemma PairTotal(n: int, a: int, b: int)
    ensures TotalArea(PairAreas(n, a, b)) == if Corner(n, a, b) then 0 else if a == 6 || b == 6 then 20 else 25
  {
    var areas := PairAreas(n, a, b);
    if |areas| == 2 {
      assert areas == [areas[0], areas[1]];
      TotalOfTwo(areas[0], areas[1]);
    } else if |areas| == 1 {
      assert areas == [areas[0]];
      TotalOfOne(areas[0]);
    }
  }

  lemma PairCount(n: int, k: nat, i: nat, j: nat, a: int, b: int)
    requires n >= 21 && k >= 2 && i < k && 0 < j <= k
    requires if i == 0 then a == 6 else if i == k - 1 then a == n - 7 else 20 <= a <= n - 23
    requires if j == 1 then b == 6 else if j == k then b == n - 7 else 20 <= b <= n - 23
    ensures RowCount(k, i, j) - RowCount(k, i, j - 1)
         == if Corner(n, a, b) then 0 else if a == 6 || b == 6 then 20 else 25
  {}

  lemma {:induction false} RowTotal(v: Version, i: nat, j: nat)
    requires i < |Centers(v)| && j <= |Centers(v)|
    ensures TotalArea(RowAreas(v, i, j)) == RowCount(|Centers(v)|, i, j)
  {
    if j > 0 {
      var n, k, a, b := Size(v), |Centers(v)|, Centers(v)[i], Centers(v)[j - 1];
      CenterFacts(v, i);
      CenterFacts(v, j - 1);
      CoveredConcat(RowAreas(v, i, j - 1), PairAreas(n, a, b), Cell(0, 0));
      RowTotal(v, i, j - 1);
      hide Centers, PairAreas, RowAreas, Corner, Size;
      PairTotal(n, a, b);
      PairCount(n, k, i, j, a, b);
    }
  }

  lemma TotalOfNone()
    ensures TotalArea([]) == 0
  {}

  lemma {:induction false} AlignmentTotal(v: Version, i: nat)
    requires i <= |Centers(v)|
    ensures TotalArea(AlignmentAreas(v, i)) == RowsCount(|Centers(v)|, i)
  {
    hide Centers, RowAreas, RowCount, TotalArea;
    if i == 0 {
      TotalOfNone();
    } else {
      var k := |Centers(v)|;
      AlignmentTotal(v, i - 1);
      RowTotal(v, i - 1, k);
      CoveredConcat(AlignmentAreas(v, i - 1), RowAreas(v, i - 1, k), Cell(0, 0));
    }
  }

  lemma TotalOfAll(a: Area, b: Area, c: Area, d: Area, e: Area, rest: seq<Area>)
    ensures TotalArea([a] + [b, c] + [d, e] + rest)
         == a.Count() + (b.Count() + c.Count()) + (d.Count() + e.Count()) + TotalArea(rest)
  {
    hide *;
    TotalOfOne(a);
    TotalOfTwo(b, c);
    TotalOfTwo(d, e);
    CoveredConcat([a], [b, c], Cell(0, 0));
    CoveredConcat([a] + [b, c], [d, e], Cell(0, 0));
    CoveredConcat([a] + [b, c] + [d, e], rest, Cell(0, 0));
  }

  lemma CountOf(a: Area, height: nat, width: nat, count: nat)
    requires a.r1 == a.r0 + height && a.c1 == a.c0 + width && count == height * width
    ensures a.Count() == count
  {}

  lemma FixedCounts(n: nat)
    requires n >= 21
    ensures Area(0, 9, 0, 9).Count() == 81
    ensures Area(0, 9, n - 8, n).Count() == 72 && Area(n - 8, n, 0, 9).Count() == 72
    ensures Area(6, 7, 9, n - 8).Count() == n - 17 && Area(9, n - 8, 6, 7).Count() == n - 17
    ensures Area(0, 6, n - 11, n - 8).Count() == 18 && Area(n - 11, n - 8, 0, 6).Count() == 18
  {
    hide *;
    CountOf(Area(0, 9, 0, 9), 9, 9, 81);
    CountOf(Area(0, 9, n - 8, n), 9, 8, 72);
    CountOf(Area(n - 8, n, 0, 9), 8, 9, 72);
    CountOf(Area(6, 7, 9, n - 8), 1, n - 17, n - 17);
    CountOf(Area(9, n - 8, 6, 7), n - 17, 1, n - 17);
    CountOf(Area(0, 6, n - 11, n - 8), 6, 3, 18);
    CountOf(Area(n - 11, n - 8, 0, 6), 3, 6, 18);
  }

  lemma FixedTotal(v: Version)
    ensures TotalArea(FixedAreas(v)) == 225 + 2 * (Size(v) - 17) + if v >= 7 then 36 else 0
  {
    FixedCounts(Size(v));
    hide TotalArea, Size, Area.Count;
    var n := Size(v);
    var f, g := Area(0, 6, n - 11, n - 8), Area(n - 11, n - 8, 0, 6);
    TotalOfNone();
    TotalOfTwo(f, g);
    TotalOfAll(Area(0, 9, 0, 9), Area(0, 9, n - 8, n), Area(n - 8, n, 0, 9), Area(6, 7, 9, n - 8), Area(9, n - 8, 6, 7),
               if v >= 7 then [f, g] else []);
  }

  // The values of RowsCount for the numbers of centres that occur.
  lemma RowsCounts()
    ensures RowsCount(0, 0) == 0 && RowsCount(2, 2) == 25 && RowsCount(3, 3) == 140 && RowsCount(4, 4) == 305
  {
    assert RowsCount(2, 1) == 0;
    assert RowsCount(3, 1) == 20;
    assert RowsCount(3, 2) == 90;
    assert RowsCount(4, 1) == 40;
    assert RowsCount(4, 2) == 135;
    assert RowsCount(4, 3) == 230;
  }

  lemma ModuleCounts(v: Version)
    ensures Size(v) * Size(v) - (225 + 2 * (Size(v) - 17) + (if v >= 7 then 36 else 0)
              + RowsCount(|Centers(v)|, |Centers(v)|)) >= 8 * TotalCodewords(v)
  {
    RowsCounts();
    hide RowsCount;
  }

  lemma AreasLeaveRoom(v: Version)
    ensures Size(v) * Size(v) - TotalArea(Areas(v)) >= 8 * TotalCodewords(v)
  {
    FixedTotal(v);
    AlignmentTotal(v, |Centers(v)|);
    ModuleCounts(v);
    hide Centers, FixedAreas, AlignmentAreas, TotalArea, RowsCount, TotalCodewords;
    CoveredConcat(FixedAreas(v), AlignmentAreas(v, |Centers(v)|), Cell(0, 0));
  }

  // Every version's zigzag has a module for every bit of every codeword.
  lemma RoomForAllCodewords(v: Version)
    ensures |Slots(v)| >= 8 * TotalCodewords(v)
  {
    var n, slots := Size(v), Slots(v);
    ZigzagIsBijection(v);
    AreasLeaveRoom(v);
    hide Reserved, Areas, Covered, TotalArea, Slots, SlotIndex, TotalCodewords, Indexed;
    forall cell: Cell | InMatrix(n, cell.r, cell.c)
      ensures Covered(Areas(v), cell) || cell in Listed(slots)
    {
      if Reserved(v, cell.r, cell.c) {
        ReservedIsCovered(v, cell);
      } else {
        assert slots[SlotIndex(v, cell.r, cell.c)] == cell;
      }
    }
    ListIsLong(n, Areas(v), slots);
  }
}
