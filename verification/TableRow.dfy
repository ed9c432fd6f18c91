// splitTableRow of src/ui/components/markdownRender.ts: a table row to its cells, with
// escaped pipes kept inside them.
module TableRow {
  import opened Text

  // The loop's state: finished cells, the current one, and whether a backslash is pending.
  datatype Row = Row(cells: seq<string>, current: string, escaped: bool)

  function Step(r: Row, c: char): Row {
    if r.escaped then r.(current := r.current + [c], escaped := false)
    else if c == '\\' then r.(escaped := true)
    else if c == '|' then Row(r.cells + [Trim(r.current)], "", false)
    else r.(current := r.current + [c])
  }

  function Scan(r: Row, s: string): Row {
    if s == "" then r else Step(Scan(r, s[..|s| - 1]), s[|s| - 1])
  }

  function Cells(r: Row): seq<string> {
    r.cells + [Trim(r.current)]
  }

  const START: Row := Row([], "", false)

  // One pipe is taken off either end.
  function StripFirst(s: string): string {
    if s != "" && s[0] == '|' then s[1..] else s
  }

  function StripLast(s: string): string {
    if s != "" && s[|s| - 1] == '|' then s[..|s| - 1] else s
  }

  function Split(line: string): seq<string> {
    Cells(Scan(START, StripLast(StripFirst(Trim(line)))))
  }

  lemma NothingScanned()
    ensures Scan(START, "") == START
  {}

  lemma SplitUnfold(line: string, inner: string)
    requires inner == StripLast(StripFirst(Trim(line)))
    ensures Split(line) == Cells(Scan(START, inner))
  {
    hide Trim, Scan;
  }

  lemma ScanMore(r: Row, s: string, c: char, longer: string)
    requires longer == s + [c]
    ensures Scan(r, longer) == Step(Scan(r, s), c)
  {
    hide Step;
    assert longer[..|s|] == s;
  }

  lemma StepCases(r: Row, c: char)
    ensures r.escaped ==> Step(r, c) == r.(current := r.current + [c], escaped := false)
    ensures !r.escaped && c == '\\' ==> Step(r, c) == r.(escaped := true)
    ensures !r.escaped && c == '|' ==> Step(r, c) == Row(r.cells + [Trim(r.current)], "", false)
    ensures !r.escaped && c != '\\' && c != '|' ==> Step(r, c) == r.(current := r.current + [c])
  {
    hide Trim;
  }

  lemma CellsOf(before: seq<string>, last: string, escaped: bool)
    ensures Cells(Row(before, last, escaped)) == before + [Trim(last)]
  {}

  method SplitTableRow(line: string) returns (cells: seq<string>)
    ensures cells == Split(line)
  {
    hide Trim, Step, Scan, Split, Cells, StripFirst, StripLast;
    var trimmed := StripLast(StripFirst(Trim(line)));
    SplitUnfold(line, trimmed);
    NothingScanned();
    cells := [];
    var current, escaped := "", false;
    ghost var read := "";
    for k := 0 to |trimmed|
      invariant read == trimmed[..k]
      invariant Row(cells, current, escaped) == Scan(START, read)
    {
      var ch := trimmed[k];
      ScanMore(START, read, ch, read + [ch]);
      StepCases(Row(cells, current, escaped), ch);
      read := read + [ch];
      if escaped {
        current := current + [ch];
        escaped := false;
        continue;
      }
      if ch == '\\' {
        escaped := true;
        continue;
      }
      if ch == '|' {
        cells := cells + [Trim(current)];
        current := "";
      } else {
        current := current + [ch];
      }
    }
    assert read == trimmed;
    CellsOf(cells, current, escaped);
    cells := cells + [Trim(current)];
  }

  // ---- The writer of rows that the splitter reads ----

  function EscapeChar(c: char): string {
    if c == '\\' || c == '|' then ['\\', c] else [c]
  }

  function Escape(cell: string): string {
    if cell == "" then "" else Escape(cell[..|cell| - 1]) + EscapeChar(cell[|cell| - 1])
  }

  function Write(cells: seq<string>): string
    requires cells != []
  {
    var n := |cells| - 1;
    if n == 0 then Escape(cells[0]) else Write(cells[..n]) + "|" + Escape(cells[n])
  }

  lemma {:induction false} ScanConcat(r: Row, s: string, t: string)
    ensures Scan(r, s + t) == Scan(Scan(r, s), t)
  {
    if t == "" {
      assert s + t == s;
    } else {
      var n := |t| - 1;
      var init, c := t[..n], t[n];
      ScanConcat(r, s, init);
      assert t == init + [c];
      hide Scan, Step;
      ScanMore(Scan(r, s), init, c, t);
      ScanMore(r, s + init, c, s + t);
    }
  }

  lemma ScanOne(r: Row, c: char)
    ensures Scan(r, [c]) == Step(r, c)
  {
    hide Step;
    assert [c][..0] == "";
  }

  lemma ScanEscapeChar(r: Row, c: char)
    requires !r.escaped
    ensures Scan(r, EscapeChar(c)) == r.(current := r.current + [c])
  {
    StepCases(r, c);
    if c == '\\' || c == '|' {
      StepCases(r, '\\');
      StepCases(r.(escaped := true), c);
    }
    hide Scan, Step;
    if c == '\\' || c == '|' {
      assert EscapeChar(c) == ['\\'] + [c];
      ScanConcat(r, ['\\'], [c]);
      ScanOne(r, '\\');
      ScanOne(r.(escaped := true), c);
    } else {
      ScanOne(r, c);
    }
  }

  lemma EscapeMore(init: string, c: char, cell: string)
    requires cell == init + [c]
    ensures Escape(cell) == Escape(init) + EscapeChar(c)
  {
    hide EscapeChar;
    assert cell[..|init|] == init;
  }

  lemma {:induction false} ScanEscape(r: Row, cell: string)
    requires !r.escaped
    ensures Scan(r, Escape(cell)) == r.(current := r.current + cell)
  {
    if cell == "" {
      assert r.current + cell == r.current;
    } else {
      var n := |cell| - 1;
      var init, c := cell[..n], cell[n];
      ScanEscape(r, init);
      assert cell == init + [c];
      EscapeMore(init, c, cell);
      hide Scan, Escape, EscapeChar;
      ScanConcat(r, Escape(init), EscapeChar(c));
      ScanEscapeChar(r.(current := r.current + init), c);
      assert r.current + init + [c] == r.current + cell;
    }
  }

  ghost predicate Trimmed(cells: seq<string>) {
    forall k :: 0 <= k < |cells| ==> Trim(cells[k]) == cells[k]
  }

  lemma {:induction false} TrimStartShrinks(s: string)
    ensures |TrimStart(s)| <= |s| && (s != "" && IsSpace(s[0]) ==> |TrimStart(s)| < |s|)
  {
    if s != "" && IsSpace(s[0]) {
      TrimStartShrinks(s[1..]);
    }
  }

  lemma {:induction false} TrimEndShrinks(s: string)
    ensures |TrimEnd(s)| <= |s| && (s != "" && IsSpace(s[|s| - 1]) ==> |TrimEnd(s)| < |s|)
  {
    if s != "" && IsSpace(s[|s| - 1]) {
      TrimEndShrinks(s[..|s| - 1]);
    }
  }

  lemma SolidEnds(cell: string)
    requires cell != "" && Trim(cell) == cell
    ensures !IsSpace(cell[0]) && !IsSpace(cell[|cell| - 1])
  {
    TrimStartShrinks(cell);
    TrimEndShrinks(TrimStart(cell));
    TrimEndShrinks(cell);
  }

  lemma {:induction false} TrimStartEnds(s: string)
    ensures var t := TrimStart(s); t != "" ==> !IsSpace(t[0])
  {
    if s != "" && IsSpace(s[0]) {
      TrimStartEnds(s[1..]);
    }
  }

  lemma {:induction false} TrimEndEnds(s: string)
    ensures var t := TrimEnd(s); t <= s && (t != "" ==> !IsSpace(t[|t| - 1]))
  {
    if s != "" && IsSpace(s[|s| - 1]) {
      TrimEndEnds(s[..|s| - 1]);
    }
  }

  lemma TrimTwice(s: string)
    ensures Trim(Trim(s)) == Trim(s)
  {
    TrimStartEnds(s);
    TrimEndEnds(TrimStart(s));
    if Trim(s) != "" {
      TrimOfSolid(Trim(s));
    }
  }

  lemma {:induction false} ScanTrims(s: string)
    ensures Trimmed(Scan(START, s).cells)
  {
    if s != "" {
      var n := |s| - 1;
      ScanTrims(s[..n]);
      TrimTwice(Scan(START, s[..n]).current);
    }
    hide Trim;
  }

  // The splitter's cells have no spaces around them.
  lemma SplitIsTrimmed(line: string)
    ensures Trimmed(Split(line))
  {
    var inner := StripLast(StripFirst(Trim(line)));
    ScanTrims(inner);
    TrimTwice(Scan(START, inner).current);
    hide Trim, Scan, StripFirst, StripLast;
  }

  lemma WriteMore(before: seq<string>, cell: string, cells: seq<string>)
    requires before != [] && cells == before + [cell]
    ensures Write(cells) == Write(before) + "|" + Escape(cell)
  {
    hide Escape;
    assert cells[..|before|] == before;
  }

  lemma WriteFirst(cell: string)
    ensures Write([cell]) == Escape(cell)
  {}

  // Scanning the cells written so far, a pipe, and one more cell.
  lemma ScanCell(row: string, r: Row, cell: string)
    requires Scan(START, row) == r && !r.escaped
    ensures Scan(START, row + "|" + Escape(cell)) == Row(r.cells + [Trim(r.current)], cell, false)
  {
    StepCases(r, '|');
    hide Scan, Step, Trim, Escape;
    ScanConcat(START, row, "|");
    ScanOne(r, '|');
    ScanConcat(START, row + "|", Escape(cell));
    ScanEscape(Row(r.cells + [Trim(r.current)], "", false), cell);
    assert "" + cell == cell;
  }

  lemma {:induction false} ScanWrite(cells: seq<string>)
    requires cells != [] && Trimmed(cells[..|cells| - 1])
    ensures Scan(START, Write(cells)) == Row(cells[..|cells| - 1], cells[|cells| - 1], false)
  {
    hide Scan, Step, Trim, Escape, Write;
    var n := |cells| - 1;
    var before, cell := cells[..n], cells[n];
    if n == 0 {
      assert cells == [cell];
      WriteFirst(cell);
      ScanEscape(START, cell);
      assert "" + cell == cell;
    } else {
      assert before[..n - 1] == cells[..n - 1];
      assert Trimmed(before[..n - 1]);
      ScanWrite(before);
      assert cells == before + [cell];
      WriteMore(before, cell, cells);
      ScanCell(Write(before), Row(before[..n - 1], before[n - 1], false), cell);
      assert before[..n - 1] + [before[n - 1]] == before;
    }
  }

  lemma StripBoth(mid: string, row: string)
    requires row == "|" + mid + "|"
    ensures StripLast(StripFirst(row)) == mid
  {
    assert row[1..] == mid + "|";
    assert row[1..][..|mid|] == mid;
  }

  lemma SplitOf(line: string, inner: string, r: Row)
    requires StripLast(StripFirst(Trim(line))) == inner && Scan(START, inner) == r
    ensures Split(line) == Cells(r)
  {}

  lemma SpaceIsNoPipe()
    ensures !IsSpace('|')
  {}

  lemma TrimFramed(mid: string, row: string)
    requires row == "|" + mid + "|"
    ensures Trim(row) == row
  {
    SpaceIsNoPipe();
    hide IsSpace, Trim;
    TrimOfSolid(row);
  }

  lemma SplitParts(before: seq<string>, last: string, cells: seq<string>, line: string)
    requires Trimmed(before) && Trim(last) == last && cells == before + [last]
    requires StripLast(StripFirst(Trim(line))) == Write(cells)
    ensures Split(line) == cells
  {
    hide *;
    assert cells[..|before|] == before;
    ScanWrite(cells);
    SplitOf(line, Write(cells), Row(before, last, false));
    CellsOf(before, last, false);
  }

  lemma SplitWritten(cells: seq<string>, line: string)
    requires cells != [] && Trimmed(cells) && StripLast(StripFirst(Trim(line))) == Write(cells)
    ensures Split(line) == cells
  {
    hide Trim, Split, Write, StripFirst, StripLast;
    var n := |cells| - 1;
    assert cells == cells[..n] + [cells[n]];
    SplitParts(cells[..n], cells[n], cells, line);
  }

  // A row written with outer pipes splits into its cells again exactly when they have no
  // spaces around them, whatever else they hold: pipes, backslashes, or nothing.
  lemma FramedRowRoundTripsIff(cells: seq<string>)
    requires cells != []
    ensures Split("|" + Write(cells) + "|") == cells <==> Trimmed(cells)
  {
    var row := "|" + Write(cells) + "|";
    SplitIsTrimmed(row);
    hide *;
    if Trimmed(cells) {
      TrimFramed(Write(cells), row);
      StripBoth(Write(cells), row);
      SplitWritten(cells, row);
    }
  }

  // ---- Without outer pipes ----

  lemma {:induction false} EscapeEnds(cell: string)
    requires cell != ""
    ensures Escape(cell) != "" && Escape(cell)[0] == EscapeChar(cell[0])[0]
    ensures Escape(cell)[|Escape(cell)| - 1] == cell[|cell| - 1]
  {
    var n := |cell| - 1;
    var init := cell[..n];
    EscapeMore(init, cell[n], cell);
    if n == 0 {
      assert Escape(init) == "";
    } else {
      EscapeEnds(init);
    }
    hide Escape;
  }

  // The first and the last character that a cell at that end gives to a row of several.
  function Opening(cell: string): char {
    if cell == "" then '|' else EscapeChar(cell[0])[0]
  }

  function Closing(cell: string): char {
    if cell == "" then '|' else cell[|cell| - 1]
  }

  lemma EscapeNothing()
    ensures Escape("") == ""
  {}

  lemma {:induction false} WriteEnds(cells: seq<string>)
    requires cells != [] && cells != [""]
    ensures var row := Write(cells);
      row != "" && row[0] == Opening(cells[0]) && row[|row| - 1] == Closing(cells[|cells| - 1])
  {
    hide Escape, EscapeChar, Write;
    var n := |cells| - 1;
    var before, cell := cells[..n], cells[n];
    if cell != "" {
      EscapeEnds(cell);
    } else {
      EscapeNothing();
    }
    if n == 0 {
      assert cells == [cell];
      WriteFirst(cell);
    } else {
      if before == [""] {
        WriteFirst("");
        EscapeNothing();
      } else {
        WriteEnds(before);
      }
      assert cells == before + [cell];
      WriteMore(before, cell, cells);
    }
  }

  lemma EscapeOfPipe(init: string, last: string)
    requires last == init + "|"
    ensures Escape(last) == Escape(init) + "\\" + "|"
  {
    EscapeMore(init, '|', last);
    assert EscapeChar('|') == "\\" + "|";
    hide Escape, EscapeChar;
  }

  lemma Regroup(row: string, init: string, last: string)
    requires last == init + "\\" + "|"
    ensures row + "|" + last == row + "|" + init + "\\" + "|"
  {}

  lemma WriteShorter(before: seq<string>, init: string, last: string, cells: seq<string>)
    requires last == init + "|" && cells == before + [last]
    ensures Write(cells) == Write(before + [init]) + "\\" + "|"
  {
    hide *;
    EscapeOfPipe(init, last);
    if before == [] {
      assert cells == [last] && before + [init] == [init];
      WriteFirst(last);
      WriteFirst(init);
    } else {
      WriteMore(before, last, cells);
      WriteMore(before, init, before + [init]);
      Regroup(Write(before), Escape(init), Escape(last));
    }
  }

  lemma StripsEscapedPipe(row: string, rest: string)
    requires row == rest + "\\" + "|" && row[0] != '|'
    ensures StripLast(StripFirst(row)) == rest + "\\"
  {
    assert row[..|row| - 1] == rest + "\\";
  }

  lemma TrimShrinks(s: string)
    ensures |Trim(s)| <= |s|
  {
    TrimStartShrinks(s);
    TrimEndShrinks(TrimStart(s));
  }

  // The escaped pipe at the end of a bare row is taken for the outer one: the last cell
  // comes back without it.
  lemma LastPipeIsLost(before: seq<string>, init: string, row: string)
    requires Trimmed(before) && row == Write(before + [init]) + "\\" + "|"
    requires Trim(row) == row && row[0] != '|'
    ensures Split(row) == before + [Trim(init)]
  {
    var shorter := before + [init];
    var r := Row(before, init, false);
    StripsEscapedPipe(row, Write(shorter));
    StepCases(r, '\\');
    hide Trim, Scan, Step, Write, Split, StripFirst, StripLast;
    assert shorter[..|before|] == before;
    ScanWrite(shorter);
    ScanConcat(START, Write(shorter), "\\");
    ScanOne(r, '\\');
    SplitOf(row, Write(shorter) + "\\", r.(escaped := true));
  }

  lemma SolidRow(row: string, first: string, last: string)
    requires row != "" && row[0] == Opening(first) && row[|row| - 1] == Closing(last)
    requires Trim(first) == first && Trim(last) == last
    ensures Trim(row) == row && (first != "" ==> row[0] != '|')
  {
    if first != "" {
      SolidEnds(first);
    }
    if last != "" {
      SolidEnds(last);
    }
    hide Trim;
    TrimOfSolid(row);
  }

  lemma StripsNothing(row: string)
    requires row != "" && row[0] != '|' && row[|row| - 1] != '|'
    ensures StripLast(StripFirst(row)) == row
  {}

  lemma {:induction false} ScanGrows(r: Row, s: string)
    ensures |Scan(r, s).cells| >= |r.cells|
  {
    hide Trim;
    if s != "" {
      ScanGrows(r, s[..|s| - 1]);
    }
  }

  lemma CellsCount(r: Row)
    ensures |Cells(r)| == |r.cells| + 1
  {}

  // A row whose inner part begins a written row has no more cells than that one.
  lemma NoMoreCells(cells: seq<string>, inner: string, line: string)
    requires cells != [] && Trimmed(cells) && inner <= Write(cells)
    requires StripLast(StripFirst(Trim(line))) == inner
    ensures |Split(line)| <= |cells|
  {
    var n := |cells| - 1;
    var rest := Write(cells)[|inner|..];
    assert Trimmed(cells[..n]);
    hide *;
    ScanWrite(cells);
    assert Write(cells) == inner + rest;
    ScanConcat(START, inner, rest);
    ScanGrows(Scan(START, inner), rest);
    SplitOf(line, inner, Scan(START, inner));
    CellsCount(Scan(START, inner));
  }

  lemma {:induction false} WriteCons(first: string, rest: seq<string>, cells: seq<string>)
    requires rest != [] && cells == [first] + rest
    ensures Write(cells) == Escape(first) + "|" + Write(rest)
  {
    hide Escape, Write;
    var n := |rest| - 1;
    var last := rest[n];
    if n == 0 {
      assert rest == [last] && cells == [first] + [last];
      WriteFirst(first);
      WriteFirst(last);
      WriteMore([first], last, cells);
    } else {
      var before := [first] + rest[..n];
      WriteCons(first, rest[..n], before);
      assert rest == rest[..n] + [last] && cells == before + [last];
      WriteMore(rest[..n], last, rest);
      WriteMore(before, last, cells);
    }
  }

  lemma StripsFirst(row: string, rest: string)
    requires row == "|" + rest
    ensures StripLast(StripFirst(row)) <= rest
  {
    assert row[1..] == rest;
  }

  lemma StripsLast(row: string, before: string)
    requires row == before + "|" && row[0] != '|'
    ensures StripLast(StripFirst(row)) == before
  {
    assert row[..|row| - 1] == before;
  }

  // An empty cell at the front gives the row a pipe that is taken for the outer one, and its
  // cell is lost.
  lemma FirstCellIsLost(cells: seq<string>, row: string)
    requires |cells| > 1 && Trimmed(cells) && cells[0] == "" && row == Write(cells) && Trim(row) == row
    ensures |Split(row)| < |cells|
  {
    var rest := cells[1..];
    assert Trimmed(rest);
    hide *;
    assert cells == [""] + rest;
    WriteCons("", rest, cells);
    EscapeNothing();
    assert row == "|" + Write(rest);
    StripsFirst(row, Write(rest));
    NoMoreCells(rest, StripLast(StripFirst(Trim(row))), row);
  }

  lemma LastCellIsLost(before: seq<string>, cells: seq<string>, row: string)
    requires before != [] && Trimmed(before) && cells == before + [""]
    requires row == Write(cells) && Trim(row) == row && row != "" && row[0] != '|'
    ensures |Split(row)| < |cells|
  {
    hide *;
    WriteMore(before, "", cells);
    EscapeNothing();
    assert Write(before) + "|" + "" == Write(before) + "|";
    StripsLast(row, Write(before));
    NoMoreCells(before, Write(before), row);
  }

  lemma LastCellIsCut(before: seq<string>, init: string, last: string, cells: seq<string>, row: string)
    requires Trimmed(before) && last == init + "|" && cells == before + [last]
    requires row == Write(cells) && Trim(row) == row && row != "" && row[0] != '|'
    ensures Split(row) != cells
  {
    hide *;
    WriteShorter(before, init, last, cells);
    LastPipeIsLost(before, init, row);
    TrimShrinks(init);
    assert (before + [Trim(init)])[|before|] != cells[|before|];
  }

  lemma OneEmptyCell()
    ensures Split(Write([""])) == [""]
  {}

  // Whether the splitter takes no character of a bare row for an outer pipe.
  ghost predicate KeepsEnds(cells: seq<string>)
    requires cells != []
  {
    var last := cells[|cells| - 1];
    cells[0] != "" && last != "" && last[|last| - 1] != '|'
  }

  lemma EndsInPipe(s: string)
    requires s != "" && s[|s| - 1] == '|'
    ensures s == s[..|s| - 1] + "|"
  {}

  lemma TrimmedRowRoundTripsIff(before: seq<string>, last: string, cells: seq<string>, row: string)
    requires cells == before + [last] && cells != [""] && Trimmed(cells) && row == Write(cells)
    ensures Split(row) == cells <==> KeepsEnds(cells)
  {
    assert Trim(cells[0]) == cells[0] && Trim(last) == cells[|before|] && Trimmed(before);
    hide Trim, Split, Write, EscapeChar, Trimmed, StripFirst, StripLast;
    WriteEnds(cells);
    SolidRow(row, cells[0], last);
    if cells[0] == "" {
      FirstCellIsLost(cells, row);
    } else if last == "" {
      LastCellIsLost(before, cells, row);
    } else if last[|last| - 1] == '|' {
      EndsInPipe(last);
      LastCellIsCut(before, last[..|last| - 1], last, cells, row);
    } else {
      StripsNothing(row);
      SplitWritten(cells, row);
    }
  }

  // The exact condition: a row written without outer pipes splits into its cells again
  // exactly when they have no spaces around them, and the row is empty, or neither end cell
  // is empty and the last does not end in a pipe. The splitter takes a pipe at either end for
  // an outer one, even the escaped one of a last cell.
  lemma BareRowRoundTripsIff(cells: seq<string>)
    requires cells != []
    ensures Split(Write(cells)) == cells <==> Trimmed(cells) && (cells == [""] || KeepsEnds(cells))
  {
    hide *;
    var row := Write(cells);
    SplitIsTrimmed(row);
    if cells == [""] {
      OneEmptyCell();
    } else if Trimmed(cells) {
      var n := |cells| - 1;
      assert cells == cells[..n] + [cells[n]];
      TrimmedRowRoundTripsIff(cells[..n], cells[n], cells, row);
    }
  }
}
