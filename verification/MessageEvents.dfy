// The tables shared by the user socket and the conversation pane,
// src/ui/api/conversationMessageEvents.ts: local echoes, read receipts, and older pages
// against a refetched newest page.
module MessageEvents {
  import Utf8

  // ---- Originating-tab echoes ----

  const LOCAL_ECHO_TTL_MS := 60000

  type Echoes = map<string, int>

  // Whether a message was sent by this tab recently enough to count as its echo.
  predicate FreshEcho(echoes: Echoes, id: string, now: int) {
    id in echoes && now - echoes[id] <= LOCAL_ECHO_TTL_MS
  }

  class EchoTable {
    var echoes: Echoes

    constructor ()
      ensures echoes == map[]
    {
      echoes := map[];
    }

    method NoteLocalMessageSent(id: string, now: int)
      modifies this
      ensures id == "" ==> echoes == old(echoes)
      ensures id != "" ==>
        echoes == (map m | m in old(echoes) && FreshEcho(old(echoes), m, now) :: old(echoes)[m])[id := now]
    {
      if id == "" {
        return;
      }
      var rest := echoes.Keys;
      while rest != {}
        invariant rest <= old(echoes).Keys
        invariant echoes == map m | m in old(echoes) && (m in rest || FreshEcho(old(echoes), m, now)) :: old(echoes)[m]
        decreases |rest|
      {
        var m :| m in rest;
        if now - echoes[m] > LOCAL_ECHO_TTL_MS {
          echoes := echoes - {m};
        }
        rest := rest - {m};
      }
      echoes := echoes[id := now];
    }

    // Asking forgets the id, fresh or expired, so the next message of that id is no echo.
    method ConsumeLocalMessageEcho(id: string, now: int) returns (echo: bool)
      modifies this
      ensures echo == FreshEcho(old(echoes), id, now)
      ensures echoes == old(echoes) - {id}
    {
      if id !in echoes {
        return false;
      }
      var at := echoes[id];
      echoes := echoes - {id};
      return now - at <= LOCAL_ECHO_TTL_MS;
    }
  }

  // ---- Read receipts ----

  // A read time, compared as text: unit by unit. The empty text stands for unread.
  type Time = seq<Utf8.Unit>

  predicate Earlier(a: Time, b: Time) {
    b != [] && (a == [] || a[0] < b[0] || (a[0] == b[0] && Earlier(a[1..], b[1..])))
  }

  datatype Message = Message(id: string, readAt: Time)
  datatype Receipt = Receipt(messageIds: seq<string>, readAt: Time)

  // The comparison of texts is a strict total order.
  lemma {:induction false} EarlierIsTotal(a: Time, b: Time, c: Time)
    ensures !Earlier(a, a)
    ensures Earlier(a, b) && Earlier(b, c) ==> Earlier(a, c)
    ensures a != b ==> Earlier(a, b) || Earlier(b, a)
  {
    if a != [] {
      EarlierIsTotal(a[1..], if b == [] then [] else b[1..], if c == [] then [] else c[1..]);
      if b != [] && a[0] == b[0] && a[1..] == b[1..] {
        assert a == [a[0]] + a[1..] && b == [b[0]] + b[1..];
      }
    }
  }

  // The row is marked by the receipt, and does not carry its time or a later one already.
  predicate Affects(receipt: Receipt, row: Message) {
    row.id in receipt.messageIds && Earlier(row.readAt, receipt.readAt)
  }

  function Marked(row: Message, receipt: Receipt): Message {
    if Affects(receipt, row) then row.(readAt := receipt.readAt) else row
  }

  function Applied(rows: seq<Message>, receipt: Receipt): (next: seq<Message>)
    ensures |next| == |rows|
  {
    seq(|rows|, k requires 0 <= k < |rows| => Marked(rows[k], receipt))
  }

  // What the two variants ask of a row, put together.
  lemma AffectsCases(receipt: Receipt, row: Message)
    ensures receipt.readAt == [] || receipt.messageIds == [] ==> !Affects(receipt, row)
    ensures receipt.readAt != [] ==>
      (Affects(receipt, row) <==>
       row.id in receipt.messageIds && (row.readAt == [] || Earlier(row.readAt, receipt.readAt)))
    ensures Affects(receipt, row) <==> Marked(row, receipt) != row
  {
    EarlierIsTotal(receipt.readAt, receipt.readAt, []);
  }

  lemma MarkedCases(row: Message, receipt: Receipt)
    ensures Marked(row, receipt) == if Affects(receipt, row) then row.(readAt := receipt.readAt) else row
  {}

  // The copying variant: the same array comes back exactly when nothing changed.
  method ApplyReadReceipt(rows: array<Message>, receipt: Receipt) returns (r: array<Message>)
    ensures r[..] == Applied(rows[..], receipt)
    ensures r == rows <==> Applied(rows[..], receipt) == rows[..]
    ensures r != rows ==> fresh(r)
  {
    hide Affects, Marked, Earlier;
    forall k | 0 <= k < rows.Length
      ensures receipt.readAt == [] || receipt.messageIds == [] ==> Marked(rows[k], receipt) == rows[k]
    {
      AffectsCases(receipt, rows[k]);
    }
    if receipt.readAt == [] || |receipt.messageIds| == 0 {
      return rows;
    }
    var changed := false;
    var next := new Message[rows.Length](k requires 0 <= k < rows.Length reads rows => rows[k]);
    for k := 0 to rows.Length
      invariant forall i :: 0 <= i < k ==> next[i] == Marked(rows[i], receipt)
      invariant forall i :: k <= i < rows.Length ==> next[i] == rows[i]
      invariant changed <==> exists i :: 0 <= i < k && next[i] != rows[i]
    {
      var row := rows[k];
      AffectsCases(receipt, row);
      MarkedCases(row, receipt);
      if row.id in receipt.messageIds && !(row.readAt != [] && !Earlier(row.readAt, receipt.readAt)) {
        changed := true;
        next[k] := row.(readAt := receipt.readAt);
      }
    }
    r := if changed then next else rows;
    assert next[..] == Applied(rows[..], receipt);
    if i :| 0 <= i < rows.Length && next[i] != rows[i] {
      assert next[..][i] != rows[..][i];
    }
  }

  // The in-place variant changes a draft to the same rows.
  method ApplyReadReceiptToDraft(rows: array<Message>, receipt: Receipt)
    modifies rows
    ensures rows[..] == Applied(old(rows[..]), receipt)
  {
    hide Affects, Marked, Earlier;
    ghost var was := rows[..];
    forall k | 0 <= k < |was|
      ensures receipt.readAt == [] ==> Marked(was[k], receipt) == was[k]
    {
      AffectsCases(receipt, was[k]);
    }
    if receipt.readAt == [] {
      return;
    }
    for k := 0 to rows.Length
      invariant forall i :: 0 <= i < k ==> rows[i] == Marked(was[i], receipt)
      invariant forall i :: k <= i < rows.Length ==> rows[i] == was[i]
    {
      var row := rows[k];
      AffectsCases(receipt, row);
      MarkedCases(row, receipt);
      if row.id in receipt.messageIds && (row.readAt == [] || Earlier(row.readAt, receipt.readAt)) {
        rows[k] := row.(readAt := receipt.readAt);
      }
    }
  }

  // ---- Any number of receipts ----

  function MarkedByAll(row: Message, receipts: seq<Receipt>): (next: Message)
    ensures next.id == row.id
  {
    if receipts == [] then row
    else Marked(MarkedByAll(row, receipts[..|receipts| - 1]), receipts[|receipts| - 1])
  }

  function AppliedAll(rows: seq<Message>, receipts: seq<Receipt>): (next: seq<Message>)
    ensures |next| == |rows|
  {
    if receipts == [] then rows
    else Applied(AppliedAll(rows, receipts[..|receipts| - 1]), receipts[|receipts| - 1])
  }

  // The latest of the row's own time and those of the receipts that mark it.
  ghost predicate IsLatest(row: Message, receipts: seq<Receipt>, t: Time) {
    && (t == row.readAt || exists r :: r in receipts && row.id in r.messageIds && r.readAt == t)
    && !Earlier(t, row.readAt)
    && (forall r :: r in receipts && row.id in r.messageIds ==> !Earlier(t, r.readAt))
  }

  lemma LatestIsUnique(row: Message, a: seq<Receipt>, b: seq<Receipt>, t: Time, u: Time)
    requires IsLatest(row, a, t) && IsLatest(row, b, u) && forall r :: r in a <==> r in b
    ensures t == u
  {
    EarlierIsTotal(t, u, t);
    hide Earlier;
  }

  lemma LatestMore(row: Message, before: seq<Receipt>, r: Receipt, receipts: seq<Receipt>, t: Time)
    requires IsLatest(row, before, t) && receipts == before + [r]
    ensures IsLatest(row, receipts, if row.id in r.messageIds && Earlier(t, r.readAt) then r.readAt else t)
  {
    assert r in receipts && forall x :: x in receipts <==> x in before || x == r;
    var u := r.readAt;
    EarlierIsTotal(u, u, u);
    EarlierIsTotal(t, u, row.readAt);
    forall x | x in before && row.id in x.messageIds
      ensures Earlier(t, u) && Earlier(u, x.readAt) ==> Earlier(t, x.readAt)
    {
      EarlierIsTotal(t, u, x.readAt);
    }
    hide Earlier;
  }

  lemma {:induction false} RowEndsAtLatest(row: Message, receipts: seq<Receipt>)
    ensures IsLatest(row, receipts, MarkedByAll(row, receipts).readAt)
  {
    EarlierIsTotal(row.readAt, [], []);
    hide Earlier;
    if receipts != [] {
      var n := |receipts| - 1;
      var before, r := receipts[..n], receipts[n];
      var t := MarkedByAll(row, before).readAt;
      RowEndsAtLatest(row, before);
      assert receipts == before + [r];
      LatestMore(row, before, r, receipts, t);
    }
  }

  lemma {:induction false} AppliedAllAt(rows: seq<Message>, receipts: seq<Receipt>, k: nat)
    requires k < |rows|
    ensures AppliedAll(rows, receipts)[k] == MarkedByAll(rows[k], receipts)
  {
    hide Marked;
    if receipts != [] {
      AppliedAllAt(rows, receipts[..|receipts| - 1], k);
    }
  }

  // After any receipts, a row carries the latest of its own time and those that mark it.
  lemma ReceiptsEndAtLatest(rows: seq<Message>, receipts: seq<Receipt>, k: nat)
    requires k < |rows|
    ensures var row := AppliedAll(rows, receipts)[k];
      row.id == rows[k].id && IsLatest(rows[k], receipts, row.readAt)
  {
    AppliedAllAt(rows, receipts, k);
    RowEndsAtLatest(rows[k], receipts);
    hide AppliedAll, MarkedByAll, IsLatest;
  }

  // So receipts may arrive in any order, and more than once.
  lemma ReceiptsCommute(rows: seq<Message>, a: seq<Receipt>, b: seq<Receipt>)
    requires forall r :: r in a <==> r in b
    ensures AppliedAll(rows, a) == AppliedAll(rows, b)
  {
    hide AppliedAll, IsLatest;
    forall k | 0 <= k < |rows|
      ensures AppliedAll(rows, a)[k] == AppliedAll(rows, b)[k]
    {
      ReceiptsEndAtLatest(rows, a, k);
      ReceiptsEndAtLatest(rows, b, k);
      LatestIsUnique(rows[k], a, b, AppliedAll(rows, a)[k].readAt, AppliedAll(rows, b)[k].readAt);
    }
  }

  // ---- A refetched newest page against the older pages already loaded ----

  datatype Row = Row(id: string, text: string)

  datatype Reconciled = Reconciled(older: seq<Row>, reanchor: bool)

  predicate HasId(rows: seq<Row>, id: string) {
    id != "" && exists k :: 0 <= k < |rows| && rows[k].id == id
  }

  predicate Overlaps(a: seq<Row>, b: seq<Row>) {
    exists k :: 0 <= k < |a| && HasId(b, a[k].id)
  }

  // The rows that slid out of the newest page.
  function Slid(previous: seq<Row>, next: seq<Row>, older: seq<Row>): seq<Row> {
    if previous == [] then []
    else
      var n := |previous| - 1;
      var id := previous[n].id;
      if id != "" && !HasId(next, id) && !HasId(older, id) then Slid(previous[..n], next, older) + [previous[n]]
      else Slid(previous[..n], next, older)
  }

  function Reconcile(previous: seq<Row>, next: seq<Row>, older: seq<Row>): Reconciled {
    if previous == [] || next == [] then Reconciled(older, false)
    else if !Overlaps(previous, next) then Reconciled([], true)
    else Reconciled(Slid(previous, next, older) + older, false)
  }

  // A conversation: rows are only ever appended, each with an id of its own.
  ghost predicate IsLog(log: seq<Row>) {
    && (forall i :: 0 <= i < |log| ==> log[i].id != "")
    && (forall i, j :: 0 <= i < j < |log| ==> log[i].id != log[j].id)
  }

  // The rows from lo to hi, in any order.
  ghost predicate IsInterval(rows: seq<Row>, log: seq<Row>, lo: int, hi: int) {
    0 <= lo <= hi <= |log| && multiset(rows) == multiset(log[lo..hi])
  }

  lemma IntervalIds(rows: seq<Row>, log: seq<Row>, lo: int, hi: int, i: int)
    requires IsLog(log) && IsInterval(rows, log, lo, hi) && 0 <= i < |log|
    ensures HasId(rows, log[i].id) <==> lo <= i < hi
  {
    var part := log[lo..hi];
    if lo <= i < hi {
      assert part[i - lo] == log[i];
      assert log[i] in multiset(part);
      assert log[i] in rows;
    }
    if HasId(rows, log[i].id) {
      var k :| 0 <= k < |rows| && rows[k].id == log[i].id;
      assert rows[k] in multiset(rows);
      assert rows[k] in part;
    }
  }

  lemma SlidMore(rows: seq<Row>, row: Row, next: seq<Row>, older: seq<Row>)
    ensures Slid(rows + [row], next, older) == Slid(rows, next, older) +
      if row.id != "" && !HasId(next, row.id) && !HasId(older, row.id) then [row] else []
  {
    assert (rows + [row])[..|rows|] == rows;
  }

  function Middle(low: int, x: int, high: int): int {
    if x <= low then low else if x <= high then x else high
  }

  lemma OneMoreRow(log: seq<Row>, a: int, i: int, row: Row)
    requires 0 <= a <= i < |log| && row == log[i]
    ensures log[a..i + 1] == log[a..i] + [row]
  {}

  lemma MiddleMore(a: int, start: int, i: int)
    requires a <= i
    ensures start <= i ==> Middle(a, start, i + 1) == Middle(a, start, i)
    ensures start > i ==> Middle(a, start, i) == i && Middle(a, start, i + 1) == i + 1
  {}

  lemma AppendNothing(rows: seq<Row>)
    ensures rows + [] == rows
  {}

  lemma SlidStep(log: seq<Row>, a: int, i: int, start: int, end: int, next: seq<Row>, older: seq<Row>, lo: int)
    requires IsLog(log) && 0 <= a <= i < end <= |log| && 0 <= start <= end
    requires next == log[start..end] && IsInterval(older, log, lo, a)
    requires Slid(log[a..i], next, older) == log[a..Middle(a, start, i)]
    ensures Slid(log[a..i + 1], next, older) == log[a..Middle(a, start, i + 1)]
  {
    var row := log[i];
    IntervalIds(next, log, start, end, i);
    IntervalIds(older, log, lo, a, i);
    assert row.id != "";
    hide *;
    OneMoreRow(log, a, i, row);
    SlidMore(log[a..i], row, next, older);
    MiddleMore(a, start, i);
    AppendNothing(Slid(log[a..i], next, older));
  }

  // Only the rows that the new page no longer reaches slide out.
  lemma {:induction false} SlidIsInterval(log: seq<Row>, a: int, c: int, start: int, end: int,
                                          next: seq<Row>, older: seq<Row>, lo: int)
    requires IsLog(log) && 0 <= a <= c <= end <= |log| && 0 <= start <= end
    requires next == log[start..end] && IsInterval(older, log, lo, a)
    ensures Slid(log[a..c], next, older) == log[a..Middle(a, start, c)]
  {
    if a == c {
      assert log[a..c] == [];
      assert Slid([], next, older) == [];
    } else {
      hide Slid, HasId, IsInterval, IsLog, Middle;
      var i := c - 1;
      SlidIsInterval(log, a, i, start, end, next, older, lo);
      SlidStep(log, a, i, start, end, next, older, lo);
    }
  }

  lemma OverlapIffJoined(log: seq<Row>, a: int, b: int, start: int, end: int)
    requires IsLog(log) && 0 <= a < b <= end <= |log| && 0 <= start < end
    ensures Overlaps(log[a..b], log[start..end]) <==> start < b
  {
    var previous := log[a..b];
    forall k | 0 <= k < |previous|
      ensures HasId(log[start..end], previous[k].id) <==> start <= a + k < end
    {
      IntervalIds(log[start..end], log, start, end, a + k);
    }
    assert start < b ==> HasId(log[start..end], previous[|previous| - 1].id);
  }

  lemma JoinIntervals(xs: seq<Row>, ys: seq<Row>, log: seq<Row>, lo: int, mid: int, hi: int)
    requires IsInterval(xs, log, lo, mid) && IsInterval(ys, log, mid, hi)
    ensures IsInterval(xs + ys, log, lo, hi) && IsInterval(ys + xs, log, lo, hi)
  {
    assert log[lo..hi] == log[lo..mid] + log[mid..hi];
  }

  lemma IntervalItself(log: seq<Row>, lo: int, hi: int)
    requires 0 <= lo <= hi <= |log|
    ensures IsInterval(log[lo..hi], log, lo, hi)
  {}

  lemma ReconcileCases(previous: seq<Row>, next: seq<Row>, older: seq<Row>)
    requires previous != [] && next != []
    ensures Reconcile(previous, next, older)
         == if Overlaps(previous, next) then Reconciled(Slid(previous, next, older) + older, false)
            else Reconciled([], true)
  {
    hide Overlaps, Slid;
  }

  lemma MiddleValues(a: int, start: int, b: int)
    requires a < b
    ensures a <= start < b ==> Middle(a, start, b) == start
    ensures start < a ==> Middle(a, start, b) == a
  {}

  // One refetch of the newest page, from rows a..b to rows start..end: the older pages are
  // carried on so that they end where the new page starts, or dropped when there is a hole.
  lemma RefetchJoins(log: seq<Row>, older: seq<Row>, lo: int, a: int, b: int, start: int, end: int)
    requires IsLog(log) && IsInterval(older, log, lo, a)
    requires a < b <= end <= |log| && 0 <= start < end
    ensures var r := Reconcile(log[a..b], log[start..end], older);
      && (r.reanchor <==> start >= b)
      && (r.reanchor ==> r.older == [])
      && (a <= start < b ==> IsInterval(r.older, log, lo, start))
      && (start < a ==> r.older == older)
  {
    var previous, next := log[a..b], log[start..end];
    hide Slid, IsLog, IsInterval, Overlaps, HasId, Reconcile, Middle;
    OverlapIffJoined(log, a, b, start, end);
    ReconcileCases(previous, next, older);
    SlidIsInterval(log, a, b, start, end, next, older, lo);
    MiddleValues(a, start, b);
    if a <= start < b {
      IntervalItself(log, a, start);
      JoinIntervals(older, log[a..start], log, lo, a, start);
    } else if start < a {
      assert log[a..a] + older == older;
    }
  }

  ghost predicate NoDuplicates(rows: seq<Row>) {
    forall i, j :: 0 <= i < j < |rows| ==> rows[i].id != rows[j].id
  }

  lemma {:induction false} CountInDistinct(rows: seq<Row>, row: Row)
    requires NoDuplicates(rows)
    ensures multiset(rows)[row] <= 1
  {
    if rows != [] {
      var n := |rows| - 1;
      CountInDistinct(rows[..n], row);
      assert rows == rows[..n] + [rows[n]];
      if rows[n] == row {
        assert row !in rows[..n];
      }
    }
  }

  lemma SameIdSameRow(rows: seq<Row>, log: seq<Row>, lo: int, hi: int, i: int, j: int)
    requires IsLog(log) && IsInterval(rows, log, lo, hi) && 0 <= i < j < |rows| && rows[i].id == rows[j].id
    ensures rows[i] == rows[j]
  {
    assert rows[i] in multiset(rows) && rows[j] in multiset(rows);
    assert rows[i] in log[lo..hi] && rows[j] in log[lo..hi];
  }

  lemma TwiceInMultiset<T>(s: seq<T>, i: int, j: int)
    requires 0 <= i < j < |s| && s[i] == s[j]
    ensures multiset(s)[s[i]] >= 2
  {
    assert s == s[..j] + [s[j]] + s[j + 1..];
    assert s[i] in s[..j];
    assert multiset(s) == multiset(s[..j]) + multiset([s[j]]) + multiset(s[j + 1..]);
  }

  lemma IntervalHasNoDuplicates(rows: seq<Row>, log: seq<Row>, lo: int, hi: int)
    requires IsLog(log) && IsInterval(rows, log, lo, hi)
    ensures NoDuplicates(rows)
  {
    forall i, j | 0 <= i < j < |rows|
      ensures rows[i].id != rows[j].id
    {
      if rows[i].id == rows[j].id {
        SameIdSameRow(rows, log, lo, hi, i, j);
        CountInDistinct(log[lo..hi], rows[i]);
        TwiceInMultiset(rows, i, j);
      }
    }
  }

  lemma OlderEndsBefore(older: seq<Row>, log: seq<Row>, lo: int, a: int)
    requires IsInterval(older, log, lo, a)
    ensures older != [] ==> lo < a
  {
    assert |multiset(older)| == |older| && |multiset(log[lo..a])| == a - lo;
  }

  lemma SharedIdIsDuplicate(xs: seq<Row>, ys: seq<Row>, id: string)
    requires HasId(xs, id) && HasId(ys, id)
    ensures !NoDuplicates(xs + ys)
  {
    var i :| 0 <= i < |xs| && xs[i].id == id;
    var j :| 0 <= j < |ys| && ys[j].id == id;
    assert (xs + ys)[i] == xs[i] && (xs + ys)[|xs| + j] == ys[j];
  }

  // A page that starts further back holds the last of the older rows again.
  lemma FurtherBackRepeats(log: seq<Row>, older: seq<Row>, next: seq<Row>, lo: int, a: int, start: int, end: int)
    requires IsLog(log) && IsInterval(older, log, lo, a) && lo < a && start < a <= end
    requires 0 <= start <= end <= |log| && next == log[start..end]
    ensures !NoDuplicates(older + next)
  {
    IntervalItself(log, start, end);
    IntervalIds(older, log, lo, a, a - 1);
    IntervalIds(next, log, start, end, a - 1);
    hide IsInterval, HasId, NoDuplicates, IsLog;
    SharedIdIsDuplicate(older, next, log[a - 1].id);
  }

  // The exact condition: after a refetch that joins, older pages and new page are free of
  // duplicates exactly when the page did not start further back, or nothing older is loaded.
  lemma DuplicateFreeIff(log: seq<Row>, older: seq<Row>, lo: int, a: int, b: int, start: int, end: int)
    requires IsLog(log) && IsInterval(older, log, lo, a)
    requires a < b <= end <= |log| && 0 <= start < end && start < b
    ensures NoDuplicates(Reconcile(log[a..b], log[start..end], older).older + log[start..end]) <==>
      start >= a || older == []
  {
    var previous, next := log[a..b], log[start..end];
    hide Reconcile, IsInterval, HasId, NoDuplicates, IsLog;
    var kept := Reconcile(previous, next, older).older;
    RefetchJoins(log, older, lo, a, b, start, end);
    if start >= a {
      IntervalItself(log, start, end);
      JoinIntervals(kept, next, log, lo, start, end);
      IntervalHasNoDuplicates(kept + next, log, lo, end);
      OlderEndsBefore(older, log, lo, a);
    } else if older == [] {
      assert kept + next == next;
      IntervalItself(log, start, end);
      IntervalHasNoDuplicates(next, log, start, end);
    } else {
      OlderEndsBefore(older, log, lo, a);
      FurtherBackRepeats(log, older, next, lo, a, start, end);
    }
  }

  // ---- Runs: refetches of the newest page, and older pages loaded by the reader ----

  // What the pane holds: the rows older than the newest page, how far back they reach, and
  // the rows of the conversation that the newest page covered when it was fetched.
  datatype View = View(older: seq<Row>, lo: nat, start: nat, end: nat, reanchored: bool)

  datatype Load = Newest(start: nat, end: nat) | Older(count: nat)

  const INITIAL: View := View([], 0, 0, 0, false)

  // The newest page ends at the newest row, and is empty only in an empty conversation. It
  // may start further back than the one before only while nothing older is loaded; a page of
  // a fixed size never does.
  ghost predicate Enabled(log: seq<Row>, v: View, load: Load) {
    match load
    case Newest(start, end) =>
      v.end <= end <= |log| && (if end == 0 then start == 0 else start < end) && (v.older != [] ==> v.start <= start)
    case Older(count) => count <= v.lo <= |log|
  }

  function Next(log: seq<Row>, v: View, load: Load): View
    requires Enabled(log, v, load) && v.start <= v.end <= |log|
  {
    match load
    case Newest(start, end) =>
      var r := Reconcile(log[v.start..v.end], log[start..end], v.older);
      View(r.older, if r.older == [] then start else v.lo, start, end, r.reanchor)
    case Older(count) =>
      v.(older := log[v.lo - count..v.lo] + v.older, lo := v.lo - count, reanchored := false)
  }

  ghost predicate IsRun(log: seq<Row>, loads: seq<Load>)
    decreases |loads|, 0
  {
    loads == [] ||
    var before := loads[..|loads| - 1];
    IsRun(log, before) && Enabled(log, After(log, before), loads[|loads| - 1])
  }

  function After(log: seq<Row>, loads: seq<Load>): (v: View)
    requires IsRun(log, loads)
    ensures v.start <= v.end <= |log|
    decreases |loads|, 1
  {
    if loads == [] then INITIAL else Next(log, After(log, loads[..|loads| - 1]), loads[|loads| - 1])
  }

  ghost predicate Contiguous(log: seq<Row>, v: View) {
    v.start <= v.end <= |log| && (v.end == 0 || v.start < v.end) && IsInterval(v.older, log, v.lo, v.start)
  }

  lemma EmptyInterval(older: seq<Row>, log: seq<Row>, lo: int, hi: int)
    requires IsInterval(older, log, lo, hi)
    ensures older == [] <==> lo == hi
    ensures IsInterval([], log, lo, lo) && IsInterval([], log, hi, hi)
  {
    assert |multiset(older)| == |older| && |multiset(log[lo..hi])| == hi - lo;
    assert log[lo..lo] == [] && log[hi..hi] == [];
  }

  lemma EmptyFrom(log: seq<Row>, start: int)
    requires 0 <= start <= |log|
    ensures IsInterval([], log, start, start)
  {
    assert log[start..start] == [];
  }

  lemma NewestKeepsContiguous(log: seq<Row>, v: View, start: nat, end: nat)
    requires IsLog(log) && Contiguous(log, v) && Enabled(log, v, Newest(start, end))
    ensures Contiguous(log, Next(log, v, Newest(start, end)))
  {
    EmptyInterval(v.older, log, v.lo, v.start);
    EmptyFrom(log, start);
    if v.end > 0 {
      RefetchJoins(log, v.older, v.lo, v.start, v.end, start, end);
      var older := Reconcile(log[v.start..v.end], log[start..end], v.older).older;
      if v.start <= start < v.end {
        EmptyInterval(older, log, v.lo, start);
      }
    }
    hide IsLog, IsInterval;
  }

  lemma StepKeepsContiguous(log: seq<Row>, v: View, load: Load)
    requires IsLog(log) && Contiguous(log, v) && Enabled(log, v, load)
    ensures Contiguous(log, Next(log, v, load))
  {
    match load {
      case Newest(start, end) => NewestKeepsContiguous(log, v, start, end);
      case Older(count) =>
        IntervalItself(log, v.lo - count, v.lo);
        JoinIntervals(log[v.lo - count..v.lo], v.older, log, v.lo - count, v.lo, v.start);
    }
    hide IsLog, Reconcile, IsInterval;
  }

  lemma {:induction false} RunIsContiguous(log: seq<Row>, loads: seq<Load>)
    requires IsLog(log) && IsRun(log, loads)
    ensures Contiguous(log, After(log, loads))
  {
    if loads == [] {
      EmptyFrom(log, 0);
    } else {
      RunIsContiguous(log, loads[..|loads| - 1]);
      hide Contiguous, Next, IsLog;
      StepKeepsContiguous(log, After(log, loads[..|loads| - 1]), loads[|loads| - 1]);
    }
  }

  // After any run of refetches and older loads, what the pane holds is one stretch of the
  // conversation without holes or duplicates, ending at the newest row it was told of.
  lemma TranscriptIsContiguous(log: seq<Row>, loads: seq<Load>)
    requires IsLog(log) && IsRun(log, loads)
    ensures var v := After(log, loads);
      IsInterval(v.older + log[v.start..v.end], log, v.lo, v.end) && NoDuplicates(v.older + log[v.start..v.end])
  {
    var v := After(log, loads);
    RunIsContiguous(log, loads);
    IntervalItself(log, v.start, v.end);
    JoinIntervals(v.older, log[v.start..v.end], log, v.lo, v.start, v.end);
    hide IsInterval, IsLog, NoDuplicates;
    IntervalHasNoDuplicates(v.older + log[v.start..v.end], log, v.lo, v.end);
  }
}
