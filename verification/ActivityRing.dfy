// The agent-activity ring of src/ui/store/agentActivitySlice.ts: the last few actions of
// each instance, and the pruned set of those already shown.
module ActivityRing {
  import opened Options

  const RING_CAP := 4
  const REPLAY_WINDOW_MS := 300000

  datatype Item = Item(id: string, action: string, summary: string, ts: int)

  datatype Activity = Activity(
    byInstance: map<string, seq<Item>>,
    lastActionAt: map<string, int>,
    shown: map<string, map<string, int>>,
    counter: nat)

  const INITIAL: Activity := Activity(map[], map[], map[], 0)

  // ---- Ids ----

  function DigitOf(n: nat): (c: char)
    requires n < 10
    ensures '0' <= c <= '9'
  {
    '0' + n as char
  }

  function Decimal(n: nat): (digits: string)
    ensures digits != "" && forall k :: 0 <= k < |digits| ==> '0' <= digits[k] <= '9'
  {
    if n < 10 then [DigitOf(n)] else Decimal(n / 10) + [DigitOf(n % 10)]
  }

  // A time as text.
  function Show(ts: int): (text: string)
    ensures ':' !in text
  {
    if ts < 0 then "-" + Decimal(-ts) else Decimal(ts)
  }

  // The id of an action: its instance, its time, and the running count.
  function MakeId(instance: string, ts: int, counter: nat): string {
    instance + ":" + Show(ts) + ":" + Decimal(counter)
  }

  lemma {:induction false} DecimalIsInjective(m: nat, n: nat)
    requires Decimal(m) == Decimal(n)
    ensures m == n
  {
    var s, t := Decimal(m), Decimal(n);
    assert s[|s| - 1] == t[|t| - 1];
    if m >= 10 && n >= 10 {
      assert s[..|s| - 1] == t[..|t| - 1];
      DecimalIsInjective(m / 10, n / 10);
    } else {
      assert |Decimal(m / 10)| > 0 && |Decimal(n / 10)| > 0;
    }
  }

  lemma ShowParts(s: int)
    ensures Show(s) != "" && (Show(s)[0] == '-' <==> s < 0)
    ensures Decimal(if s < 0 then -s else s) == if s < 0 then Show(s)[1..] else Show(s)
  {}

  lemma ShowIsInjective(s: int, t: int)
    requires Show(s) == Show(t)
    ensures s == t
  {
    ShowParts(s);
    ShowParts(t);
    DecimalIsInjective(if s < 0 then -s else s, if t < 0 then -t else t);
  }

  lemma LastColon(prefix: string, digits: string, id: string)
    requires id == prefix + ":" + digits && ':' !in digits
    ensures |prefix| < |id| && id[|prefix|] == ':' && forall k :: |prefix| < k < |id| ==> id[k] != ':'
  {
    forall k | |prefix| < k < |id|
      ensures id[k] != ':'
    {
      assert id[k] == digits[k - |prefix| - 1];
    }
  }

  lemma SplitAtLastColon(p: string, x: string, q: string, y: string, id: string)
    requires id == p + ":" + x && id == q + ":" + y && ':' !in x && ':' !in y
    ensures p == q && x == y
  {
    LastColon(p, x, id);
    LastColon(q, y, id);
    assert |p| == |q|;
    assert p == id[..|p|] && q == id[..|q|] && x == id[|p| + 1..] && y == id[|q| + 1..];
  }

  // Ids tell instance, time and count, whatever the instance contains: two actions with one
  // id would have one count.
  lemma IdsAreDistinct(a: string, s: int, m: nat, b: string, t: int, n: nat)
    requires MakeId(a, s, m) == MakeId(b, t, n)
    ensures a == b && s == t && m == n
  {
    var id := MakeId(a, s, m);
    SplitAtLastColon(a + ":" + Show(s), Decimal(m), b + ":" + Show(t), Decimal(n), id);
    SplitAtLastColon(a, Show(s), b, Show(t), a + ":" + Show(s));
    DecimalIsInjective(m, n);
    ShowIsInjective(s, t);
  }

  // ---- One reducer step, as a specification ----

  function Buffer(s: Activity, instance: string): seq<Item> {
    if instance in s.byInstance then s.byInstance[instance] else []
  }

  function Shown(s: Activity, instance: string): map<string, int> {
    if instance in s.shown then s.shown[instance] else map[]
  }

  function Last(items: seq<Item>, n: nat): seq<Item> {
    if |items| <= n then items else items[|items| - n..]
  }

  function Max(a: int, b: int): int {
    if a >= b then a else b
  }

  // The time of an event: its own, or the clock's when it has none.
  function TimeOf(ts: int, now: int): int {
    if ts == 0 then now else ts
  }

  datatype Step =
    | Received(instance: string, action: string, summary: string, ts: int, now: int)
    | Surfaced(instance: string, id: string, ts: int, now: int)
    | Cleared(instance: string)

  function ItemOf(s: Activity, step: Step): Item
    requires step.Received?
  {
    var at := TimeOf(step.ts, step.now);
    Item(MakeId(step.instance, at, s.counter + 1), step.action, step.summary, at)
  }

  function Pruned(shown: map<string, int>, cutoff: int): map<string, int> {
    map id | id in shown && shown[id] >= cutoff :: shown[id]
  }

  function Next(s: Activity, step: Step): Activity {
    match step
    case Received(instance, _, summary, _, _) =>
      if instance == "" || summary == "" then s
      else
        var item := ItemOf(s, step);
        var last := if instance in s.lastActionAt then s.lastActionAt[instance] else 0;
        s.(counter := s.counter + 1,
           byInstance := s.byInstance[instance := Last(Buffer(s, instance) + [item], RING_CAP)],
           lastActionAt := s.lastActionAt[instance := Max(last, item.ts)])
    case Surfaced(instance, id, ts, now) =>
      if instance == "" || id == "" then s
      else
        var at := TimeOf(ts, now);
        s.(shown := s.shown[instance := Pruned(Shown(s, instance), at - REPLAY_WINDOW_MS)[id := at]])
    case Cleared(instance) =>
      if instance == "" then s
      else s.(byInstance := s.byInstance - {instance}, lastActionAt := s.lastActionAt - {instance},
              shown := s.shown - {instance})
  }

  class ActivityStore {
    var byInstance: map<string, seq<Item>>
    var lastActionAt: map<string, int>
    var shown: map<string, map<string, int>>
    var counter: nat

    ghost function Value(): Activity
      reads this
    {
      Activity(byInstance, lastActionAt, shown, counter)
    }

    constructor ()
      ensures Value() == INITIAL
    {
      byInstance, lastActionAt, shown, counter := map[], map[], map[], 0;
    }

    method AgentActionReceived(instance: string, action: string, summary: string, ts: int, now: int)
      modifies this
      ensures Value() == Next(old(Value()), Received(instance, action, summary, ts, now))
    {
      if instance == "" || summary == "" {
        return;
      }
      var at := TimeOf(ts, now);
      counter := counter + 1;
      var item := Item(MakeId(instance, at, counter), action, summary, at);
      var buffer := if instance in byInstance then byInstance[instance] else [];
      buffer := buffer + [item];
      if |buffer| > RING_CAP {
        buffer := buffer[|buffer| - RING_CAP..];
      }
      byInstance := byInstance[instance := buffer];
      var last := if instance in lastActionAt then lastActionAt[instance] else 0;
      lastActionAt := lastActionAt[instance := Max(last, at)];
    }

    method AgentActionSurfaced(instance: string, id: string, ts: int, now: int)
      modifies this
      ensures Value() == Next(old(Value()), Surfaced(instance, id, ts, now))
    {
      if instance == "" || id == "" {
        return;
      }
      var at := TimeOf(ts, now);
      var ids := if instance in shown then shown[instance] else map[];
      var kept := Prune(ids, at - REPLAY_WINDOW_MS);
      shown := shown[instance := kept[id := at]];
    }

    method Prune(ids: map<string, int>, cutoff: int) returns (kept: map<string, int>)
      ensures kept == Pruned(ids, cutoff)
    {
      kept := ids;
      var rest := ids.Keys;
      while rest != {}
        invariant rest <= ids.Keys
        invariant kept == map id | id in ids && (id in rest || ids[id] >= cutoff) :: ids[id]
        decreases |rest|
      {
        var key :| key in rest;
        if kept[key] < cutoff {
          kept := kept - {key};
        }
        rest := rest - {key};
      }
    }

    method AgentActivityInstanceCleared(instance: string)
      modifies this
      ensures Value() == Next(old(Value()), Cleared(instance))
    {
      if instance == "" {
        return;
      }
      byInstance := byInstance - {instance};
      lastActionAt := lastActionAt - {instance};
      shown := shown - {instance};
    }
  }

  // ---- Runs ----

  function After(steps: seq<Step>): Activity {
    if steps == [] then INITIAL else Next(After(steps[..|steps| - 1]), steps[|steps| - 1])
  }

  predicate Receives(step: Step, instance: string) {
    step.Received? && step.instance == instance && instance != "" && step.summary != ""
  }

  predicate Clears(step: Step, instance: string) {
    step.Cleared? && step.instance == instance && instance != ""
  }

  // The actions received for an instance since it was last cleared.
  function History(steps: seq<Step>, instance: string): seq<Item> {
    if steps == [] then []
    else
      var before, step := steps[..|steps| - 1], steps[|steps| - 1];
      if Clears(step, instance) then []
      else if Receives(step, instance) then History(before, instance) + [ItemOf(After(before), step)]
      else History(before, instance)
  }

  lemma LastMore(items: seq<Item>, item: Item, n: nat)
    requires n > 0
    ensures Last(Last(items, n) + [item], n) == Last(items + [item], n)
  {}

  lemma BufferAfter(s: Activity, step: Step, instance: string)
    ensures Buffer(Next(s, step), instance)
         == if Clears(step, instance) then []
            else if Receives(step, instance) then Last(Buffer(s, instance) + [ItemOf(s, step)], RING_CAP)
            else Buffer(s, instance)
  {
    hide ItemOf, Max, Shown, Pruned, Last;
  }

  // The buffer is the last four actions received.
  lemma {:induction false} BufferIsLastFour(steps: seq<Step>, instance: string)
    ensures Buffer(After(steps), instance) == Last(History(steps, instance), RING_CAP)
  {
    hide ItemOf, Next;
    if steps != [] {
      var n := |steps| - 1;
      var s, step := After(steps[..n]), steps[n];
      BufferIsLastFour(steps[..n], instance);
      BufferAfter(s, step, instance);
      if Receives(step, instance) {
        LastMore(History(steps[..n], instance), ItemOf(s, step), RING_CAP);
      }
      hide Buffer;
    }
  }

  // No two actions of an instance have the same id.
  lemma {:induction false} IdsBelow(steps: seq<Step>, instance: string, k: nat) returns (ts: int, count: nat)
    requires k < |History(steps, instance)|
    ensures History(steps, instance)[k].id == MakeId(instance, ts, count) && 0 < count <= After(steps).counter
  {
    hide MakeId;
    var before, step := steps[..|steps| - 1], steps[|steps| - 1];
    var earlier := History(before, instance);
    if k < |earlier| {
      ts, count := IdsBelow(before, instance, k);
    } else {
      ts, count := TimeOf(step.ts, step.now), After(before).counter + 1;
    }
  }

  lemma {:induction false} HistoryIdsAreDistinct(steps: seq<Step>, instance: string, i: nat, j: nat)
    requires i < j < |History(steps, instance)|
    ensures History(steps, instance)[i].id != History(steps, instance)[j].id
  {
    hide MakeId;
    var before, step := steps[..|steps| - 1], steps[|steps| - 1];
    var earlier := History(before, instance);
    if j < |earlier| {
      HistoryIdsAreDistinct(before, instance, i, j);
    } else {
      var ts, count := IdsBelow(before, instance, i);
      if History(steps, instance)[i].id == History(steps, instance)[j].id {
        IdsAreDistinct(instance, ts, count, instance, TimeOf(step.ts, step.now), After(before).counter + 1);
      }
    }
  }

  // ---- Which surfaced ids are still remembered ----

  predicate Surfaces(step: Step, instance: string) {
    step.Surfaced? && step.instance == instance && instance != "" && step.id != ""
  }

  // When an id was last surfaced, since the instance was last cleared.
  function LastShown(steps: seq<Step>, instance: string, id: string): Option<int> {
    if steps == [] then None
    else
      var before, step := steps[..|steps| - 1], steps[|steps| - 1];
      if Clears(step, instance) then None
      else if Surfaces(step, instance) && step.id == id then Some(TimeOf(step.ts, step.now))
      else LastShown(before, instance, id)
  }

  // The latest time at which anything was surfaced.
  function LatestShown(steps: seq<Step>, instance: string): Option<int> {
    if steps == [] then None
    else
      var before, step := steps[..|steps| - 1], steps[|steps| - 1];
      if Clears(step, instance) then None
      else if Surfaces(step, instance) then
        var at := TimeOf(step.ts, step.now);
        Some(if LatestShown(before, instance).None? then at else Max(LatestShown(before, instance).value, at))
      else LatestShown(before, instance)
  }

  // A later surfacing, more than a window after the id's own, has pruned it.
  predicate Forgotten(steps: seq<Step>, instance: string, id: string) {
    steps != [] &&
    var before, step := steps[..|steps| - 1], steps[|steps| - 1];
    if Clears(step, instance) || (Surfaces(step, instance) && step.id == id) then false
    else if Surfaces(step, instance) then
      Forgotten(before, instance, id) ||
      (LastShown(before, instance, id).Some?
       && LastShown(before, instance, id).value + REPLAY_WINDOW_MS < TimeOf(step.ts, step.now))
    else Forgotten(before, instance, id)
  }

  // The shown set holds exactly the ids surfaced and not forgotten since, at their times.
  lemma {:induction false} ShownIsExact(steps: seq<Step>, instance: string, id: string)
    ensures var shown := Shown(After(steps), instance);
      && (id in shown <==> LastShown(steps, instance, id).Some? && !Forgotten(steps, instance, id))
      && (id in shown ==> LastShown(steps, instance, id) == Some(shown[id]))
  {
    if steps != [] {
      ShownIsExact(steps[..|steps| - 1], instance, id);
      hide MakeId;
    }
  }

  lemma {:induction false} ForgottenIsOld(steps: seq<Step>, instance: string, id: string)
    ensures LastShown(steps, instance, id).Some? ==>
      LatestShown(steps, instance).Some? && LastShown(steps, instance, id).value <= LatestShown(steps, instance).value
    ensures Forgotten(steps, instance, id) ==>
      LastShown(steps, instance, id).Some?
      && LastShown(steps, instance, id).value + REPLAY_WINDOW_MS < LatestShown(steps, instance).value
  {
    if steps != [] {
      ForgottenIsOld(steps[..|steps| - 1], instance, id);
    }
  }

  // ---- Replay ----

  predicate CanReplay(item: Item, now: int, shown: map<string, int>) {
    now - item.ts < REPLAY_WINDOW_MS && item.id !in shown
  }

  function Filter(buffer: seq<Item>, now: int, shown: map<string, int>): seq<Item> {
    if buffer == [] then []
    else
      var n := |buffer| - 1;
      Filter(buffer[..n], now, shown) + if CanReplay(buffer[n], now, shown) then [buffer[n]] else []
  }

  // Inserts behind every item that is not later: the sort is stable.
  function Insert(items: seq<Item>, item: Item): seq<Item> {
    if items == [] || items[|items| - 1].ts <= item.ts then items + [item]
    else Insert(items[..|items| - 1], item) + [items[|items| - 1]]
  }

  function SortByTime(items: seq<Item>): seq<Item> {
    if items == [] then [] else Insert(SortByTime(items[..|items| - 1]), items[|items| - 1])
  }

  function SelectReplayableActions(buffer: seq<Item>, now: int, shown: map<string, int>): seq<Item> {
    SortByTime(Filter(buffer, now, shown))
  }

  ghost predicate Sorted(items: seq<Item>) {
    forall i, j :: 0 <= i < j < |items| ==> items[i].ts <= items[j].ts
  }

  function Pick(item: Item, ts: int): seq<Item> {
    if item.ts == ts then [item] else []
  }

  // The items of one time, in order.
  function AtTime(items: seq<Item>, ts: int): seq<Item> {
    if items == [] then [] else AtTime(items[..|items| - 1], ts) + Pick(items[|items| - 1], ts)
  }

  lemma AtTimeMore(items: seq<Item>, item: Item, longer: seq<Item>, ts: int)
    requires longer == items + [item]
    ensures AtTime(longer, ts) == AtTime(items, ts) + Pick(item, ts)
  {
    assert longer[..|items|] == items;
  }

  lemma {:induction false} InsertKeeps(items: seq<Item>, item: Item)
    ensures multiset(Insert(items, item)) == multiset(items) + multiset{item}
  {
    if items != [] && items[|items| - 1].ts > item.ts {
      var n := |items| - 1;
      InsertKeeps(items[..n], item);
      assert items == items[..n] + [items[n]];
    }
  }

  lemma {:induction false} InsertSorts(items: seq<Item>, item: Item)
    requires Sorted(items)
    ensures Sorted(Insert(items, item))
  {
    if items != [] && items[|items| - 1].ts > item.ts {
      var n := |items| - 1;
      var front := Insert(items[..n], item);
      InsertSorts(items[..n], item);
      InsertKeeps(items[..n], item);
      hide Insert;
      forall k | 0 <= k < |front|
        ensures front[k].ts <= items[n].ts
      {
        assert front[k] in multiset(front);
        assert front[k] in items[..n] || front[k] == item;
      }
    }
  }

  lemma PicksSwap(items: seq<Item>, a: Item, b: Item, ts: int)
    requires a.ts != b.ts
    ensures items + Pick(a, ts) + Pick(b, ts) == items + Pick(b, ts) + Pick(a, ts)
  {}

  lemma {:induction false} InsertIsStable(items: seq<Item>, item: Item, ts: int)
    requires Sorted(items)
    ensures AtTime(Insert(items, item), ts) == AtTime(items, ts) + Pick(item, ts)
  {
    if items == [] || items[|items| - 1].ts <= item.ts {
      AtTimeMore(items, item, items + [item], ts);
    } else {
      var n := |items| - 1;
      var init, last := items[..n], items[n];
      var front := Insert(init, item);
      assert Insert(items, item) == front + [last] && items == init + [last];
      InsertIsStable(init, item, ts);
      PicksSwap(AtTime(init, ts), item, last, ts);
      hide AtTime, Sorted, Insert, Pick;
      AtTimeMore(init, last, items, ts);
      AtTimeMore(front, last, front + [last], ts);
    }
  }

  // The sort orders by time, keeps every item, and keeps the order of those of one time.
  lemma {:induction false} SortFacts(items: seq<Item>, ts: int)
    ensures Sorted(SortByTime(items)) && multiset(SortByTime(items)) == multiset(items)
    ensures AtTime(SortByTime(items), ts) == AtTime(items, ts)
  {
    if items != [] {
      var n := |items| - 1;
      var init, last := items[..n], items[n];
      var sorted := SortByTime(init);
      assert SortByTime(items) == Insert(sorted, last) && items == init + [last];
      SortFacts(init, ts);
      hide SortByTime, Insert, AtTime, Sorted, Pick;
      InsertKeeps(sorted, last);
      InsertSorts(sorted, last);
      InsertIsStable(sorted, last, ts);
      AtTimeMore(init, last, items, ts);
    }
  }

  lemma {:induction false} FilterIsExact(buffer: seq<Item>, now: int, shown: map<string, int>, item: Item)
    ensures item in Filter(buffer, now, shown) <==> item in buffer && CanReplay(item, now, shown)
  {
    if buffer != [] {
      var n := |buffer| - 1;
      FilterIsExact(buffer[..n], now, shown, item);
      assert buffer == buffer[..n] + [buffer[n]];
    }
  }

  function Replayable(steps: seq<Step>, instance: string, now: int): seq<Item> {
    SelectReplayableActions(Buffer(After(steps), instance), now, Shown(After(steps), instance))
  }

  // What is replayed: a buffered action inside the window that was not surfaced, or whose
  // surfacing has been forgotten.
  lemma ReplayIsExact(steps: seq<Step>, instance: string, now: int, item: Item)
    ensures Sorted(Replayable(steps, instance, now))
    ensures item in Replayable(steps, instance, now) <==>
      && item in Buffer(After(steps), instance)
      && now - item.ts < REPLAY_WINDOW_MS
      && (LastShown(steps, instance, item.id).None? || Forgotten(steps, instance, item.id))
  {
    var buffer, shown := Buffer(After(steps), instance), Shown(After(steps), instance);
    var filtered := Filter(buffer, now, shown);
    SortFacts(filtered, 0);
    FilterIsExact(buffer, now, shown, item);
    ShownIsExact(steps, instance, item.id);
    hide After, Filter, SortByTime, LastShown, Forgotten, Shown;
    assert item in filtered <==> item in multiset(filtered);
    assert item in SortByTime(filtered) <==> item in multiset(SortByTime(filtered));
  }

  // A surfaced action is never replayed, as long as actions are surfaced no earlier than
  // they happened and the clock has reached the latest surfacing.
  lemma SurfacedIsNeverReplayed(steps: seq<Step>, instance: string, now: int, item: Item)
    requires LastShown(steps, instance, item.id).Some? && LastShown(steps, instance, item.id).value >= item.ts
    requires LatestShown(steps, instance).Some? ==> LatestShown(steps, instance).value <= now
    ensures item !in Replayable(steps, instance, now)
  {
    ReplayIsExact(steps, instance, now, item);
    ForgottenIsOld(steps, instance, item.id);
  }

  lemma FirstId()
    ensures MakeId("agent", 1000, 1) == "agent:1000:1"
  {
    assert Decimal(10) == "10";
    assert Decimal(100) == "100";
    assert Decimal(1000) == "1000";
  }

  // The clock condition is needed: an action stamped ahead of this clock prunes the mark of
  // one that is still inside the window, which is then replayed.
  lemma ClockSkewReplays()
    ensures var steps := [Received("agent", "say", "first", 1000, 1000), Surfaced("agent", "agent:1000:1", 1000, 1000),
                          Received("agent", "say", "second", 400000, 2000),
                          Surfaced("agent", "agent:400000:2", 400000, 2000)];
            Item("agent:1000:1", "say", "first", 1000) in Replayable(steps, "agent", 2000)
  {
    var a := Received("agent", "say", "first", 1000, 1000);
    var b := Surfaced("agent", "agent:1000:1", 1000, 1000);
    var c := Received("agent", "say", "second", 400000, 2000);
    var d := Surfaced("agent", "agent:400000:2", 400000, 2000);
    var item := Item("agent:1000:1", "say", "first", 1000);
    FirstId();
    hide MakeId, Show, Decimal;
    assert [a, b, c, d][..3] == [a, b, c] && [a, b, c][..2] == [a, b] && [a, b][..1] == [a] && [a][..0] == [];
    assert Buffer(After([a]), "agent") == [item];
    assert Buffer(After([a, b]), "agent") == [item];
    assert item == Buffer(After([a, b, c]), "agent")[0];
    assert item == Buffer(After([a, b, c, d]), "agent")[0];
    assert LastShown([a, b, c], "agent", item.id) == Some(1000);
    assert Forgotten([a, b, c, d], "agent", item.id);
    ReplayIsExact([a, b, c, d], "agent", 2000, item);
  }
}
