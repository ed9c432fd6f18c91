// Hidden-pane refresh deferral of src/ui/api/paneDeferral.ts, with the cache it watches:
// a message event that only hidden panes would see is recorded as a dirty mark, and the
// first pane to look, once visible, refetches for it once.
module PaneDeferral {
  import opened Options

  type Conversation = string

  // Request identities are handed out in starting order; the source only compares them.
  type RequestId = nat

  datatype Pane = Pane(id: nat, conversation: Conversation, visible: bool)

  // The requests whose pages may miss the event. None, made without a store to ask, stands for
  // whatever page is current at the next look.
  type Mark = Option<set<RequestId>>

  datatype Deferral = Deferral(panes: seq<Pane>, dirty: map<Conversation, Mark>, nextPaneId: nat)

  // The arguments of a newest-page query; a conversation may be cached under several limits.
  datatype Query = Query(conversation: Conversation, limit: Option<nat>)

  // A cache entry: its latest request, pending or settled.
  datatype Entry = Entry(requestId: RequestId, pending: bool)
  type Cache = map<Query, Entry>

  // ---- Panes: a Map in insertion order ----

  function SetPane(panes: seq<Pane>, p: Pane): seq<Pane> {
    if panes == [] then [p]
    else if panes[0].id == p.id then [p] + panes[1..]
    else [panes[0]] + SetPane(panes[1..], p)
  }

  function DeletePane(panes: seq<Pane>, id: nat): seq<Pane> {
    if panes == [] then []
    else if panes[0].id == id then panes[1..]
    else [panes[0]] + DeletePane(panes[1..], id)
  }

  // There is a pane for the conversation, and every such pane is hidden.
  predicate Hidden(panes: seq<Pane>, c: Conversation) {
    && (exists k :: 0 <= k < |panes| && panes[k].conversation == c)
    && (forall k :: 0 <= k < |panes| && panes[k].conversation == c ==> !panes[k].visible)
  }

  // ---- Marks, as a specification ----

  function CurrentRequestIds(cache: Cache, c: Conversation): set<RequestId> {
    set q | q in cache && q.conversation == c :: cache[q].requestId
  }

  predicate Defers(d: Deferral, isChat: bool, c: Conversation) {
    isChat && c != "" && Hidden(d.panes, c)
  }

  // The mark of a conversation after one more deferred event.
  function Marked(d: Deferral, c: Conversation, stale: Mark): Mark {
    if c !in d.dirty then stale
    else if d.dirty[c].Some? && stale.Some? then Some(d.dirty[c].value + stale.value)
    else None
  }

  function Defer(d: Deferral, c: Conversation, stale: Mark): Deferral {
    d.(dirty := d.dirty[c := Marked(d, c, stale)])
  }

  // What a pane reports: its newest request, if any, and whether it is in flight.
  datatype RequestState = RequestState(requestId: Option<RequestId>, isFetching: bool)

  function LiveRequestState(cache: Cache, q: Query, rendered: RequestState): RequestState {
    if q in cache then RequestState(Some(cache[q].requestId), cache[q].pending) else rendered
  }

  predicate Settled(d: Deferral, c: Conversation, request: RequestState) {
    c in d.dirty && !request.isFetching && request.requestId.Some?
  }

  // The request predates the mark, as far as the mark can tell.
  predicate IsStale(mark: Mark, id: RequestId) {
    mark.None? || id in mark.value
  }

  function Look(d: Deferral, c: Conversation, request: RequestState): Deferral {
    if !Settled(d, c, request) then d
    else if !IsStale(d.dirty[c], request.requestId.value) then d.(dirty := d.dirty - {c})
    else if d.dirty[c].None? then d.(dirty := d.dirty[c := Some({request.requestId.value})])
    else d
  }

  predicate CatchesUp(d: Deferral, c: Conversation, request: RequestState, visible: bool) {
    Settled(d, c, request) && IsStale(d.dirty[c], request.requestId.value) && visible
  }

  // ---- The module's variables and functions ----

  class PaneDeferrals {
    var panes: seq<Pane>
    var dirty: map<Conversation, Mark>
    var nextPaneId: nat

    ghost function Value(): Deferral
      reads this
    {
      Deferral(panes, dirty, nextPaneId)
    }

    constructor ()
      ensures Value() == Deferral([], map[], 1)
    {
      panes, dirty, nextPaneId := [], map[], 1;
    }

    method RegisterPane(c: Conversation, visible: bool) returns (id: nat)
      modifies this
      ensures id == old(nextPaneId)
      ensures Value() == old(Value()).(panes := SetPane(old(panes), Pane(id, c, visible)), nextPaneId := id + 1)
    {
      id := nextPaneId;
      nextPaneId := nextPaneId + 1;
      panes := SetPane(panes, Pane(id, c, visible));
    }

    method UpdatePane(id: nat, c: Conversation, visible: bool)
      modifies this
      ensures Value() == old(Value()).(panes := SetPane(old(panes), Pane(id, c, visible)))
    {
      panes := SetPane(panes, Pane(id, c, visible));
    }

    method UnregisterPane(id: nat)
      modifies this
      ensures Value() == old(Value()).(panes := DeletePane(old(panes), id))
    {
      panes := DeletePane(panes, id);
    }

    method AllPanesHidden(c: Conversation) returns (hidden: bool)
      ensures hidden == Hidden(panes, c)
    {
      var seen := false;
      for k := 0 to |panes|
        invariant seen <==> exists j :: 0 <= j < k && panes[j].conversation == c
        invariant forall j :: 0 <= j < k && panes[j].conversation == c ==> !panes[j].visible
      {
        if panes[k].conversation != c {
          continue;
        }
        if panes[k].visible {
          return false;
        }
        seen := true;
      }
      return seen;
    }

    method DeferIfHidden(isChat: bool, c: Conversation, state: Option<Cache>) returns (deferred: bool)
      modifies this
      ensures deferred == Defers(old(Value()), isChat, c)
      ensures Value() == if deferred
                         then Defer(old(Value()), c,
                                    if state.Some? then Some(CurrentRequestIds(state.value, c)) else None)
                         else old(Value())
    {
      if !isChat || c == "" {
        return false;
      }
      var hidden := AllPanesHidden(c);
      if !hidden {
        return false;
      }
      var stale: Mark := if state.Some? then Some(CurrentRequestIds(state.value, c)) else None;
      if c !in dirty {
        dirty := dirty[c := stale];
      } else if dirty[c].Some? && stale.Some? {
        dirty := dirty[c := Some(dirty[c].value + stale.value)];
      } else {
        dirty := dirty[c := None];
      }
      return true;
    }

    method NeedsCatchUp(c: Conversation, request: RequestState, visible: bool) returns (refetch: bool)
      modifies this
      ensures refetch == CatchesUp(old(Value()), c, request, visible)
      ensures Value() == Look(old(Value()), c, request)
    {
      if c !in dirty || request.isFetching || request.requestId.None? {
        return false;
      }
      var id := request.requestId.value;
      if dirty[c].None? {
        dirty := dirty[c := Some({id})];
      }
      if id !in dirty[c].value {
        dirty := dirty - {c};
        return false;
      }
      return visible;
    }

    method ClearDirtyMarks()
      modifies this
      ensures Value() == old(Value()).(dirty := map[])
    {
      dirty := map[];
    }
  }

  // ---- The panes, the marks and the cache together ----

  datatype System = System(d: Deferral, cache: Cache, nextRequest: RequestId)

  // What can happen, in any order. A flush whose tag is not deferred is dispatched, and
  // may start a request like any other cause.
  datatype Step =
    | Flush(isChat: bool, c: Conversation, readable: bool)
    | Starts(q: Query)
    | Settles(q: Query)
    | Expires(q: Query)
    | Looks(c: Conversation, visible: bool)
    | SetsPane(pane: Pane)
    | DropsPane(id: nat)
    | Reset

  // The cache drops a refetch while one is pending, so only a settled entry starts another.
  predicate Enabled(s: System, step: Step) {
    match step
    case Starts(q) => q in s.cache ==> !s.cache[q].pending
    case Settles(q) => q in s.cache
    case _ => true
  }

  function Start(s: System, q: Query): System {
    s.(cache := s.cache[q := Entry(s.nextRequest, true)], nextRequest := s.nextRequest + 1)
  }

  // The query of every pane of a conversation: no limit given.
  function PaneQuery(c: Conversation): Query {
    Query(c, None)
  }

  // A pane whose query has no cache entry has no request to report.
  function Report(s: System, c: Conversation): RequestState {
    LiveRequestState(s.cache, PaneQuery(c), RequestState(None, false))
  }

  function Next(s: System, step: Step): System {
    match step
    case Flush(isChat, c, readable) =>
      if Defers(s.d, isChat, c)
      then s.(d := Defer(s.d, c, if readable then Some(CurrentRequestIds(s.cache, c)) else None))
      else s
    case Starts(q) => Start(s, q)
    case Settles(q) => if q in s.cache then s.(cache := s.cache[q := s.cache[q].(pending := false)]) else s
    case Expires(q) => s.(cache := s.cache - {q})
    case Looks(c, visible) =>
      var t := s.(d := Look(s.d, c, Report(s, c)));
      if CatchesUp(s.d, c, Report(s, c), visible) then Start(t, PaneQuery(c)) else t
    case SetsPane(pane) => s.(d := s.d.(panes := SetPane(s.d.panes, pane)))
    case DropsPane(id) => s.(d := s.d.(panes := DeletePane(s.d.panes, id)))
    case Reset => s.(d := s.d.(dirty := map[]), cache := map[])
  }

  const INITIAL: System := System(Deferral([], map[], 1), map[], 0)

  function After(steps: seq<Step>): System {
    if steps == [] then INITIAL else Next(After(steps[..|steps| - 1]), steps[|steps| - 1])
  }

  ghost predicate IsRun(steps: seq<Step>) {
    steps == [] ||
    (IsRun(steps[..|steps| - 1]) && Enabled(After(steps[..|steps| - 1]), steps[|steps| - 1]))
  }

  // Step p marks conversation c.
  predicate MarksAt(steps: seq<Step>, p: nat, c: Conversation)
    requires p < |steps|
  {
    steps[p].Flush? && steps[p].c == c && Defers(After(steps[..p]).d, steps[p].isChat, c)
  }

  // Requests from this one on were started after the last mark of c.
  function MarkedAt(steps: seq<Step>, c: Conversation): RequestId {
    if steps == [] then 0
    else
      var n := |steps| - 1;
      if MarksAt(steps, n, c) then After(steps[..n]).nextRequest else MarkedAt(steps[..n], c)
  }

  predicate Refetches(s: System, step: Step, c: Conversation) {
    step.Looks? && step.c == c && CatchesUp(s.d, c, Report(s, c), step.visible)
  }

  // Catch-up refetches of c since its last mark.
  function CatchUps(steps: seq<Step>, c: Conversation): nat {
    if steps == [] then 0
    else
      var n := |steps| - 1;
      var before, step := steps[..n], steps[n];
      if MarksAt(steps, n, c) then 0
      else if Refetches(After(before), step, c) then CatchUps(before, c) + 1
      else CatchUps(before, c)
  }

  // ---- No mark is spent too early, none is spent twice ----

  // A page that the mark does not hold against it was requested after the mark; and one
  // catch-up leaves behind a request that the mark does not hold.
  ghost predicate Faithful(s: System, c: Conversation, marked: RequestId, catchUps: nat) {
    var q := PaneQuery(c);
    && marked <= s.nextRequest
    && (forall p :: p in s.cache ==> s.cache[p].requestId < s.nextRequest)
    && (c in s.d.dirty && q in s.cache && !IsStale(s.d.dirty[c], s.cache[q].requestId) ==>
      s.cache[q].requestId >= marked)
    && (c in s.d.dirty && s.d.dirty[c].Some? ==> forall r :: r in s.d.dirty[c].value ==> r < s.nextRequest)
    && catchUps <= 1
    && (catchUps == 1 && c in s.d.dirty ==>
          s.d.dirty[c].Some? && (q in s.cache ==> !IsStale(s.d.dirty[c], s.cache[q].requestId)))
  }

  lemma MarkIsFaithful(s: System, c: Conversation, marked: RequestId, catchUps: nat, readable: bool)
    requires Faithful(s, c, marked, catchUps)
    ensures var stale := if readable then Some(CurrentRequestIds(s.cache, c)) else None;
      Faithful(s.(d := Defer(s.d, c, stale)), c, s.nextRequest, 0)
  {
    var ids := CurrentRequestIds(s.cache, c);
    if PaneQuery(c) in s.cache {
      assert s.cache[PaneQuery(c)].requestId in ids;
    }
  }

  lemma LookIsFaithful(s: System, c: Conversation, visible: bool, marked: RequestId, catchUps: nat)
    requires Faithful(s, c, marked, catchUps)
    ensures var step := Looks(c, visible);
      Faithful(Next(s, step), c, marked, if Refetches(s, step, c) then catchUps + 1 else catchUps)
  {}

  lemma OtherMarkIsFaithful(s: System, c: Conversation, other: Conversation, stale: Mark, marked: RequestId,
                            catchUps: nat)
    requires Faithful(s, c, marked, catchUps) && other != c
    ensures Faithful(s.(d := Defer(s.d, other, stale)), c, marked, catchUps)
  {
    hide Marked;
  }

  lemma OtherLookIsFaithful(s: System, c: Conversation, other: Conversation, visible: bool, marked: RequestId,
                            catchUps: nat)
    requires Faithful(s, c, marked, catchUps) && other != c
    ensures Faithful(Next(s, Looks(other, visible)), c, marked, catchUps)
  {
    hide IsStale;
  }

  lemma StepIsFaithful(s: System, step: Step, c: Conversation, marked: RequestId, catchUps: nat)
    requires Faithful(s, c, marked, catchUps) && Enabled(s, step)
    ensures var marks := step.Flush? && step.c == c && Defers(s.d, step.isChat, c);
      Faithful(Next(s, step), c, if marks then s.nextRequest else marked,
               if marks then 0 else if Refetches(s, step, c) then catchUps + 1 else catchUps)
  {
    match step {
      case Flush(isChat, other, readable) =>
        hide Faithful, Defers, Defer, CurrentRequestIds;
        if other == c {
          MarkIsFaithful(s, c, marked, catchUps, readable);
        } else {
          var stale := if readable then Some(CurrentRequestIds(s.cache, other)) else None;
          OtherMarkIsFaithful(s, c, other, stale, marked, catchUps);
        }
      case Looks(other, visible) =>
        hide Faithful, Next, CatchesUp;
        if other == c {
          LookIsFaithful(s, c, visible, marked, catchUps);
        } else {
          OtherLookIsFaithful(s, c, other, visible, marked, catchUps);
        }
      case _ =>
        hide SetPane, DeletePane, Defer, Look;
    }
  }

  lemma {:induction false} RunIsFaithful(steps: seq<Step>, c: Conversation)
    requires IsRun(steps)
    ensures Faithful(After(steps), c, MarkedAt(steps, c), CatchUps(steps, c))
  {
    if steps != [] {
      var n := |steps| - 1;
      RunIsFaithful(steps[..n], c);
      hide Faithful, Next, Defers, Refetches;
      StepIsFaithful(After(steps[..n]), steps[n], c, MarkedAt(steps[..n], c), CatchUps(steps[..n], c));
    }
  }

  // A mark causes at most one catch-up refetch while no new event arrives.
  lemma AtMostOneCatchUp(steps: seq<Step>, c: Conversation)
    requires IsRun(steps)
    ensures CatchUps(steps, c) <= 1
  {
    RunIsFaithful(steps, c);
  }

  // The panes' entry holds the page of a request that started after request number marked.
  predicate Fresh(s: System, c: Conversation, marked: RequestId) {
    var q := PaneQuery(c);
    q in s.cache && !s.cache[q].pending && s.cache[q].requestId >= marked
  }

  // A mark disappears only by a reset, or when the cache holds the settled page of a
  // request that started after the last marked event.
  lemma MarksAreSpentByNewPages(steps: seq<Step>, c: Conversation)
    requires IsRun(steps) && steps != [] && c !in After(steps).d.dirty
    requires var n := |steps| - 1; c in After(steps[..n]).d.dirty && !steps[n].Reset?
    ensures Fresh(After(steps), c, MarkedAt(steps, c))
  {
    var n := |steps| - 1;
    RunIsFaithful(steps[..n], c);
    hide SetPane, DeletePane, Hidden;
  }

  lemma {:induction false} RequestsGrow(steps: seq<Step>, p: nat)
    requires p <= |steps|
    ensures After(steps[..p]).nextRequest <= After(steps).nextRequest
  {
    if p < |steps| {
      var n := |steps| - 1;
      RequestsGrow(steps[..n], p);
      assert steps[..n][..p] == steps[..p];
      hide Look, Defer, SetPane, DeletePane;
    } else {
      assert steps[..p] == steps;
    }
  }

  lemma {:induction false} MarkedAfter(steps: seq<Step>, p: nat, c: Conversation)
    requires p < |steps| && MarksAt(steps, p, c)
    ensures MarkedAt(steps, c) >= After(steps[..p]).nextRequest
  {
    var n := |steps| - 1;
    if p < n {
      RequestsGrow(steps[..n], p);
      assert steps[..n][..p] == steps[..p];
      MarkedAfter(steps[..n], p, c);
    }
  }

  // How a deferred event at step p was honoured by time q.
  ghost predicate HonouredBy(steps: seq<Step>, p: nat, c: Conversation, q: nat) {
    && p + 1 < q <= |steps|
    && (steps[q - 1].Reset? || Fresh(After(steps[..q]), c, After(steps[..p]).nextRequest))
  }

  lemma FreshIsMonotone(s: System, c: Conversation, later: RequestId, earlier: RequestId)
    requires Fresh(s, c, later) && earlier <= later
    ensures Fresh(s, c, earlier)
  {}

  // No update is lost: an event that was deferred still has its mark, or the page of a
  // request that started after it has settled in the cache, or the cache was reset.
  lemma {:induction false} NoEventIsLost(steps: seq<Step>, p: nat, c: Conversation) returns (q: nat)
    requires IsRun(steps) && p < |steps| && MarksAt(steps, p, c)
    ensures c in After(steps).d.dirty || HonouredBy(steps, p, c, q)
  {
    var n := |steps| - 1;
    q := n + 1;
    if p < n {
      assert steps[..n][..p] == steps[..p] && steps[..q] == steps;
      hide Look, Defer, Fresh, Next, Defers;
      var r := NoEventIsLost(steps[..n], p, c);
      if HonouredBy(steps[..n], p, c, r) {
        assert steps[..n][..r] == steps[..r];
        q := r;
      } else if c !in After(steps).d.dirty && !steps[n].Reset? {
        MarksAreSpentByNewPages(steps, c);
        MarkedAfter(steps, p, c);
        FreshIsMonotone(After(steps), c, MarkedAt(steps, c), After(steps[..p]).nextRequest);
      }
    }
  }

  // A visible pane that looks at a settled page never leaves it behind the mark: either
  // the page is newer than the mark, which is then spent, or a newer request is on its way.
  lemma VisibleLookCatchesUp(steps: seq<Step>, c: Conversation)
    requires IsRun(steps) && PaneQuery(c) in After(steps).cache && !After(steps).cache[PaneQuery(c)].pending
    ensures var s, t, q := After(steps), Next(After(steps), Looks(c, true)), PaneQuery(c);
      c in s.d.dirty ==>
        && t.cache[q].requestId >= MarkedAt(steps, c)
        && (c in t.d.dirty <==> t.cache[q].pending)
        && (t.cache[q].pending <==> t.cache != s.cache)
  {
    RunIsFaithful(steps, c);
  }

  // A hidden pane spends a mark that a newer page has met, but never refetches.
  lemma HiddenLookOnlyClears(s: System, c: Conversation)
    ensures var t, q := Next(s, Looks(c, false)), PaneQuery(c);
      && t.cache == s.cache && t.nextRequest == s.nextRequest
      && (c !in t.d.dirty && c in s.d.dirty ==>
            q in s.cache && !s.cache[q].pending && s.d.dirty[c].Some? && s.cache[q].requestId !in s.d.dirty[c].value)
  {}
}
