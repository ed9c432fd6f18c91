// ToolActivityStream of src/ui/api/toolActivityStream.ts: one shared stream of tool
// activity, as steps of its callbacks against an arbitrary clock, network and set of views.
module ToolStream {
  import opened Arithmetic
  import opened Options

  const TOOL_FRESH_MS := 120000
  const TOOL_PING_MS := 5000
  const TOOL_PONG_MS := 15000
  const OUTAGE_BUDGET_MS := 120000
  const LIVE_MEMBER_CAP := 256

  // ---- The order of a member's states ----

  datatype Order = Order(epoch: nat, generation: nat, revision: nat)

  // Negative, zero or positive, as the first part that differs says.
  function CompareToolOrder(next: Order, prior: Order): int {
    if next.epoch != prior.epoch then next.epoch - prior.epoch
    else if next.generation != prior.generation then next.generation - prior.generation
    else next.revision - prior.revision
  }

  // ---- State ----

  type Member = string

  // Deadlines are None where the source has 0; the clock is positive.
  datatype Receipt = Receipt(deadline: Option<int>, order: Option<Order>, baseline: bool, refused: bool)

  // The stream's link to the network: its own fields, then what it has outstanding in the
  // environment - calls for a URL and sockets, each with the generation that its callbacks
  // captured; live sockets, which neither side has closed; and sockets open for sending.
  datatype Link = Link(
    generation: nat,
    socket: Option<nat>,
    aborting: bool,
    calls: map<nat, nat>,
    made: map<nat, nat>,
    live: set<nat>,
    open: set<nat>,
    nextId: nat)

  datatype Stream = Stream(
    views: map<nat, set<Member>>,
    receipts: map<Member, Receipt>,
    link: Link,
    ticking: bool,
    reconnectAt: int,
    failures: nat,
    failureStartedAt: Option<int>,
    exhausted: bool,
    pingAt: int,
    pongBy: Option<int>,
    connectBy: Option<int>,
    authKey: string,
    nextToken: nat)

  const INITIAL: Stream :=
    Stream(map[], map[], Link(0, None, false, map[], map[], {}, {}, 0), false, 0, 0, None, false, 0, None, None, "", 0)

  datatype Frame =
    | Pong
    | Error(fatal: bool)
    | Subscribed
    | Unavailable(id: Member, forbidden: bool)
    | State(id: Member, order: Order, baseline: bool, refresh: bool)
    | Other

  // ---- The private methods, as a specification ----

  // A new generation: the socket is closed, and every callback made so far is too old.
  function Drop(k: Link): Link {
    k.(generation := k.generation + 1, socket := None, aborting := false,
       live := if k.socket.Some? then k.live - {k.socket.value} else k.live)
  }

  function Dial(k: Link): Link {
    Drop(k).(aborting := true, calls := k.calls[k.nextId := k.generation + 1], nextId := k.nextId + 1)
  }

  predicate IsDown(k: Link) {
    k.socket.None? && !k.aborting
  }

  function Disconnect(s: Stream): Stream {
    s.(link := Drop(s.link), pongBy := None, pingAt := 0, connectBy := None)
  }

  function Backoff(failures: nat): int {
    Min(1000 * Pow2(Min(failures, 5)), 30000)
  }

  function Began(s: Stream, now: int): int {
    if s.failureStartedAt.Some? then s.failureStartedAt.value else now
  }

  function Failed(s: Stream, now: int): Stream {
    var t := Disconnect(s).(failureStartedAt := Some(Began(s, now)));
    if t.failures >= 5 || now - Began(s, now) >= OUTAGE_BUDGET_MS then t.(exhausted := true)
    else t.(reconnectAt := now + Backoff(t.failures), failures := t.failures + 1)
  }

  function Rebased(receipts: map<Member, Receipt>): map<Member, Receipt> {
    map id | id in receipts :: receipts[id].(baseline := true, order := None)
  }

  function Connect(s: Stream, now: int): Stream {
    if s.receipts == map[] || s.exhausted then s
    else
      Disconnect(s).(
        link := Dial(s.link),
        failureStartedAt := Some(Began(s, now)),
        connectBy := Some(Min(now + TOOL_PONG_MS, Began(s, now) + OUTAGE_BUDGET_MS)),
        receipts := Rebased(s.receipts))
  }

  function Stop(s: Stream): Stream {
    Disconnect(s).(ticking := false, failures := 0, failureStartedAt := None, exhausted := false)
  }

  predicate CanSend(k: Link) {
    k.socket.Some? && k.socket.value in k.open
  }

  // A subscription that cannot be sent is a failure.
  function SendSubscription(s: Stream, now: int, sent: bool): Stream {
    if CanSend(s.link) && !sent then Failed(s, now) else s
  }

  function Roster(views: map<nat, set<Member>>): set<Member> {
    set v, id | v in views && id in views[v] :: id
  }

  function Fresh(now: int): Receipt {
    Receipt(Some(now + TOOL_FRESH_MS), None, true, false)
  }

  function Renewed(receipts: map<Member, Receipt>, ids: set<Member>, now: int): map<Member, Receipt> {
    map id | id in ids :: if id in receipts then receipts[id] else Fresh(now)
  }

  function Reconcile(s: Stream, now: int, sent: bool): Stream {
    var ids := Roster(s.views);
    if |ids| > LIVE_MEMBER_CAP then Disconnect(s).(receipts := map[])
    else if ids == s.receipts.Keys then SendSubscription(s, now, sent)
    else SendSubscription(s.(receipts := Renewed(s.receipts, ids, now)), now, sent)
  }

  function EnsureRunning(s: Stream, now: int): Stream {
    if s.receipts == map[] then Stop(s)
    else if !s.ticking then Connect(s.(ticking := true), now)
    else s
  }

  function WithViews(s: Stream, views: map<nat, set<Member>>, now: int, sent: bool): Stream {
    EnsureRunning(Reconcile(s.(views := views), now, sent), now)
  }

  // Whether a state frame is accepted.
  predicate Accepts(s: Stream, f: Frame)
    requires f.State?
  {
    && f.id in s.receipts
    && var r := s.receipts[f.id];
       && (r.baseline ==> f.baseline)
       && (r.order.Some? ==>
             CompareToolOrder(f.order, r.order.value) > 0
             || (CompareToolOrder(f.order, r.order.value) == 0 && (f.refresh || f.baseline)))
  }

  function Receive(s: Stream, f: Frame, now: int): Stream {
    match f
    case Pong => s.(pongBy := None)
    case Error(fatal) => if fatal then Disconnect(s).(exhausted := true) else Failed(s, now)
    case Subscribed => s.(failures := 0, failureStartedAt := None)
    case Unavailable(id, forbidden) =>
      if id !in s.receipts then s
      else
        var deadline := if forbidden then None else s.receipts[id].deadline;
        s.(receipts := s.receipts[id := Receipt(deadline, None, true, forbidden)])
    case State(id, order, _, _) =>
      if !Accepts(s, f) then s
      else
        s.(receipts := s.receipts[id := Receipt(Some(now + TOOL_FRESH_MS), Some(order), false, false)],
           failures := 0, failureStartedAt := None, exhausted := false)
    case Other => s
  }

  function Expired(receipts: map<Member, Receipt>, now: int): map<Member, Receipt> {
    map id | id in receipts ::
      if receipts[id].deadline.Some? && now >= receipts[id].deadline.value then receipts[id].(deadline := None)
        else receipts[id]
  }

  predicate Due(at: Option<int>, now: int) {
    at.Some? && now >= at.value
  }

  // A ping that cannot be sent fails, and one whose subscription failed before it fails
  // again, because the socket is gone by then.
  function SendPing(s: Stream, now: int, sent: bool, pinged: bool): Stream {
    var t := SendSubscription(s, now, sent);
    if t.link.socket.None? || !pinged then Failed(t, now)
    else t.(pongBy := Some(now + TOOL_PONG_MS), pingAt := now + TOOL_PING_MS)
  }

  function Tick(s: Stream, now: int, sent: bool, pinged: bool): Stream {
    var t := s.(receipts := Expired(s.receipts, now));
    if t.failureStartedAt.Some? && now - t.failureStartedAt.value >= OUTAGE_BUDGET_MS && !t.exhausted then
      Disconnect(t).(exhausted := true)
    else if Due(t.connectBy, now) || Due(t.pongBy, now) then Failed(t, now)
    else if CanSend(t.link) && t.pongBy.None? && now >= t.pingAt then SendPing(t, now, sent, pinged)
    else if IsDown(t.link) && now >= t.reconnectAt then Connect(t, now)
    else t
  }

  // ---- Steps ----

  datatype Step =
    | Subscribe(authKey: string, ids: set<Member>, now: int, sent: bool)
    | Update(token: nat, ids: set<Member>, now: int, sent: bool)
    | Release(token: nat, now: int, sent: bool)
    | Ticks(now: int, sent: bool, pinged: bool)
    | Resumes(now: int)
    | UrlResolved(call: nat, now: int, ok: bool, created: bool)
    | SocketOpens(id: nat, now: int, sent: bool)
    | SocketFades(id: nat)
    | SocketCloses(id: nat, now: int)
    | SocketErrors(id: nat, now: int)
    | Message(id: nat, now: int, frame: Frame)

  // What the environment may do next: answer a call once, and act on a socket once made.
  predicate Enabled(s: Stream, step: Step) {
    match step
    case UrlResolved(call, _, _, _) => call in s.link.calls
    case SocketOpens(id, _, _) => id in s.link.made
    case SocketFades(id) => id in s.link.made
    case SocketCloses(id, _) => id in s.link.made
    case SocketErrors(id, _) => id in s.link.made
    case Message(id, _, _) => id in s.link.made
    case Ticks(_, _, _) => s.ticking
    case Resumes(_) => s.ticking
    case _ => true
  }

  function Answered(k: Link, call: nat): Link {
    k.(calls := k.calls - {call})
  }

  function Made(k: Link): Link {
    k.(socket := Some(k.nextId), made := k.made[k.nextId := k.generation], live := k.live + {k.nextId},
      nextId := k.nextId + 1)
  }

  function Resolve(s: Stream, call: nat, now: int, ok: bool, created: bool): Stream
    requires call in s.link.calls
  {
    var t := s.(link := Answered(s.link, call));
    if s.link.calls[call] != s.link.generation then t
    else if !ok then Failed(t, now)
    else if s.views == map[] then t
    else if !created then Failed(t, now)
    else t.(link := Made(t.link))
  }

  // Whether a socket's callbacks are still those of the current generation.
  predicate Current(k: Link, id: nat)
    requires id in k.made
  {
    k.made[id] == k.generation
  }

  function Opened(k: Link, id: nat): Link {
    k.(open := k.open + {id})
  }

  function Faded(k: Link, id: nat): Link {
    k.(open := k.open - {id})
  }

  function Closed(k: Link, id: nat): Link {
    k.(open := k.open - {id}, live := k.live - {id})
  }

  function Opens(s: Stream, id: nat, now: int, sent: bool): Stream
    requires id in s.link.made
  {
    var t := s.(link := Opened(s.link, id));
    if !Current(s.link, id) then t
    else SendSubscription(t.(connectBy := None, pingAt := now + TOOL_PING_MS), now, sent)
  }

  function Ends(s: Stream, id: nat, now: int, closes: bool): Stream
    requires id in s.link.made
  {
    var t := if closes then s.(link := Closed(s.link, id)) else s;
    if !Current(s.link, id) then t else Failed(t, now)
  }

  // A subscription under another credential drops everything that belongs to the last one.
  function Adopt(s: Stream, authKey: string): Stream {
    var t := if s.authKey != authKey then Stop(s).(views := map[], receipts := map[], authKey := authKey) else s;
    t.(nextToken := s.nextToken + 1)
  }

  function Next(s: Stream, step: Step): Stream
    requires Enabled(s, step)
  {
    match step
    case Subscribe(authKey, ids, now, sent) =>
      var t := Adopt(s, authKey);
      WithViews(t, t.views[s.nextToken := ids], now, sent)
    case Update(token, ids, now, sent) =>
      if token in s.views then WithViews(s, s.views[token := ids], now, sent) else s
    case Release(token, now, sent) =>
      if token in s.views then WithViews(s, s.views - {token}, now, sent) else s
    case Ticks(now, sent, pinged) => Tick(s, now, sent, pinged)
    case Resumes(now) => Connect(s, now)
    case UrlResolved(call, now, ok, created) => Resolve(s, call, now, ok, created)
    case SocketOpens(id, now, sent) => Opens(s, id, now, sent)
    case SocketFades(id) => s.(link := Faded(s.link, id))
    case SocketCloses(id, now) => Ends(s, id, now, true)
    case SocketErrors(id, now) => Ends(s, id, now, false)
    case Message(id, now, frame) =>
      if !Current(s.link, id) || s.link.socket != Some(id) then s else Receive(s, frame, now)
  }

  // ---- The class: its fields, its private methods, and the callbacks it hands out ----

  class ToolActivityStream {
    var views: map<nat, set<Member>>
    var receipts: map<Member, Receipt>
    var link: Link
    var ticking: bool
    var reconnectAt: int
    var failures: nat
    var failureStartedAt: Option<int>
    var exhausted: bool
    var pingAt: int
    var pongBy: Option<int>
    var connectBy: Option<int>
    var authKey: string
    var nextToken: nat

    ghost function Value(): Stream
      reads this
    {
      Stream(views, receipts, link, ticking, reconnectAt, failures, failureStartedAt, exhausted,
             pingAt, pongBy, connectBy,
        authKey, nextToken)
    }

    constructor ()
      ensures Value() == INITIAL
    {
      views, receipts, ticking := map[], map[], false;
      link := Link(0, None, false, map[], map[], {}, {}, 0);
      reconnectAt, failures, failureStartedAt, exhausted := 0, 0, None, false;
      pingAt, pongBy, connectBy, authKey, nextToken := 0, None, None, "", 0;
    }

    method DoDisconnect()
      modifies this
      ensures Value() == Disconnect(old(Value()))
    {
      var closing := link.socket;
      link := link.(generation := link.generation + 1, aborting := false, socket := None);
      pongBy, pingAt, connectBy := None, 0, None;
      if closing.Some? {
        link := link.(live := link.live - {closing.value});
      }
    }

    method DoFailed(now: int)
      modifies this
      ensures Value() == Failed(old(Value()), now)
    {
      hide Backoff;
      DoDisconnect();
      if failureStartedAt.None? {
        failureStartedAt := Some(now);
      }
      if failures >= 5 || now - failureStartedAt.value >= OUTAGE_BUDGET_MS {
        exhausted := true;
        return;
      }
      reconnectAt := now + Backoff(failures);
      failures := failures + 1;
    }

    method DoConnect(now: int)
      modifies this
      ensures Value() == Connect(old(Value()), now)
    {
      hide Rebased;
      if receipts == map[] || exhausted {
        return;
      }
      DoDisconnect();
      if failureStartedAt.None? {
        failureStartedAt := Some(now);
      }
      link := link.(aborting := true, calls := link.calls[link.nextId := link.generation], nextId := link.nextId + 1);
      connectBy := Some(Min(now + TOOL_PONG_MS, failureStartedAt.value + OUTAGE_BUDGET_MS));
      receipts := Rebase(receipts);
    }

    static method Rebase(receipts: map<Member, Receipt>) returns (rebased: map<Member, Receipt>)
      ensures rebased == Rebased(receipts)
    {
      rebased := receipts;
      var rest := receipts.Keys;
      while rest != {}
        invariant rest <= receipts.Keys
        invariant rebased == map id | id in receipts ::
          if id in rest then receipts[id] else receipts[id].(baseline := true, order := None)
        decreases |rest|
      {
        var id :| id in rest;
        rebased := rebased[id := rebased[id].(baseline := true, order := None)];
        rest := rest - {id};
      }
    }

    method DoStop()
      modifies this
      ensures Value() == Stop(old(Value()))
    {
      DoDisconnect();
      ticking := false;
      failures, failureStartedAt, exhausted := 0, None, false;
    }

    method DoSendSubscription(now: int, sent: bool)
      modifies this
      ensures Value() == SendSubscription(old(Value()), now, sent)
    {
      hide Failed;
      if link.socket.None? || link.socket.value !in link.open {
        return;
      }
      if !sent {
        DoFailed(now);
      }
    }

    method DoReconcile(now: int, sent: bool)
      modifies this
      ensures Value() == Reconcile(old(Value()), now, sent)
    {
      hide Roster, Drop, SendSubscription, Renewed;
      var ids := Roster(views);
      if |ids| > LIVE_MEMBER_CAP {
        DoDisconnect();
        receipts := map[];
        return;
      }
      if ids == receipts.Keys {
        DoSendSubscription(now, sent);
        return;
      }
      receipts := Renew(receipts, ids, now);
      DoSendSubscription(now, sent);
    }

    static method Renew(receipts: map<Member, Receipt>, ids: set<Member>, now: int) returns (next: map<Member, Receipt>)
      ensures next == Renewed(receipts, ids, now)
    {
      next := map[];
      var rest := ids;
      while rest != {}
        invariant rest <= ids
        invariant next == Renewed(receipts, ids - rest, now)
        decreases |rest|
      {
        var id :| id in rest;
        next := next[id := if id in receipts then receipts[id] else Fresh(now)];
        rest := rest - {id};
      }
    }

    method DoEnsureRunning(now: int)
      modifies this
      ensures Value() == EnsureRunning(old(Value()), now)
    {
      hide Connect, Stop;
      if receipts == map[] {
        DoStop();
        return;
      }
      if !ticking {
        ticking := true;
        DoConnect(now);
      }
    }

    method OnSubscribe(key: string, ids: set<Member>, now: int, sent: bool) returns (token: nat)
      modifies this
      ensures Value() == Next(old(Value()), Subscribe(key, ids, now, sent))
      ensures token == old(nextToken)
    {
      hide Reconcile, EnsureRunning, Drop;
      if authKey != key {
        DoStop();
        views := map[];
        receipts := map[];
        authKey := key;
      }
      token := nextToken;
      nextToken := nextToken + 1;
      views := views[token := ids];
      DoReconcile(now, sent);
      DoEnsureRunning(now);
    }

    method OnUpdate(token: nat, ids: set<Member>, now: int, sent: bool)
      modifies this
      ensures Value() == Next(old(Value()), Update(token, ids, now, sent))
    {
      hide Reconcile, EnsureRunning;
      if token !in views {
        return;
      }
      views := views[token := ids];
      DoReconcile(now, sent);
      DoEnsureRunning(now);
    }

    method OnRelease(token: nat, now: int, sent: bool)
      modifies this
      ensures Value() == Next(old(Value()), Release(token, now, sent))
    {
      hide Reconcile, EnsureRunning;
      if token !in views {
        return;
      }
      views := views - {token};
      DoReconcile(now, sent);
      DoEnsureRunning(now);
    }

    method DoReceive(f: Frame, now: int)
      modifies this
      ensures Value() == Receive(old(Value()), f, now)
    {
      hide Failed, Drop;
      match f {
        case Pong => pongBy := None;
        case Error(fatal) =>
          if fatal {
            DoDisconnect();
            exhausted := true;
          } else {
            DoFailed(now);
          }
        case Subscribed =>
          failures, failureStartedAt := 0, None;
        case Unavailable(id, forbidden) =>
          if id in receipts {
            var deadline := if forbidden then None else receipts[id].deadline;
            receipts := receipts[id := Receipt(deadline, None, true, forbidden)];
          }
        case State(id, order, baseline, refresh) =>
          if id !in receipts || (receipts[id].baseline && !baseline) {
            return;
          }
          if receipts[id].order.Some? {
            var compared := CompareToolOrder(order, receipts[id].order.value);
            if compared < 0 || (compared == 0 && !refresh && !baseline) {
              return;
            }
          }
          receipts := receipts[id := Receipt(Some(now + TOOL_FRESH_MS), Some(order), false, false)];
          failures, failureStartedAt, exhausted := 0, None, false;
        case Other =>
      }
    }

    method OnTick(now: int, sent: bool, pinged: bool)
      modifies this
      ensures Value() == Tick(old(Value()), now, sent, pinged)
    {
      hide Failed, Drop, Connect, Expired, SendPing;
      receipts := Expire(receipts, now);
      if failureStartedAt.Some? && now - failureStartedAt.value >= OUTAGE_BUDGET_MS && !exhausted {
        DoDisconnect();
        exhausted := true;
        return;
      }
      if (connectBy.Some? && now >= connectBy.value) || (pongBy.Some? && now >= pongBy.value) {
        DoFailed(now);
        return;
      }
      if link.socket.Some? && link.socket.value in link.open && pongBy.None? && now >= pingAt {
        DoPing(now, sent, pinged);
      } else if link.socket.None? && !link.aborting && now >= reconnectAt {
        DoConnect(now);
      }
    }

    // A subscription that fails takes the socket with it, and the ping then fails as well.
    method DoPing(now: int, sent: bool, pinged: bool)
      modifies this
      ensures Value() == SendPing(old(Value()), now, sent, pinged)
    {
      hide Failed, SendSubscription;
      DoSendSubscription(now, sent);
      if link.socket.None? || !pinged {
        DoFailed(now);
        return;
      }
      pongBy := Some(now + TOOL_PONG_MS);
      pingAt := now + TOOL_PING_MS;
    }

    static method Expire(receipts: map<Member, Receipt>, now: int) returns (expired: map<Member, Receipt>)
      ensures expired == Expired(receipts, now)
    {
      expired := receipts;
      var rest := receipts.Keys;
      while rest != {}
        invariant rest <= receipts.Keys
        invariant expired == map id | id in receipts ::
          if id in rest then receipts[id] else Expired(receipts, now)[id]
        decreases |rest|
      {
        var id :| id in rest;
        if expired[id].deadline.Some? && now >= expired[id].deadline.value {
          expired := expired[id := expired[id].(deadline := None)];
        }
        rest := rest - {id};
      }
    }

    method OnUrlResolved(call: nat, now: int, ok: bool, created: bool)
      requires call in link.calls
      modifies this
      ensures Value() == Resolve(old(Value()), call, now, ok, created)
    {
      hide Failed;
      var captured := link.calls[call];
      link := link.(calls := link.calls - {call});
      if captured != link.generation {
        return;
      }
      if !ok {
        DoFailed(now);
      } else if views != map[] {
        if !created {
          DoFailed(now);
        } else {
          link := Made(link);
        }
      }
    }

    method OnSocketOpen(id: nat, now: int, sent: bool)
      requires id in link.made
      modifies this
      ensures Value() == Opens(old(Value()), id, now, sent)
    {
      hide SendSubscription;
      link := link.(open := link.open + {id});
      if link.made[id] != link.generation {
        return;
      }
      connectBy := None;
      pingAt := now + TOOL_PING_MS;
      DoSendSubscription(now, sent);
    }

    method OnSocketEnd(id: nat, now: int, closes: bool)
      requires id in link.made
      modifies this
      ensures Value() == Ends(old(Value()), id, now, closes)
    {
      hide Failed;
      if closes {
        link := link.(open := link.open - {id}, live := link.live - {id});
      }
      if link.made[id] == link.generation {
        DoFailed(now);
      }
    }

    method OnMessage(id: nat, now: int, frame: Frame)
      requires id in link.made
      modifies this
      ensures Value() == Next(old(Value()), Message(id, now, frame))
    {
      hide Receive;
      if link.made[id] != link.generation || link.socket != Some(id) {
        return;
      }
      DoReceive(frame, now);
    }

    method OnResume(now: int)
      modifies this
      ensures Value() == Connect(old(Value()), now)
    {
      if receipts == map[] {
        return;
      }
      DoConnect(now);
    }
  }

  // ---- What every step keeps ----

  // At most one socket is live, and it is the stream's; only the current generation's call
  // can still make one, and only while there is none.
  ghost predicate LinkSound(k: Link) {
    && (forall id :: id in k.live ==> k.socket == Some(id))
    && (k.socket.Some? ==> k.socket.value in k.made && k.made[k.socket.value] == k.generation && k.aborting)
    && (forall id :: id in k.made ==> k.made[id] <= k.generation && id < k.nextId)
    && (forall c :: c in k.calls ==> k.calls[c] <= k.generation && c < k.nextId)
    && (forall c :: c in k.calls && k.calls[c] == k.generation ==> k.aborting && k.socket.None?)
    && (forall c, d :: c in k.calls && d in k.calls && k.calls[c] == k.generation && k.calls[d] == k.generation ==>
      c == d)
  }

  lemma DropSound(k: Link)
    requires LinkSound(k)
    ensures LinkSound(Drop(k)) && IsDown(Drop(k)) && Drop(k).live == {}
  {}

  lemma DialSound(k: Link)
    requires LinkSound(k)
    ensures LinkSound(Dial(k)) && Dial(k).live == {}
  {}

  lemma SocketSteps(k: Link, id: nat)
    requires LinkSound(k)
    ensures LinkSound(Opened(k, id)) && LinkSound(Faded(k, id)) && LinkSound(Closed(k, id))
  {}

  lemma AnsweredSound(k: Link, call: nat)
    requires LinkSound(k) && call in k.calls
    ensures LinkSound(Answered(k, call))
    ensures k.calls[call] == k.generation ==>
      k.aborting && k.socket.None? && forall c :: c in Answered(k, call).calls ==> k.calls[c] != k.generation
  {}

  lemma MadeSound(k: Link)
    requires LinkSound(k) && k.aborting && k.socket.None?
    requires forall c :: c in k.calls ==> k.calls[c] != k.generation
    ensures LinkSound(Made(k))
  {}

  ghost predicate Sound(s: Stream) {
    LinkSound(s.link) && (s.exhausted ==> IsDown(s.link)) && s.failures <= 5
  }

  lemma FailedSound(s: Stream, now: int)
    requires Sound(s)
    ensures Sound(Failed(s, now)) && Failed(s, now).link.live == {}
  {
    DropSound(s.link);
    hide Drop, LinkSound, Backoff, Began;
  }

  lemma ConnectSound(s: Stream, now: int)
    requires Sound(s)
    ensures Sound(Connect(s, now))
  {
    DialSound(s.link);
    hide Drop, Dial, LinkSound, Rebased, Began;
  }

  lemma StopSound(s: Stream)
    requires Sound(s)
    ensures Sound(Stop(s)) && Stop(s).link.live == {}
  {
    DropSound(s.link);
    hide Drop, LinkSound;
  }

  lemma SendSound(s: Stream, now: int, sent: bool)
    requires Sound(s)
    ensures Sound(SendSubscription(s, now, sent))
  {
    FailedSound(s, now);
    hide Failed, LinkSound;
  }

  lemma ReconcileSound(s: Stream, now: int, sent: bool)
    requires Sound(s)
    ensures Sound(Reconcile(s, now, sent))
  {
    DropSound(s.link);
    hide LinkSound, Drop, Renewed, Roster;
    SendSound(s, now, sent);
    SendSound(s.(receipts := Renewed(s.receipts, Roster(s.views), now)), now, sent);
    hide SendSubscription;
  }

  lemma EnsureSound(s: Stream, now: int)
    requires Sound(s)
    ensures Sound(EnsureRunning(s, now))
  {
    hide LinkSound;
    StopSound(s);
    ConnectSound(s.(ticking := true), now);
    hide Connect, Stop;
  }

  lemma ViewsSound(s: Stream, views: map<nat, set<Member>>, now: int, sent: bool)
    requires Sound(s)
    ensures Sound(WithViews(s, views, now, sent))
  {
    hide LinkSound;
    var t := s.(views := views);
    assert Sound(t);
    hide Sound, Reconcile, EnsureRunning;
    ReconcileSound(t, now, sent);
    EnsureSound(Reconcile(t, now, sent), now);
  }

  lemma ReceiveSound(s: Stream, f: Frame, now: int)
    requires Sound(s) && !s.exhausted
    ensures Sound(Receive(s, f, now))
  {
    FailedSound(s, now);
    DropSound(s.link);
    hide Failed, Drop, Accepts, LinkSound;
  }

  lemma PingSound(s: Stream, now: int, sent: bool, pinged: bool)
    requires Sound(s)
    ensures Sound(SendPing(s, now, sent, pinged))
  {
    hide LinkSound;
    var t := SendSubscription(s, now, sent);
    SendSound(s, now, sent);
    FailedSound(t, now);
    hide Failed, SendSubscription;
  }

  lemma TickSound(s: Stream, now: int, sent: bool, pinged: bool)
    requires Sound(s)
    ensures Sound(Tick(s, now, sent, pinged))
  {
    hide LinkSound, Expired;
    var t := s.(receipts := Expired(s.receipts, now));
    assert Sound(t);
    DropSound(t.link);
    FailedSound(t, now);
    ConnectSound(t, now);
    PingSound(t, now, sent, pinged);
    hide Failed, Connect, SendPing, Drop, CanSend;
  }

  lemma ResolveSound(s: Stream, call: nat, now: int, ok: bool, created: bool)
    requires Sound(s) && call in s.link.calls
    ensures Sound(Resolve(s, call, now, ok, created))
  {
    var t := s.(link := Answered(s.link, call));
    AnsweredSound(s.link, call);
    if s.link.calls[call] == s.link.generation {
      MadeSound(t.link);
    }
    assert Sound(t);
    hide LinkSound, Made;
    FailedSound(t, now);
    hide Failed;
  }

  lemma SocketSound(s: Stream, step: Step)
    requires Sound(s) && Enabled(s, step)
    requires step.SocketOpens? || step.SocketFades? || step.SocketCloses? || step.SocketErrors?
    ensures Sound(Next(s, step))
  {
    SocketSteps(s.link, step.id);
    hide LinkSound;
    if step.SocketOpens? {
      SendSound(s.(link := Opened(s.link, step.id)).(connectBy := None, pingAt := step.now + TOOL_PING_MS),
        step.now, step.sent);
    } else if step.SocketCloses? {
      FailedSound(s.(link := Closed(s.link, step.id)), step.now);
    } else if step.SocketErrors? {
      FailedSound(s, step.now);
    }
    hide Failed, SendSubscription;
  }

  lemma AdoptSound(s: Stream, authKey: string)
    requires Sound(s)
    ensures Sound(Adopt(s, authKey))
  {
    hide LinkSound;
    StopSound(s);
    hide Stop;
  }

  lemma StepKeepsSound(s: Stream, step: Step)
    requires Sound(s) && Enabled(s, step)
    ensures Sound(Next(s, step))
  {
    hide LinkSound, WithViews, Tick, Connect, Resolve, Receive, Adopt;
    match step {
      case Subscribe(authKey, ids, now, sent) =>
        AdoptSound(s, authKey);
        ViewsSound(Adopt(s, authKey), Adopt(s, authKey).views[s.nextToken := ids], now, sent);
      case Update(token, ids, now, sent) => ViewsSound(s, s.views[token := ids], now, sent);
      case Release(token, now, sent) => ViewsSound(s, s.views - {token}, now, sent);
      case Ticks(now, sent, pinged) => TickSound(s, now, sent, pinged);
      case Resumes(now) => ConnectSound(s, now);
      case UrlResolved(call, now, ok, created) => ResolveSound(s, call, now, ok, created);
      case Message(id, now, frame) => if !s.exhausted { ReceiveSound(s, frame, now); }
      case _ => SocketSound(s, step);
    }
  }

  // ---- Runs ----

  function After(steps: seq<Step>): Stream
    requires IsRun(steps)
    decreases |steps|, 1
  {
    if steps == [] then INITIAL else Next(After(steps[..|steps| - 1]), steps[|steps| - 1])
  }

  ghost predicate IsRun(steps: seq<Step>)
    decreases |steps|, 0
  {
    steps == [] ||
    (IsRun(steps[..|steps| - 1]) && Enabled(After(steps[..|steps| - 1]), steps[|steps| - 1]))
  }

  lemma {:induction false} PrefixIsRun(steps: seq<Step>, p: nat)
    requires IsRun(steps) && p <= |steps|
    ensures IsRun(steps[..p])
    ensures p < |steps| ==> Enabled(After(steps[..p]), steps[p])
  {
    hide Enabled, Next, After;
    if p == |steps| {
      assert steps[..p] == steps;
    } else if p < |steps| - 1 {
      var before := steps[..|steps| - 1];
      PrefixIsRun(before, p);
      assert before[..p] == steps[..p];
    }
  }

  lemma {:induction false} RunIsSound(steps: seq<Step>)
    requires IsRun(steps)
    ensures Sound(After(steps))
  {
    if steps != [] {
      RunIsSound(steps[..|steps| - 1]);
      hide Sound, Next, Enabled;
      StepKeepsSound(After(steps[..|steps| - 1]), steps[|steps| - 1]);
    }
  }

  lemma AtMostOneElement<T>(s: set<T>, x: Option<T>)
    requires forall y :: y in s ==> x == Some(y)
    ensures |s| <= 1
  {
    if s != {} {
      assert s == {x.value};
    }
  }

  // In every reachable state at most one socket is live, and it is the stream's own.
  lemma AtMostOneSocket(steps: seq<Step>)
    requires IsRun(steps)
    ensures |After(steps).link.live| <= 1
    ensures forall id :: id in After(steps).link.live ==> After(steps).link.socket == Some(id)
  {
    RunIsSound(steps);
    AtMostOneElement(After(steps).link.live, After(steps).link.socket);
  }

  // A callback of an older generation.
  predicate IsLate(s: Stream, step: Step)
    requires Enabled(s, step)
  {
    match step
    case UrlResolved(call, _, _, _) => s.link.calls[call] != s.link.generation
    case SocketOpens(id, _, _) => !Current(s.link, id)
    case SocketCloses(id, _) => !Current(s.link, id)
    case SocketErrors(id, _) => !Current(s.link, id)
    case Message(id, _, _) => !Current(s.link, id)
    case _ => false
  }

  // It changes none of the stream's own fields, and makes no socket and no call.
  lemma LateCallbacksDoNothing(s: Stream, step: Step)
    requires Enabled(s, step) && IsLate(s, step)
    ensures var t := Next(s, step);
      && t.(link := s.link) == s
      && t.link.generation == s.link.generation && t.link.socket == s.link.socket
      && t.link.aborting == s.link.aborting && t.link.made == s.link.made && t.link.calls.Keys <= s.link.calls.Keys
  {}

  // Failing and connecting leave a start that there is, and make no socket.
  lemma FailedKeeps(s: Stream, now: int)
    ensures s.failureStartedAt.Some? ==> Failed(s, now).failureStartedAt == s.failureStartedAt
    ensures s.exhausted ==> Failed(s, now).exhausted
    ensures Failed(s, now).link.made == s.link.made
  {
    hide Backoff;
  }

  lemma ConnectKeeps(s: Stream, now: int)
    ensures s.failureStartedAt.Some? ==> Connect(s, now).failureStartedAt == s.failureStartedAt
    ensures s.exhausted ==> Connect(s, now) == s
  {
    hide Rebased, Dial;
  }

  lemma SendKeeps(s: Stream, now: int, sent: bool)
    ensures var t := SendSubscription(s, now, sent);
      && (s.failureStartedAt.Some? ==> t.failureStartedAt == s.failureStartedAt)
      && (s.exhausted ==> t.exhausted) && t.link.made == s.link.made
  {
    FailedKeeps(s, now);
    hide Failed, CanSend;
  }

  lemma TickKeeps(s: Stream, now: int, sent: bool, pinged: bool)
    ensures var t := Tick(s, now, sent, pinged);
      && (s.failureStartedAt.Some? ==> t.failureStartedAt == s.failureStartedAt)
      && (s.exhausted ==> t.exhausted && t.link.made == s.link.made)
  {
    hide Expired;
    var t := s.(receipts := Expired(s.receipts, now));
    FailedKeeps(t, now);
    ConnectKeeps(t, now);
    SendKeeps(t, now, sent);
    FailedKeeps(SendSubscription(t, now, sent), now);
    hide Failed, Connect, SendSubscription, CanSend, IsDown;
  }

  // ---- An exhausted stream stays down until it is stopped ----

  predicate IsViewStep(step: Step) {
    step.Subscribe? || step.Update? || step.Release?
  }

  // The step stops the stream: another credential, or no member left to watch.
  predicate Stops(s: Stream, step: Step)
    requires Enabled(s, step)
  {
    (step.Subscribe? && step.authKey != s.authKey) || (IsViewStep(step) && Next(s, step).receipts == map[])
  }

  lemma ExhaustedViews(s: Stream, views: map<nat, set<Member>>, now: int, sent: bool)
    requires Sound(s) && s.exhausted
    ensures var t := WithViews(s, views, now, sent);
      t.receipts != map[] ==> t.exhausted && t.link.made == s.link.made
  {
    hide LinkSound, Roster, Renewed;
  }

  lemma ViewsKeepExhausted(s: Stream, step: Step)
    requires Sound(s) && s.exhausted && Enabled(s, step) && IsViewStep(step) && !Stops(s, step)
    ensures Next(s, step).exhausted && Next(s, step).link.made == s.link.made
  {
    hide LinkSound;
    match step {
      case Subscribe(authKey, ids, now, sent) =>
        assert Sound(Adopt(s, authKey));
        ExhaustedViews(Adopt(s, authKey), Adopt(s, authKey).views[s.nextToken := ids], now, sent);
      case Update(token, ids, now, sent) => ExhaustedViews(s, s.views[token := ids], now, sent);
      case Release(token, now, sent) => ExhaustedViews(s, s.views - {token}, now, sent);
    }
    hide WithViews;
  }

  lemma NetworkKeepsExhausted(s: Stream, step: Step)
    requires Sound(s) && s.exhausted && Enabled(s, step) && !IsViewStep(step) && !step.Ticks?
    ensures Next(s, step).exhausted && Next(s, step).link.made == s.link.made
  {
    match step {
      case Resumes(now) => ConnectKeeps(s, now);
      case UrlResolved(call, now, _, _) => AnsweredSound(s.link, call);
      case SocketOpens(id, now, sent) =>
        SendKeeps(s.(link := Opened(s.link, id)).(connectBy := None, pingAt := now + TOOL_PING_MS), now, sent);
      case SocketCloses(id, now) => FailedKeeps(s.(link := Closed(s.link, id)), now);
      case SocketErrors(_, now) => FailedKeeps(s, now);
      case _ =>
    }
    hide Failed, Connect, SendSubscription, Receive, LinkSound;
  }

  lemma StepKeepsExhausted(s: Stream, step: Step)
    requires Sound(s) && s.exhausted && Enabled(s, step) && !Stops(s, step)
    ensures Next(s, step).exhausted && Next(s, step).link.made == s.link.made
  {
    hide WithViews, Tick, Connect, Resolve, Opens, Ends, Receive, Adopt, Stops, Sound;
    if IsViewStep(step) {
      ViewsKeepExhausted(s, step);
    } else if step.Ticks? {
      TickKeeps(s, step.now, step.sent, step.pinged);
    } else {
      NetworkKeepsExhausted(s, step);
    }
  }

  ghost predicate StopsAt(steps: seq<Step>, q: nat)
    requires IsRun(steps) && q < |steps|
  {
    PrefixIsRun(steps, q);
    Stops(After(steps[..q]), steps[q])
  }

  ghost predicate StopsAfter(steps: seq<Step>, p: nat)
    requires IsRun(steps)
  {
    exists q :: p <= q < |steps| && StopsAt(steps, q)
  }

  lemma StopsAtLast(steps: seq<Step>)
    requires IsRun(steps) && steps != []
    ensures var n := |steps| - 1; IsRun(steps[..n]) && (StopsAt(steps, n) <==> Stops(After(steps[..n]), steps[n]))
  {
    hide Stops, After;
  }

  lemma StopsAtPrefix(steps: seq<Step>, q: nat)
    requires IsRun(steps) && q < |steps| - 1 && IsRun(steps[..|steps| - 1])
    ensures StopsAt(steps[..|steps| - 1], q) == StopsAt(steps, q)
  {
    assert steps[..|steps| - 1][..q] == steps[..q];
    hide Stops, After, IsRun;
  }

  lemma StopsBefore(steps: seq<Step>, p: nat)
    requires IsRun(steps) && p < |steps| && !StopsAfter(steps, p)
    ensures var n := |steps| - 1;
            IsRun(steps[..n]) && !StopsAfter(steps[..n], p) && Enabled(After(steps[..n]), steps[n]) &&
              !Stops(After(steps[..n]), steps[n])
  {
    var n := |steps| - 1;
    assert !StopsAt(steps, n);
    hide Stops, StopsAt, Enabled, Next, After, IsRun;
    PrefixIsRun(steps, n);
    StopsAtLast(steps);
    forall q | p <= q < n
      ensures !StopsAt(steps[..n], q)
    {
      StopsAtPrefix(steps, q);
      assert !StopsAt(steps, q);
    }
  }

  lemma AfterStep(steps: seq<Step>)
    requires IsRun(steps) && steps != []
    ensures var n := |steps| - 1;
            IsRun(steps[..n]) && Enabled(After(steps[..n]), steps[n]) &&
              After(steps) == Next(After(steps[..n]), steps[n])
  {
    hide Next, Enabled;
  }

  lemma NoneLiveWhenExhausted(s: Stream)
    requires Sound(s) && s.exhausted
    ensures s.link.live == {}
  {}

  // Once exhausted, no tick, resume or late answer brings the stream back or makes a socket,
  // until it is stopped.
  lemma {:induction false} ExhaustedUntilStopped(steps: seq<Step>, p: nat)
    requires IsRun(steps) && p <= |steps|
    requires IsRun(steps[..p]) && After(steps[..p]).exhausted && !StopsAfter(steps, p)
    ensures After(steps).exhausted && After(steps).link.made == After(steps[..p]).link.made &&
      After(steps).link.live == {}
  {
    hide Sound, Next, Enabled, Stops, StopsAfter, After, IsRun;
    RunIsSound(steps);
    if p == |steps| {
      assert steps[..p] == steps;
    } else {
      var n := |steps| - 1;
      StopsBefore(steps, p);
      AfterStep(steps);
      assert steps[..n][..p] == steps[..p];
      ExhaustedUntilStopped(steps[..n], p);
      RunIsSound(steps[..n]);
      StepKeepsExhausted(After(steps[..n]), steps[n]);
    }
    NoneLiveWhenExhausted(After(steps));
  }

  // ---- The outage budget ----

  // The step is an accepted subscribed or state frame.
  predicate Renews(s: Stream, step: Step)
    requires Enabled(s, step)
  {
    && step.Message? && Current(s.link, step.id) && s.link.socket == Some(step.id)
    && (step.frame.Subscribed? || (step.frame.State? && Accepts(s, step.frame)))
  }

  lemma ConnectReceipts(s: Stream, now: int)
    ensures Connect(s, now).receipts.Keys == s.receipts.Keys
  {
    hide Dial, Began;
  }

  lemma BudgetViews(s: Stream, views: map<nat, set<Member>>, now: int, sent: bool)
    requires s.failureStartedAt.Some?
    ensures var t := WithViews(s, views, now, sent);
      t.receipts != map[] ==> t.failureStartedAt == s.failureStartedAt
  {
    hide Roster, Renewed, Drop;
    var a := s.(views := views);
    var c := a.(receipts := Renewed(a.receipts, Roster(views), now));
    SendKeeps(a, now, sent);
    SendKeeps(c, now, sent);
    hide SendSubscription;
    var b := Reconcile(a, now, sent);
    assert b.failureStartedAt == s.failureStartedAt;
    ConnectKeeps(b.(ticking := true), now);
    ConnectReceipts(b.(ticking := true), now);
    hide Reconcile, Connect;
  }

  lemma ViewsKeepStart(s: Stream, step: Step)
    requires s.failureStartedAt.Some? && Enabled(s, step) && IsViewStep(step) && !Stops(s, step)
    ensures Next(s, step).failureStartedAt == s.failureStartedAt
  {
    match step {
      case Subscribe(authKey, ids, now, sent) =>
        BudgetViews(Adopt(s, authKey), Adopt(s, authKey).views[s.nextToken := ids], now, sent);
      case Update(token, ids, now, sent) => BudgetViews(s, s.views[token := ids], now, sent);
      case Release(token, now, sent) => BudgetViews(s, s.views - {token}, now, sent);
    }
    hide WithViews;
  }

  lemma NetworkKeepsStart(s: Stream, step: Step)
    requires s.failureStartedAt.Some? && Enabled(s, step) && !IsViewStep(step) && !step.Ticks? && !Renews(s, step)
    ensures Next(s, step).failureStartedAt == s.failureStartedAt
  {
    match step {
      case Resumes(now) => ConnectKeeps(s, now);
      case UrlResolved(call, now, _, _) => FailedKeeps(s.(link := Answered(s.link, call)), now);
      case SocketOpens(id, now, sent) =>
        SendKeeps(s.(link := Opened(s.link, id)).(connectBy := None, pingAt := now + TOOL_PING_MS), now, sent);
      case SocketCloses(id, now) => FailedKeeps(s.(link := Closed(s.link, id)), now);
      case SocketErrors(_, now) => FailedKeeps(s, now);
      case Message(_, now, _) => FailedKeeps(s, now);
      case _ =>
    }
    hide Failed, Connect, SendSubscription, Accepts, Answered, Made, Opened, Closed, Drop;
  }

  // The start of an outage moves only when a frame is accepted or the stream is stopped.
  lemma StepKeepsStart(s: Stream, step: Step)
    requires s.failureStartedAt.Some? && Enabled(s, step) && !Renews(s, step) && !Stops(s, step)
    ensures Next(s, step).failureStartedAt == s.failureStartedAt
  {
    hide WithViews, Tick, Connect, Resolve, Opens, Ends, Receive, Adopt, Renews, Stops, Current;
    if IsViewStep(step) {
      ViewsKeepStart(s, step);
    } else if step.Ticks? {
      TickKeeps(s, step.now, step.sent, step.pinged);
    } else {
      NetworkKeepsStart(s, step);
    }
  }

  // A tick late enough ends the outage, whatever else is going on.
  lemma LateTickExhausts(s: Stream, now: int, sent: bool, pinged: bool)
    requires Sound(s) && s.failureStartedAt.Some? && now - s.failureStartedAt.value >= OUTAGE_BUDGET_MS
    ensures Tick(s, now, sent, pinged).exhausted && Tick(s, now, sent, pinged).link.live == {}
  {
    DropSound(s.link);
    hide Expired, Failed, Connect, SendPing;
    if s.exhausted {
      assert s.link.live == {};
    }
  }

  ghost predicate RenewsAt(steps: seq<Step>, q: nat)
    requires IsRun(steps) && q < |steps|
  {
    PrefixIsRun(steps, q);
    Renews(After(steps[..q]), steps[q])
  }

  ghost predicate RenewsAfter(steps: seq<Step>, p: nat)
    requires IsRun(steps)
  {
    exists q :: p <= q < |steps| && RenewsAt(steps, q)
  }

  lemma RenewsAtLast(steps: seq<Step>)
    requires IsRun(steps) && steps != []
    ensures var n := |steps| - 1; IsRun(steps[..n]) && (RenewsAt(steps, n) <==> Renews(After(steps[..n]), steps[n]))
  {
    hide Renews, After;
  }

  lemma RenewsAtPrefix(steps: seq<Step>, q: nat)
    requires IsRun(steps) && q < |steps| - 1 && IsRun(steps[..|steps| - 1])
    ensures RenewsAt(steps[..|steps| - 1], q) == RenewsAt(steps, q)
  {
    assert steps[..|steps| - 1][..q] == steps[..q];
    hide Renews, After, IsRun;
  }

  lemma RenewsBefore(steps: seq<Step>, p: nat)
    requires IsRun(steps) && p < |steps| && !RenewsAfter(steps, p)
    ensures var n := |steps| - 1;
            IsRun(steps[..n]) && !RenewsAfter(steps[..n], p) && Enabled(After(steps[..n]), steps[n]) &&
              !Renews(After(steps[..n]), steps[n])
  {
    var n := |steps| - 1;
    assert !RenewsAt(steps, n);
    hide Renews, RenewsAt, Enabled, Next, After, IsRun;
    PrefixIsRun(steps, n);
    RenewsAtLast(steps);
    forall q | p <= q < n
      ensures !RenewsAt(steps[..n], q)
    {
      RenewsAtPrefix(steps, q);
      assert !RenewsAt(steps, q);
    }
  }

  lemma {:induction false} StartLasts(steps: seq<Step>, p: nat)
    requires IsRun(steps) && p <= |steps| && IsRun(steps[..p]) && After(steps[..p]).failureStartedAt.Some?
    requires !StopsAfter(steps, p) && !RenewsAfter(steps, p)
    ensures After(steps).failureStartedAt == After(steps[..p]).failureStartedAt
  {
    hide Next, Enabled, Stops, StopsAfter, Renews, RenewsAfter, After, IsRun;
    if p == |steps| {
      assert steps[..p] == steps;
    } else {
      var n := |steps| - 1;
      StopsBefore(steps, p);
      RenewsBefore(steps, p);
      AfterStep(steps);
      assert steps[..n][..p] == steps[..p];
      StartLasts(steps[..n], p);
      StepKeepsStart(After(steps[..n]), steps[n]);
    }
  }

  // Two minutes after an outage began, with no accepted frame since, the next tick gives up.
  lemma BudgetRunsOut(steps: seq<Step>, p: nat, now: int, sent: bool, pinged: bool)
    requires IsRun(steps) && p <= |steps| && IsRun(steps[..p]) && After(steps[..p]).failureStartedAt.Some?
    requires !StopsAfter(steps, p) && !RenewsAfter(steps, p)
    requires now - After(steps[..p]).failureStartedAt.value >= OUTAGE_BUDGET_MS
    ensures Tick(After(steps), now, sent, pinged).exhausted && Tick(After(steps), now, sent, pinged).link.live == {}
  {
    hide Tick, StopsAfter, RenewsAfter, After, IsRun;
    StartLasts(steps, p);
    RunIsSound(steps);
    LateTickExhausts(After(steps), now, sent, pinged);
  }

  // ---- Orders never go back ----

  // A receipt without an order awaits a baseline, and only such a receipt does.
  ghost predicate Awaiting(receipts: map<Member, Receipt>) {
    forall id :: id in receipts ==> (receipts[id].baseline <==> receipts[id].order.None?)
  }

  lemma FailedReceipts(s: Stream, now: int)
    ensures Failed(s, now).receipts == s.receipts && Failed(s, now).views == s.views &&
      Failed(s, now).ticking == s.ticking
  {
    hide Drop, Backoff, Began;
  }

  lemma SendReceipts(s: Stream, now: int, sent: bool)
    ensures var t := SendSubscription(s, now, sent);
            t.receipts == s.receipts && t.views == s.views && t.ticking == s.ticking
  {
    hide CanSend, Failed;
    FailedReceipts(s, now);
  }

  // A new connection makes every member await a baseline.
  lemma ConnectAwaits(s: Stream, now: int)
    ensures var t := Connect(s, now);
      && t.views == s.views && t.ticking == s.ticking && (t.receipts == s.receipts || t.receipts == Rebased(s.receipts))
      && (t != s ==> forall id :: id in t.receipts ==> t.receipts[id].baseline && t.receipts[id].order.None?)
  {
    hide Dial, Drop, Began;
  }

  // The receipts after the views changed: none beyond the cap, otherwise one a member.
  function Watched(views: map<nat, set<Member>>): set<Member> {
    if |Roster(views)| > LIVE_MEMBER_CAP then {} else Roster(views)
  }

  lemma ReconcileReceipts(s: Stream, now: int, sent: bool)
    ensures var t := Reconcile(s, now, sent);
      && t.receipts == Renewed(s.receipts, Watched(s.views), now) && t.views == s.views && t.ticking == s.ticking
  {
    hide Drop, Roster;
    SendReceipts(s, now, sent);
    SendReceipts(s.(receipts := Renewed(s.receipts, Roster(s.views), now)), now, sent);
    hide SendSubscription;
  }

  lemma RebasedKeys(receipts: map<Member, Receipt>)
    ensures Rebased(receipts).Keys == receipts.Keys
    ensures Rebased(receipts) == map[] <==> receipts == map[]
  {
    if receipts != map[] {
      var id :| id in receipts;
      assert id in Rebased(receipts);
    }
  }

  lemma WithViewsReceipts(s: Stream, views: map<nat, set<Member>>, now: int, sent: bool)
    ensures var t, receipts := WithViews(s, views, now, sent), Renewed(s.receipts, Watched(views), now);
      && (t.receipts == receipts || t.receipts == Rebased(receipts))
      && t.views == views && (t.ticking <==> t.receipts != map[])
  {
    hide Watched, Renewed, Drop;
    ReconcileReceipts(s.(views := views), now, sent);
    hide Reconcile;
    var b := Reconcile(s.(views := views), now, sent);
    ConnectAwaits(b.(ticking := true), now);
    RebasedKeys(b.receipts);
    hide Connect, Rebased;
  }

  lemma TickReceipts(s: Stream, now: int, sent: bool, pinged: bool)
    ensures var t, receipts := Tick(s, now, sent, pinged), Expired(s.receipts, now);
      && (t.receipts == receipts || t.receipts == Rebased(receipts)) && t.views == s.views && t.ticking == s.ticking
  {
    hide Expired;
    var e := s.(receipts := Expired(s.receipts, now));
    FailedReceipts(e, now);
    SendReceipts(e, now, sent);
    FailedReceipts(SendSubscription(e, now, sent), now);
    ConnectAwaits(e, now);
    hide Failed, SendSubscription, Connect, CanSend, IsDown, Drop, Rebased;
  }

  // What is done to receipts keeps awaiting receipts so.
  lemma ReceiptsKeepAwaiting(receipts: map<Member, Receipt>, ids: set<Member>, now: int)
    requires Awaiting(receipts)
    ensures Awaiting(Renewed(receipts, ids, now)) && Awaiting(Rebased(receipts)) && Awaiting(Expired(receipts, now))
  {}

  lemma ViewsKeepAwaiting(s: Stream, views: map<nat, set<Member>>, now: int, sent: bool)
    requires Awaiting(s.receipts)
    ensures Awaiting(WithViews(s, views, now, sent).receipts)
  {
    hide WithViews, Watched;
    WithViewsReceipts(s, views, now, sent);
    ReceiptsKeepAwaiting(s.receipts, Watched(views), now);
    ReceiptsKeepAwaiting(Renewed(s.receipts, Watched(views), now), {}, now);
    hide Awaiting, Renewed, Rebased;
  }

  lemma ReceiveReceipts(s: Stream, f: Frame, now: int)
    requires Awaiting(s.receipts)
    ensures Awaiting(Receive(s, f, now).receipts)
  {
    FailedReceipts(s, now);
    hide Failed, Drop, Accepts;
  }

  lemma SocketReceipts(s: Stream, step: Step)
    requires Enabled(s, step)
    requires step.UrlResolved? || step.SocketOpens? || step.SocketFades? || step.SocketCloses? || step.SocketErrors?
    ensures var t := Next(s, step); t.receipts == s.receipts && t.views == s.views && t.ticking == s.ticking
  {
    match step {
      case UrlResolved(call, now, _, _) => FailedReceipts(s.(link := Answered(s.link, call)), now);
      case SocketOpens(id, now, sent) =>
        SendReceipts(s.(link := Opened(s.link, id)).(connectBy := None, pingAt := now + TOOL_PING_MS), now, sent);
      case SocketCloses(id, now) => FailedReceipts(s.(link := Closed(s.link, id)), now);
      case SocketErrors(_, now) => FailedReceipts(s, now);
      case _ =>
    }
    hide Failed, SendSubscription, Answered, Opened, Closed, Made, Faded;
  }

  lemma StepKeepsAwaiting(s: Stream, step: Step)
    requires Awaiting(s.receipts) && Enabled(s, step)
    ensures Awaiting(Next(s, step).receipts)
  {
    match step {
      case Subscribe(authKey, ids, now, sent) =>
        assert Awaiting(Adopt(s, authKey).receipts);
        ViewsKeepAwaiting(Adopt(s, authKey), Adopt(s, authKey).views[s.nextToken := ids], now, sent);
      case Update(token, ids, now, sent) => ViewsKeepAwaiting(s, s.views[token := ids], now, sent);
      case Release(token, now, sent) => ViewsKeepAwaiting(s, s.views - {token}, now, sent);
      case Ticks(now, sent, pinged) =>
        TickReceipts(s, now, sent, pinged);
        ReceiptsKeepAwaiting(s.receipts, {}, now);
        ReceiptsKeepAwaiting(Expired(s.receipts, now), {}, now);
      case Resumes(now) =>
        ConnectAwaits(s, now);
        ReceiptsKeepAwaiting(s.receipts, {}, now);
      case Message(id, now, frame) => ReceiveReceipts(s, frame, now);
      case _ => SocketReceipts(s, step);
    }
    hide WithViews, Tick, Connect, Receive, Resolve, Opens, Ends, Awaiting, Adopt, Rebased, Expired;
  }

  function LastOrder(receipts: map<Member, Receipt>, id: Member): Option<Order> {
    if id in receipts then receipts[id].order else None
  }

  // The step is an accepted state of this member.
  predicate AcceptsState(s: Stream, step: Step, id: Member)
    requires Enabled(s, step)
  {
    && step.Message? && Current(s.link, step.id) && s.link.socket == Some(step.id)
    && step.frame.State? && step.frame.id == id && Accepts(s, step.frame)
  }

  predicate SameOrNone(before: map<Member, Receipt>, after: map<Member, Receipt>, id: Member) {
    LastOrder(after, id).None? || LastOrder(after, id) == LastOrder(before, id)
  }

  lemma ReceiptsOrder(receipts: map<Member, Receipt>, ids: set<Member>, now: int, id: Member)
    ensures SameOrNone(receipts, Renewed(receipts, ids, now), id)
    ensures SameOrNone(receipts, Rebased(receipts), id)
    ensures LastOrder(Expired(receipts, now), id) == LastOrder(receipts, id)
  {}

  lemma ViewsOrder(s: Stream, views: map<nat, set<Member>>, now: int, sent: bool, id: Member)
    ensures SameOrNone(s.receipts, WithViews(s, views, now, sent).receipts, id)
  {
    hide WithViews, Watched;
    WithViewsReceipts(s, views, now, sent);
    ReceiptsOrder(s.receipts, Watched(views), now, id);
    ReceiptsOrder(Renewed(s.receipts, Watched(views), now), {}, now, id);
    hide Renewed, Rebased, LastOrder;
  }

  lemma ReceiveOrder(s: Stream, f: Frame, now: int, id: Member)
    ensures f.State? && f.id == id && Accepts(s, f) ==> LastOrder(Receive(s, f, now).receipts, id) == Some(f.order)
    ensures !(f.State? && f.id == id && Accepts(s, f)) ==> SameOrNone(s.receipts, Receive(s, f, now).receipts, id)
  {
    FailedReceipts(s, now);
    hide Failed, Drop, Accepts;
  }

  lemma AdoptOrder(s: Stream, authKey: string, id: Member)
    ensures SameOrNone(s.receipts, Adopt(s, authKey).receipts, id)
  {}

  // A member's order changes only to that of an accepted state, or is forgotten.
  lemma StepOrder(s: Stream, step: Step, id: Member)
    requires Enabled(s, step) && Awaiting(s.receipts)
    ensures AcceptsState(s, step, id) ==> LastOrder(Next(s, step).receipts, id) == Some(step.frame.order)
    ensures !AcceptsState(s, step, id) ==> SameOrNone(s.receipts, Next(s, step).receipts, id)
  {
    hide WithViews, Tick, Connect, Receive, Resolve, Opens, Ends, Awaiting, Expired, Accepts, Rebased, LastOrder;
    match step {
      case Subscribe(authKey, ids, now, sent) =>
        AdoptOrder(s, authKey, id);
        ViewsOrder(Adopt(s, authKey), Adopt(s, authKey).views[s.nextToken := ids], now, sent, id);
      case Update(token, ids, now, sent) => ViewsOrder(s, s.views[token := ids], now, sent, id);
      case Release(token, now, sent) => ViewsOrder(s, s.views - {token}, now, sent, id);
      case Ticks(now, sent, pinged) =>
        TickReceipts(s, now, sent, pinged);
        ReceiptsOrder(s.receipts, {}, now, id);
        ReceiptsOrder(Expired(s.receipts, now), {}, now, id);
      case Resumes(now) =>
        ConnectAwaits(s, now);
        ReceiptsOrder(s.receipts, {}, now, id);
      case Message(socket, now, frame) => ReceiveOrder(s, frame, now, id);
      case _ => SocketReceipts(s, step);
    }
  }

  predicate NotBefore(later: Order, earlier: Order) {
    CompareToolOrder(later, earlier) >= 0
  }

  // An accepted state starts from a baseline, or does not go back; at the same order it is
  // a refresh or a baseline.
  lemma AcceptedGoesOn(s: Stream, step: Step, id: Member)
    requires Awaiting(s.receipts) && Enabled(s, step) && AcceptsState(s, step, id)
    ensures match LastOrder(s.receipts, id)
            case None => step.frame.baseline
            case Some(last) =>
              && NotBefore(step.frame.order, last)
              && (step.frame.order == last ==> step.frame.refresh || step.frame.baseline)
  {}

  lemma OrderIsTotal(a: Order, b: Order, c: Order)
    ensures NotBefore(a, b) || NotBefore(b, a)
    ensures NotBefore(a, b) && NotBefore(b, c) ==> NotBefore(a, c)
    ensures CompareToolOrder(a, b) == 0 <==> a == b
  {}

  lemma {:induction false} RunAwaits(steps: seq<Step>)
    requires IsRun(steps)
    ensures Awaiting(After(steps).receipts)
  {
    if steps != [] {
      var before := steps[..|steps| - 1];
      RunAwaits(before);
      AfterStep(steps);
      hide Next, Enabled, Awaiting;
      StepKeepsAwaiting(After(before), steps[|steps| - 1]);
    }
  }

  // The orders accepted of a member since its receipt was last without one.
  ghost function Orders(steps: seq<Step>, id: Member): seq<Order>
    requires IsRun(steps)
  {
    if steps == [] || LastOrder(After(steps).receipts, id).None? then []
    else
      var n := |steps| - 1;
      if AcceptsState(After(steps[..n]), steps[n], id)
      then Orders(steps[..n], id) + [LastOrder(After(steps).receipts, id).value]
      else Orders(steps[..n], id)
  }

  ghost predicate Rising(orders: seq<Order>, last: Option<Order>) {
    && (orders == [] <==> last.None?)
    && (orders != [] ==> last == Some(orders[|orders| - 1]))
    && forall i, j :: 0 <= i < j < |orders| ==> NotBefore(orders[j], orders[i])
  }

  lemma LaterThanAll(orders: seq<Order>, order: Order)
    requires forall i, j :: 0 <= i < j < |orders| ==> NotBefore(orders[j], orders[i])
    requires orders != [] ==> NotBefore(order, orders[|orders| - 1])
    ensures forall i :: 0 <= i < |orders| ==> NotBefore(order, orders[i])
  {
    forall i | 0 <= i < |orders|
      ensures NotBefore(order, orders[i])
    {
      OrderIsTotal(order, orders[|orders| - 1], orders[i]);
    }
  }

  lemma OneMoreOrder(orders: seq<Order>, last: Option<Order>, order: Order)
    requires Rising(orders, last) && (last.Some? ==> NotBefore(order, last.value))
    ensures Rising(orders + [order], Some(order))
  {
    LaterThanAll(orders, order);
    hide NotBefore;
  }

  // What is shown of a member never goes back in order between two baselines.
  lemma {:induction false} OrdersNeverGoBack(steps: seq<Step>, id: Member)
    requires IsRun(steps)
    ensures Rising(Orders(steps, id), LastOrder(After(steps).receipts, id))
  {
    if steps != [] {
      var n := |steps| - 1;
      var s, step := After(steps[..n]), steps[n];
      AfterStep(steps);
      OrdersNeverGoBack(steps[..n], id);
      RunAwaits(steps[..n]);
      StepOrder(s, step, id);
      if AcceptsState(s, step, id) {
        AcceptedGoesOn(s, step, id);
        OneMoreOrder(Orders(steps[..n], id), LastOrder(s.receipts, id), step.frame.order);
      }
      assert Rising([], None);
      hide Next, Enabled, Awaiting, AcceptsState, Rising, LastOrder, After;
    }
  }

  // ---- The receipts follow the views ----

  // One receipt for every member that a view asks for, none beyond the cap; and the stream
  // runs exactly while there is one.
  ghost predicate FollowsViews(s: Stream) {
    s.receipts.Keys == Watched(s.views) && (s.ticking <==> s.receipts != map[])
  }

  lemma ViewsFollow(s: Stream, views: map<nat, set<Member>>, now: int, sent: bool)
    ensures FollowsViews(WithViews(s, views, now, sent))
  {
    hide WithViews, Watched;
    WithViewsReceipts(s, views, now, sent);
    RebasedKeys(Renewed(s.receipts, Watched(views), now));
    assert Renewed(s.receipts, Watched(views), now).Keys == Watched(views);
    hide Renewed, Rebased;
  }

  lemma SameKeys(a: map<Member, Receipt>, b: map<Member, Receipt>)
    requires a.Keys == b.Keys
    ensures a == map[] <==> b == map[]
  {
    assert a == map[] <==> a.Keys == {};
    assert b == map[] <==> b.Keys == {};
  }

  lemma UpdateKeepsKeys(receipts: map<Member, Receipt>, id: Member, r: Receipt)
    requires id in receipts
    ensures receipts[id := r].Keys == receipts.Keys
  {}

  lemma ReceiveKeys(s: Stream, f: Frame, now: int)
    ensures var t := Receive(s, f, now);
      t.receipts.Keys == s.receipts.Keys && t.views == s.views && t.ticking == s.ticking
  {
    FailedReceipts(s, now);
    var t := Receive(s, f, now);
    if (f.Unavailable? || f.State?) && f.id in s.receipts {
      UpdateKeepsKeys(s.receipts, f.id, t.receipts[f.id]);
    }
    hide Failed, Drop, Accepts;
  }

  lemma StepKeepsFollowing(s: Stream, step: Step)
    requires FollowsViews(s) && Enabled(s, step)
    ensures FollowsViews(Next(s, step))
  {
    match step {
      case Subscribe(authKey, ids, now, sent) =>
        ViewsFollow(Adopt(s, authKey), Adopt(s, authKey).views[s.nextToken := ids], now, sent);
      case Update(token, ids, now, sent) => ViewsFollow(s, s.views[token := ids], now, sent);
      case Release(token, now, sent) => ViewsFollow(s, s.views - {token}, now, sent);
      case Ticks(now, sent, pinged) =>
        TickReceipts(s, now, sent, pinged);
        RebasedKeys(Expired(s.receipts, now));
        assert Expired(s.receipts, now).Keys == s.receipts.Keys;
      case Resumes(now) =>
        ConnectAwaits(s, now);
        RebasedKeys(s.receipts);
      case Message(id, now, frame) => ReceiveKeys(s, frame, now);
      case _ => SocketReceipts(s, step);
    }
    if Next(s, step).receipts.Keys == s.receipts.Keys {
      SameKeys(s.receipts, Next(s, step).receipts);
    }
    hide WithViews, Tick, Connect, Receive, Resolve, Opens, Ends, Adopt, Expired, Rebased, Watched;
  }

  lemma {:induction false} RunFollowsViews(steps: seq<Step>)
    requires IsRun(steps)
    ensures FollowsViews(After(steps))
  {
    if steps == [] {
      assert Roster(map[]) == {};
    } else {
      var before := steps[..|steps| - 1];
      RunFollowsViews(before);
      AfterStep(steps);
      hide Next, Enabled, FollowsViews, After, IsRun;
      StepKeepsFollowing(After(before), steps[|steps| - 1]);
    }
  }

  // ---- The retry delay ----

  // A failure that does not exhaust the stream waits 1, 2, 4, 8 or 16 seconds: the cap of
  // half a minute is never reached.
  lemma RetriesWait(s: Stream, now: int)
    requires !Failed(s, now).exhausted
    ensures s.failures < 5 && Failed(s, now).failures == s.failures + 1
    ensures Failed(s, now).reconnectAt - now == 1000 * Pow2(s.failures) <= 16000
  {
    assert Pow2(0) == 1 && Pow2(1) == 2 && Pow2(2) == 4 && Pow2(3) == 8 && Pow2(4) == 16;
  }
}
