// startUserWsConnection of src/ui/api/useUserWebSocket.ts: the loop that keeps one user
// WebSocket connected, as steps of its callbacks against an arbitrary environment.
module ConnectionLoop {
  import opened Arithmetic
  import opened Options

  const MAX_CONSECUTIVE_FAILURES := 12
  const STABLE_CONNECTION_MS := 30000
  const INITIAL_BACKOFF_MS := 1000
  const MAX_BACKOFF_MS := 30000

  // ---- The retry delay ----

  function Backoff(failures: nat): nat {
    if INITIAL_BACKOFF_MS * Pow2(failures) < MAX_BACKOFF_MS then INITIAL_BACKOFF_MS * Pow2(failures) else MAX_BACKOFF_MS
  }

  // A value of the random source: at least 0, less than 1.
  type Fraction = x: real | 0.0 <= x < 1.0

  function ReconnectDelay(failures: nat, random: Fraction): int {
    var half := Backoff(failures) as real / 2.0;
    (half + random * half + 0.5).Floor
  }

  lemma {:induction false} BackoffBounds(failures: nat)
    ensures Backoff(failures) % 2 == 0 && 1000 <= Backoff(failures) <= 30000
    ensures Backoff(failures + 1) == if 2 * Backoff(failures) < 30000 then 2 * Backoff(failures) else 30000
  {
    if failures > 0 {
      BackoffBounds(failures - 1);
    }
  }

  lemma NotNegative(x: real, y: real)
    requires x >= 0.0 && y >= 0.0
    ensures x * y >= 0.0
  {}

  lemma AtMost(x: Fraction, y: real, product: real)
    requires y >= 0.0 && product == x * y
    ensures 0.0 <= product <= y
  {
    var rest := 1.0 - x;
    assert y - product == rest * y;
    NotNegative(rest, y);
    NotNegative(x, y);
  }

  lemma Rounded(half: nat, part: real)
    requires 0.0 <= part <= half as real
    ensures half <= (half as real + part + 0.5).Floor <= 2 * half
  {}

  // Half of the delay is fixed, half random; it doubles with every failure up to the cap.
  lemma DelayBounds(failures: nat, random: Fraction)
    ensures Backoff(failures) / 2 <= ReconnectDelay(failures, random) <= Backoff(failures)
    ensures 500 <= ReconnectDelay(failures, random) <= 30000
  {
    BackoffBounds(failures);
    hide Backoff;
    var half := Backoff(failures) / 2;
    var h, part := half as real, random * half as real;
    assert Backoff(failures) as real / 2.0 == h;
    AtMost(random, h, part);
    Rounded(half, part);
  }

  // ---- State ----

  // What the loop has outstanding in the environment: at most one of these at a time, as
  // proved below.
  datatype Activity =
    | Resolving
    | Socket(readyAt: Option<int>)
    | Probing
    | Waiting(setAt: int, due: int)

  datatype Loop = Loop(
    stopped: bool,
    parked: bool,
    failures: nat,
    socket: Option<nat>,
    reconnectTimer: Option<nat>,
    stableTimer: Option<int>,
    active: map<nat, Activity>,
    nextId: nat)

  datatype Resolution = Url | NoUrl | AuthError | Failed
  datatype CloseClass = Auth | Forbidden | Transient | Unknown
  datatype ProbeResult = Ok | Unauthenticated | Denied | Unavailable

  datatype Step =
    | Resolved(id: nat, at: int, outcome: Resolution, random: Fraction)
    | ReadyFrame(id: nat, at: int)
    | Closed(id: nat, at: int, code: int, electron: bool, random: Fraction)
    | Probed(id: nat, at: int, verdict: ProbeResult, random: Fraction)
    | RetryFires(id: nat, at: int)
    | StableFires(at: int)
    | Resume(at: int, hidden: bool)
    | Stop(at: int)

  function ClassifyClose(code: int): CloseClass {
    if code == 4401 then Auth
    else if code == 4403 then Forbidden
    else if code == 1013 || code == 1001 || code == 1012 then Transient
    else Unknown
  }

  // ---- One step, as a specification ----

  function Add(s: Loop, a: Activity): Loop {
    s.(active := s.active[s.nextId := a], nextId := s.nextId + 1)
  }

  function Remove(s: Loop, id: nat): Loop {
    s.(active := s.active - {id})
  }

  function Connect(s: Loop): Loop {
    if s.stopped || s.parked then s else Add(s, Resolving)
  }

  function Retry(s: Loop, at: int, random: Fraction): Loop {
    if s.stopped || s.parked then s
    else if s.failures >= MAX_CONSECUTIVE_FAILURES then s.(parked := true)
    else
      Add(s.(failures := s.failures + 1, reconnectTimer := Some(s.nextId)),
          Waiting(at, at + ReconnectDelay(s.failures, random)))
  }

  function AfterClose(s: Loop, ready: bool, step: Step): Loop
    requires step.Closed?
  {
    if s.stopped then s
    else
      match ClassifyClose(step.code)
      case Auth => s.(parked := true)
      case Forbidden => s.(parked := true)
      case Transient => Retry(s, step.at, step.random)
      case Unknown =>
        if ready || step.electron then Retry(s, step.at, step.random) else Add(s, Probing)
  }

  function Forget(s: Loop, id: Option<nat>): Loop {
    if id.Some? then Remove(s, id.value) else s
  }

  function Next(s: Loop, step: Step): Loop
    requires step.Closed? ==> step.id in s.active && s.active[step.id].Socket?
  {
    match step
    case Resolved(id, at, outcome, random) =>
      var t := Remove(s, id);
      (match outcome
       case Url => if s.stopped then t else Add(t.(socket := Some(s.nextId)), Socket(None))
       case NoUrl => t
       case AuthError => t.(parked := true)
       case Failed => Retry(t, at, random))
    case ReadyFrame(id, at) =>
      s.(active := s.active[id := Socket(Some(at))], stableTimer := Some(at + STABLE_CONNECTION_MS))
    case Closed(id, _, _, _, _) =>
      AfterClose(Remove(s, id).(stableTimer := None, socket := None), s.active[id].readyAt.Some?, step)
    case Probed(id, at, verdict, random) =>
      var t := Remove(s, id);
      if s.stopped then t
      else if verdict == Unauthenticated || verdict == Denied then t.(parked := true)
      else Retry(t, at, random)
    case RetryFires(id, _) => Connect(Remove(s, id).(reconnectTimer := None))
    case StableFires(_) => s.(stableTimer := None, failures := 0)
    case Resume(_, hidden) =>
      if s.stopped || !s.parked || hidden then s else Connect(s.(parked := false, failures := 0))
    case Stop(_) =>
      Forget(Forget(s, s.reconnectTimer), s.socket).(stopped := true, stableTimer := None)
  }

  const BLANK: Loop := Loop(false, false, 0, None, None, None, map[], 0)

  function Started(): Loop {
    Connect(BLANK)
  }

  // ---- The closure variables and the callbacks ----

  class UserWsConnection {
    var stopped: bool
    var parked: bool
    var failures: nat
    var socket: Option<nat>
    var reconnectTimer: Option<nat>
    var stableTimer: Option<int>
    var active: map<nat, Activity>
    var nextId: nat

    ghost function Value(): Loop
      reads this
    {
      Loop(stopped, parked, failures, socket, reconnectTimer, stableTimer, active, nextId)
    }

    constructor ()
      ensures Value() == Started()
    {
      stopped, parked, failures := false, false, 0;
      socket, reconnectTimer, stableTimer := None, None, None;
      active, nextId := map[], 0;
      new;
      DoConnect();
    }

    method Start(a: Activity) returns (id: nat)
      modifies this`active, this`nextId
      ensures id == old(nextId) && Value() == Add(old(Value()), a)
    {
      id := nextId;
      active, nextId := active[id := a], nextId + 1;
    }

    method DoConnect()
      modifies this
      ensures Value() == Connect(old(Value()))
    {
      if stopped || parked {
        return;
      }
      var _ := Start(Resolving);
    }

    method ScheduleReconnect(at: int, random: Fraction)
      modifies this
      ensures Value() == Retry(old(Value()), at, random)
    {
      if stopped || parked {
        return;
      }
      if failures >= MAX_CONSECUTIVE_FAILURES {
        parked := true;
        return;
      }
      var delay := ReconnectDelay(failures, random);
      failures := failures + 1;
      var id := Start(Waiting(at, at + delay));
      reconnectTimer := Some(id);
    }

    method OnResolved(id: nat, at: int, outcome: Resolution, random: Fraction)
      modifies this
      ensures Value() == Next(old(Value()), Resolved(id, at, outcome, random))
    {
      active := active - {id};
      match outcome {
        case Url =>
          if !stopped {
            var created := Start(Socket(None));
            socket := Some(created);
          }
        case NoUrl =>
        case AuthError => parked := true;
        case Failed => ScheduleReconnect(at, random);
      }
    }

    method OnReadyFrame(id: nat, at: int)
      modifies this
      ensures Value() == Next(old(Value()), ReadyFrame(id, at))
    {
      active := active[id := Socket(Some(at))];
      stableTimer := Some(at + STABLE_CONNECTION_MS);
    }

    method OnClose(id: nat, at: int, code: int, electron: bool, random: Fraction)
      requires id in active && active[id].Socket?
      modifies this
      ensures Value() == Next(old(Value()), Closed(id, at, code, electron, random))
    {
      var ready := active[id].readyAt.Some?;
      active := active - {id};
      stableTimer := None;
      socket := None;
      if stopped {
        return;
      }
      var kind := ClassifyClose(code);
      if kind == Auth || kind == Forbidden {
        parked := true;
        return;
      }
      if !ready && kind == Unknown && !electron {
        var _ := Start(Probing);
        return;
      }
      ScheduleReconnect(at, random);
    }

    method OnProbed(id: nat, at: int, verdict: ProbeResult, random: Fraction)
      modifies this
      ensures Value() == Next(old(Value()), Probed(id, at, verdict, random))
    {
      active := active - {id};
      if stopped {
        return;
      }
      if verdict == Unauthenticated || verdict == Denied {
        parked := true;
        return;
      }
      ScheduleReconnect(at, random);
    }

    method OnRetryTimer(id: nat, at: int)
      modifies this
      ensures Value() == Next(old(Value()), RetryFires(id, at))
    {
      active := active - {id};
      reconnectTimer := None;
      DoConnect();
    }

    method OnStableTimer(at: int)
      modifies this
      ensures Value() == Next(old(Value()), StableFires(at))
    {
      stableTimer := None;
      failures := 0;
    }

    method DoResume(at: int, hidden: bool)
      modifies this
      ensures Value() == Next(old(Value()), Resume(at, hidden))
    {
      if stopped || !parked || hidden {
        return;
      }
      parked := false;
      failures := 0;
      DoConnect();
    }

    method DoStop(at: int)
      modifies this
      ensures Value() == Next(old(Value()), Stop(at))
    {
      stopped := true;
      if reconnectTimer.Some? {
        active := active - {reconnectTimer.value};
      }
      stableTimer := None;
      if socket.Some? {
        active := active - {socket.value};
      }
    }
  }

  // ---- Runs ----

  // What the environment may do next: answer something outstanding, or fire a timer that is due.
  ghost predicate Enabled(s: Loop, step: Step) {
    match step
    case Resolved(id, _, _, _) => id in s.active && s.active[id].Resolving?
    case ReadyFrame(id, _) => id in s.active && s.active[id].Socket?
    case Closed(id, _, _, _, _) => id in s.active && s.active[id].Socket?
    case Probed(id, _, _, _) => id in s.active && s.active[id].Probing?
    case RetryFires(id, at) => id in s.active && s.active[id].Waiting? && at >= s.active[id].due
    case StableFires(at) => s.stableTimer.Some? && at >= s.stableTimer.value
    case Resume(_, _) => true
    case Stop(_) => true
  }

  function After(steps: seq<Step>): Loop
    requires IsRun(steps)
    decreases |steps|, 1
  {
    if steps == [] then Started() else Next(After(steps[..|steps| - 1]), steps[|steps| - 1])
  }

  ghost predicate IsRun(steps: seq<Step>)
    decreases |steps|, 0
  {
    steps == [] ||
    (IsRun(steps[..|steps| - 1]) && Enabled(After(steps[..|steps| - 1]), steps[|steps| - 1]))
  }

  // ---- At most one thing at a time ----

  ghost predicate Known(s: Loop, id: nat, a: Activity) {
    && !s.parked
    && (s.stopped ==> a.Resolving? || a.Probing?)
    && (a.Waiting? ==> 500 <= a.due - a.setAt <= 30000)
    && (a.Waiting? <==> s.reconnectTimer == Some(id))
    && (a.Socket? <==> s.socket == Some(id))
    && (s.stableTimer.Some? ==> a.Socket? && a.readyAt == Some(s.stableTimer.value - STABLE_CONNECTION_MS))
  }

  // Only the latest identity can be outstanding, and the loop's variables know what it is.
  ghost predicate Single(s: Loop) {
    && (forall i :: i in s.active ==> i + 1 == s.nextId)
    && (s.socket.Some? ==> s.socket.value < s.nextId)
    && (s.reconnectTimer.Some? ==> s.reconnectTimer.value < s.nextId)
    && (s.nextId > 0 && s.nextId - 1 in s.active ==> Known(s, s.nextId - 1, s.active[s.nextId - 1]))
    && (s.stableTimer.Some? ==> !s.stopped && s.nextId > 0 && s.nextId - 1 in s.active)
    && s.failures <= MAX_CONSECUTIVE_FAILURES
  }

  // Nothing outstanding, and not parked.
  ghost predicate Clear(s: Loop) {
    Single(s) && s.stableTimer.None? && !s.parked && forall i: nat :: i !in s.active
  }

  lemma RemovedIsClear(s: Loop, id: nat)
    requires Single(s) && id in s.active
    ensures Clear(Remove(s, id).(stableTimer := None))
    ensures s.stableTimer.Some? ==> s.active[id].Socket?
  {}

  lemma ClearToAdd(t: Loop, a: Activity)
    requires Clear(t)
    ensures a.Resolving? || a.Probing? ==> Single(Add(t, a))
    ensures !t.stopped ==> Single(Add(t.(socket := Some(t.nextId)), Socket(None)))
    ensures Single(t.(parked := true)) && Single(t) && Clear(t.(socket := None))
  {}

  lemma ClearToRetry(t: Loop, at: int, random: Fraction)
    requires Clear(t)
    ensures Single(Retry(t, at, random))
  {
    DelayBounds(t.failures, random);
    hide ReconnectDelay;
  }

  lemma ClearToClosed(t: Loop, ready: bool, step: Step)
    requires Clear(t) && step.Closed?
    ensures Single(AfterClose(t, ready, step))
  {
    ClearToAdd(t, Probing);
    ClearToRetry(t, step.at, step.random);
    hide Single, Clear, Retry, Add;
  }

  lemma AnswerKeepsSingle(s: Loop, step: Step)
    requires Single(s) && Enabled(s, step) && (step.Resolved? || step.Probed?)
    ensures Single(Next(s, step))
  {
    var t := Remove(s, step.id);
    RemovedIsClear(s, step.id);
    assert t == t.(stableTimer := None) && t.nextId == s.nextId && t.stopped == s.stopped;
    ClearToAdd(t, Probing);
    ClearToRetry(t, step.at, step.random);
    hide Single, Clear, Retry, Add, Remove;
  }

  lemma CloseKeepsSingle(s: Loop, step: Step)
    requires Single(s) && Enabled(s, step) && step.Closed?
    ensures Single(Next(s, step))
  {
    var t := Remove(s, step.id).(stableTimer := None);
    RemovedIsClear(s, step.id);
    ClearToAdd(t, Probing);
    ClearToClosed(t.(socket := None), s.active[step.id].readyAt.Some?, step);
    hide Single, Clear, AfterClose, Remove;
  }

  lemma OtherKeepsSingle(s: Loop, step: Step)
    requires Single(s) && Enabled(s, step) && !step.Resolved? && !step.Probed? && !step.Closed?
    ensures Single(Next(s, step))
  {
    hide Retry, AfterClose;
  }

  lemma StepKeepsSingle(s: Loop, step: Step)
    requires Single(s) && Enabled(s, step)
    ensures Single(Next(s, step))
  {
    if step.Resolved? || step.Probed? {
      AnswerKeepsSingle(s, step);
    } else if step.Closed? {
      CloseKeepsSingle(s, step);
    } else {
      OtherKeepsSingle(s, step);
    }
    hide *;
  }

  lemma {:induction false} RunIsSingle(steps: seq<Step>)
    requires IsRun(steps)
    ensures Single(After(steps))
  {
    if steps != [] {
      RunIsSingle(steps[..|steps| - 1]);
      hide Single, Next;
      StepKeepsSingle(After(steps[..|steps| - 1]), steps[|steps| - 1]);
    }
  }

  lemma OneEntry<K, V>(m: map<K, V>)
    requires forall i, j :: i in m && j in m ==> i == j
    ensures |m| <= 1
  {
    if m != map[] {
      var i :| i in m;
      assert m.Keys == {i};
    }
  }

  lemma SingleIsAtMostOne(s: Loop)
    requires Single(s)
    ensures |s.active| <= 1
    ensures s.parked ==> |s.active| == 0
  {
    OneEntry(s.active);
    if s.parked {
      assert s.active == map[];
    }
  }

  // Of URL resolution, socket, auth probe and reconnect timer at most one is outstanding,
  // and none while parked.
  lemma AtMostOneActive(steps: seq<Step>)
    requires IsRun(steps)
    ensures |After(steps).active| <= 1
    ensures After(steps).parked ==> |After(steps).active| == 0
  {
    RunIsSingle(steps);
    hide Single;
    SingleIsAtMostOne(After(steps));
  }

  // ---- The loop never dies silently, unless it is given an empty URL ----

  predicate Idle(s: Loop) {
    s.nextId == 0 || s.nextId - 1 !in s.active
  }

  predicate Quiet(s: Loop) {
    Idle(s) && !s.parked
  }

  lemma IdleIsEmpty(s: Loop)
    requires Single(s)
    ensures Idle(s) <==> |s.active| == 0
  {
    if Idle(s) {
      assert s.active == map[];
    }
  }

  predicate GotNoUrl(steps: seq<Step>) {
    exists p :: 0 <= p < |steps| && steps[p].Resolved? && steps[p].outcome.NoUrl?
  }

  predicate LosesUrl(step: Step) {
    step.Resolved? && step.outcome.NoUrl?
  }

  lemma RetryIsNotQuiet(t: Loop, at: int, random: Fraction)
    ensures !t.stopped ==> !Quiet(Retry(t, at, random))
  {
    hide ReconnectDelay;
  }

  lemma AnswerQuiet(s: Loop, step: Step)
    requires Single(s) && Enabled(s, step) && !s.stopped && (step.Resolved? || step.Probed? || step.Closed?)
    ensures Quiet(Next(s, step)) <==> LosesUrl(step)
  {
    var t := Remove(s, step.id);
    RemovedIsClear(s, step.id);
    RetryIsNotQuiet(t, step.at, step.random);
    RetryIsNotQuiet(t.(stableTimer := None, socket := None), step.at, step.random);
    hide Retry, Single;
  }

  lemma OtherQuiet(s: Loop, step: Step)
    requires Single(s) && Enabled(s, step) && !s.stopped &&
      (step.RetryFires? || step.StableFires? || step.Resume? || step.ReadyFrame?)
    ensures Quiet(Next(s, step)) <==> Quiet(s)
  {}

  lemma GotNoUrlStep(steps: seq<Step>)
    requires steps != []
    ensures var n := |steps| - 1;
      GotNoUrl(steps) <==> GotNoUrl(steps[..n]) || (steps[n].Resolved? && steps[n].outcome.NoUrl?)
  {
    var before := steps[..|steps| - 1];
    assert forall p :: 0 <= p < |before| ==> before[p] == steps[p];
  }

  lemma StopLasts(s: Loop, step: Step)
    requires Enabled(s, step)
    ensures s.stopped ==> Next(s, step).stopped
    ensures step.Stop? ==> Next(s, step).stopped
  {
    hide ReconnectDelay;
  }

  lemma AnswerIsBusy(s: Loop, step: Step)
    requires Single(s) && Enabled(s, step) && (step.Resolved? || step.Probed? || step.Closed?)
    ensures !Idle(s)
  {}

  // Until it is stopped, the loop has something outstanding or is parked - except that an
  // empty URL ends it for good: then nothing is outstanding, and no later event of any kind
  // starts it again, because only a parked loop can be resumed.
  lemma {:induction false} QuietIffNoUrl(steps: seq<Step>)
    requires IsRun(steps) && !After(steps).stopped
    ensures |After(steps).active| == 0 && !After(steps).parked <==> GotNoUrl(steps)
  {
    RunIsSingle(steps);
    IdleIsEmpty(After(steps));
    if steps != [] {
      var n := |steps| - 1;
      var before, step := steps[..n], steps[n];
      RunIsSingle(before);
      IdleIsEmpty(After(before));
      StopLasts(After(before), step);
      GotNoUrlStep(steps);
      QuietIffNoUrl(before);
      if step.Resolved? || step.Probed? || step.Closed? {
        AnswerQuiet(After(before), step);
        AnswerIsBusy(After(before), step);
      } else if !step.Stop? {
        OtherQuiet(After(before), step);
      }
      hide Single, Next, Enabled, GotNoUrl, Idle;
    }
  }

  // ---- After stop ----

  // A stopped loop starts nothing more.
  lemma StoppedStartsNothing(s: Loop, step: Step)
    requires s.stopped && Enabled(s, step)
    ensures Next(s, step).nextId == s.nextId && Next(s, step).active.Keys <= s.active.Keys
  {
    hide ReconnectDelay;
  }

  // It is left with no socket, no reconnect timer and no stable timer.
  lemma StoppedIsDetached(steps: seq<Step>, i: nat)
    requires IsRun(steps) && After(steps).stopped
    ensures After(steps).stableTimer.None?
    ensures i in After(steps).active ==> After(steps).active[i].Resolving? || After(steps).active[i].Probing?
  {
    RunIsSingle(steps);
  }

  // ---- How often it connects ----

  predicate ConnectsAgain(s: Loop, step: Step) {
    step.RetryFires? && !s.stopped && !s.parked
  }

  predicate Resumes(s: Loop, step: Step) {
    step.Resume? && !s.stopped && s.parked && !step.hidden
  }

  // Connects since the failure count was last reset, by a stable connection or a resume.
  function ConnectsSinceReset(steps: seq<Step>): nat
    requires IsRun(steps)
  {
    if steps == [] then 1
    else
      var before, step := steps[..|steps| - 1], steps[|steps| - 1];
      if step.StableFires? then 0
      else if Resumes(After(before), step) then 1
      else ConnectsSinceReset(before) + if ConnectsAgain(After(before), step) then 1 else 0
  }

  predicate HasTimer(s: Loop) {
    s.reconnectTimer.Some? && s.reconnectTimer.value in s.active
  }

  // Every failure counted was a connect, or is one that a timer is waiting to make.
  ghost predicate Counted(s: Loop, connects: nat) {
    s.failures <= connects + (if HasTimer(s) then 1 else 0) <= s.failures + 1
  }

  lemma StepKeepsCount(s: Loop, step: Step, connects: nat)
    requires Single(s) && Enabled(s, step) && Counted(s, connects) && !Next(s, step).stopped
    ensures var more := if step.StableFires? then 0 else if Resumes(s, step) then 1
                        else connects + if ConnectsAgain(s, step) then 1 else 0;
            Counted(Next(s, step), more)
  {
    hide ReconnectDelay;
  }

  lemma {:induction false} RunIsCounted(steps: seq<Step>)
    requires IsRun(steps) && !After(steps).stopped
    ensures Counted(After(steps), ConnectsSinceReset(steps))
  {
    if steps != [] {
      var before, step := steps[..|steps| - 1], steps[|steps| - 1];
      RunIsSingle(before);
      StopLasts(After(before), step);
      hide Single, Next, Enabled, Counted;
      RunIsCounted(before);
      StepKeepsCount(After(before), step, ConnectsSinceReset(before));
    }
  }

  // Between resets the loop connects at most 13 times, and then parks: it gives up for a
  // reason other than authentication only after 12 or 13 connects in a row failed.
  lemma AtMost13Connects(steps: seq<Step>)
    requires IsRun(steps) && !After(steps).stopped
    ensures ConnectsSinceReset(steps) <= 13
    ensures HasTimer(After(steps)) ==> ConnectsSinceReset(steps) <= 12
  {
    RunIsSingle(steps);
    RunIsCounted(steps);
  }

  // A step that says the session is gone.
  predicate Refused(step: Step) {
    || (step.Resolved? && step.outcome.AuthError?)
    || (step.Closed? && (step.code == 4401 || step.code == 4403))
    || (step.Probed? && (step.verdict.Unauthenticated? || step.verdict.Denied?))
  }

  lemma ParkingStep(s: Loop, step: Step)
    requires Single(s) && Enabled(s, step) && !s.stopped && !s.parked
    ensures Refused(step) ==> Next(s, step).parked
    ensures Next(s, step).parked && !Refused(step) ==> s.failures == MAX_CONSECUTIVE_FAILURES && !HasTimer(s)
  {
    hide ReconnectDelay;
  }

  lemma ParksOnlyWhenExhausted(steps: seq<Step>, step: Step)
    requires IsRun(steps) && Enabled(After(steps), step) && !After(steps).stopped && !After(steps).parked
    ensures Refused(step) ==> Next(After(steps), step).parked
    ensures Next(After(steps), step).parked && !Refused(step) ==> 12 <= ConnectsSinceReset(steps) <= 13
  {
    RunIsSingle(steps);
    RunIsCounted(steps);
    hide Single, Next, Enabled, Refused;
    ParkingStep(After(steps), step);
  }

  // ---- The delays and the reset ----

  // Every reconnect timer waits between half a second and half a minute.
  lemma RetriesAreDelayed(steps: seq<Step>, i: nat)
    requires IsRun(steps) && i in After(steps).active && After(steps).active[i].Waiting?
    ensures var timer := After(steps).active[i]; 500 <= timer.due - timer.setAt <= 30000
  {
    RunIsSingle(steps);
  }

  // Only a connection that is still open and has been ready for 30 s clears the failures.
  lemma StableIsEarned(steps: seq<Step>, at: int) returns (id: nat)
    requires IsRun(steps) && Enabled(After(steps), StableFires(at))
    ensures id in After(steps).active && After(steps).active[id].Socket?
    ensures After(steps).active[id].readyAt.Some? && After(steps).active[id].readyAt.value + 30000 <= at
  {
    RunIsSingle(steps);
    id := After(steps).socket.value;
  }
}
