// The handlers of startUserWsConnection in src/ui/api/useUserWebSocket.ts: the connection
// loop, the stream tracker and the resync scheduler wired together, and what that gives the
// client: with no resync pending it has missed nothing since the last one.
module UserWs {
  import opened Options
  import Loop = ConnectionLoop
  import Tracker = StreamTracker
  import Scheduler = ResyncScheduler

  const RESYNC_MIN_INTERVAL_MS := 1000

  datatype Session = Session(loop: Loop.Loop, tracker: Tracker.State, sched: Scheduler.Sched)

  // A message handler reads the clock for itself and for the scheduler.
  datatype Step =
    | LoopStep(step: Loop.Step)
    | ReadyArrives(id: nat, readyAt: int, at: int, again: int, epoch: Option<string>, number: Option<int>)
    | FrameArrives(id: nat, at: int, again: int, frame: Tracker.Frame)
    | ResyncTimer(at: int)
    | Stops(at: int)

  function Initial(): Session {
    Session(Loop.Started(), Tracker.State(None, 0, 0), Scheduler.INITIAL)
  }

  // ---- One step, as a specification ----

  function ReadyReason(s: Session): Tracker.Reason {
    if s.tracker.readyCount == 0 then Tracker.Initial else Tracker.Reconnect
  }

  // What the step tells the scheduler, if anything.
  function Signal(s: Session, step: Step): Option<Scheduler.Step> {
    match step
    case LoopStep(_) => None
    case ReadyArrives(_, _, at, again, _, _) => Some(Scheduler.Trigger(at, again, ReadyReason(s)))
    case FrameArrives(_, at, again, frame) =>
      var resync := Tracker.Judge(s.tracker, frame).resync;
      if resync.None? then None else Some(Scheduler.Trigger(at, again, resync.value))
    case ResyncTimer(at) => Some(Scheduler.TimerFires(at))
    case Stops(at) => Some(Scheduler.Cancel(at))
  }

  function NextSched(s: Session, step: Step): Scheduler.Sched {
    var signal := Signal(s, step);
    if signal.None? then s.sched else Scheduler.Next(s.sched, RESYNC_MIN_INTERVAL_MS, signal.value)
  }

  // The resync that the step runs, if any.
  function Ran(s: Session, step: Step): Option<Tracker.Reason> {
    var signal := Signal(s, step);
    if signal.None? then None else Scheduler.Ran(s.sched, RESYNC_MIN_INTERVAL_MS, signal.value)
  }

  function NextTracker(t: Tracker.State, step: Step): Tracker.State {
    match step
    case ReadyArrives(_, _, _, _, epoch, number) => Tracker.Ready(t, epoch, number)
    case FrameArrives(_, _, _, frame) => Tracker.Next(t, frame)
    case _ => t
  }

  predicate EnabledLoop(s: Loop.Loop, step: Step) {
    step.LoopStep? && step.step.Closed? ==> step.step.id in s.active && s.active[step.step.id].Socket?
  }

  function NextLoop(s: Loop.Loop, step: Step): Loop.Loop
    requires EnabledLoop(s, step)
  {
    match step
    case LoopStep(l) => Loop.Next(s, l)
    case ReadyArrives(id, readyAt, _, _, _, _) => Loop.Next(s, Loop.ReadyFrame(id, readyAt))
    case Stops(at) => Loop.Next(s, Loop.Stop(at))
    case _ => s
  }

  function Next(s: Session, step: Step): Session
    requires EnabledLoop(s.loop, step)
  {
    Session(NextLoop(s.loop, step), NextTracker(s.tracker, step), NextSched(s, step))
  }

  // The number of an event that the step hands to the client.
  function Delivers(s: Session, step: Step): Option<int> {
    if step.FrameArrives? && Tracker.Judge(s.tracker, step.frame).deliver then step.frame.number else None
  }

  // ---- The handlers ----

  class UserWsSession {
    const connection: Loop.UserWsConnection
    const tracker: Tracker.UserWsStreamTracker
    const scheduler: Scheduler.Scheduler

    ghost predicate Valid() {
      scheduler.minIntervalMs == RESYNC_MIN_INTERVAL_MS
    }

    ghost function Value(): Session
      reads connection, tracker, scheduler
    {
      Session(connection.Value(), tracker.Value(), scheduler.Value())
    }

    constructor ()
      ensures Valid() && Value() == Initial()
      ensures fresh(connection) && fresh(tracker) && fresh(scheduler)
    {
      connection := new Loop.UserWsConnection();
      tracker := new Tracker.UserWsStreamTracker();
      scheduler := new Scheduler.Scheduler(RESYNC_MIN_INTERVAL_MS);
    }

    method OnReadyMessage(id: nat, readyAt: int, at: int, again: int, epoch: Option<string>, number: Option<int>)
      returns (ran: Option<Tracker.Reason>)
      requires Valid()
      modifies connection, tracker, scheduler
      ensures var step := ReadyArrives(id, readyAt, at, again, epoch, number);
        Value() == Next(old(Value()), step) && ran == Ran(old(Value()), step)
    {
      hide Loop.Next, Scheduler.Next, Scheduler.Ran, Tracker.Ready;
      connection.OnReadyFrame(id, readyAt);
      var reason := tracker.OnReady(epoch, number);
      ran := scheduler.Trigger(at, again, reason);
    }

    method OnEventMessage(id: nat, at: int, again: int, frame: Tracker.Frame)
      returns (deliver: bool, ran: Option<Tracker.Reason>)
      requires Valid()
      modifies tracker, scheduler
      ensures var step := FrameArrives(id, at, again, frame);
        && Value() == Next(old(Value()), step) && ran == Ran(old(Value()), step)
        && deliver == Tracker.Judge(old(Value()).tracker, frame).deliver
    {
      hide Loop.Next, Scheduler.Next, Scheduler.Ran, Tracker.Next, Tracker.Judge;
      var verdict := tracker.OnEvent(frame);
      ran := None;
      if verdict.resync.Some? {
        ran := scheduler.Trigger(at, again, verdict.resync.value);
      }
      deliver := verdict.deliver;
    }

    method DoStop(at: int)
      requires Valid()
      modifies connection, scheduler
      ensures Value() == Next(old(Value()), Stops(at))
    {
      hide Loop.Next, Scheduler.Next;
      connection.DoStop(at);
      scheduler.Cancel(at);
    }
  }

  // ---- Runs ----

  function Begins(step: Step): int {
    match step
    case LoopStep(l) => l.at
    case ReadyArrives(_, readyAt, _, _, _, _) => readyAt
    case _ => step.at
  }

  function Ends(step: Step): int {
    match step
    case LoopStep(l) => l.at
    case ReadyArrives(_, _, _, again, _, _) => again
    case FrameArrives(_, _, again, _) => again
    case _ => step.at
  }

  // Messages come from the socket, timers fire when they are due.
  ghost predicate Enabled(s: Session, step: Step) {
    && EnabledLoop(s.loop, step)
    && match step
       case LoopStep(l) => !l.ReadyFrame? && !l.Stop? && Loop.Enabled(s.loop, l)
       case ReadyArrives(id, readyAt, at, again, _, _) =>
         readyAt <= at <= again && Loop.Enabled(s.loop, Loop.ReadyFrame(id, readyAt))
       case FrameArrives(id, at, again, _) => at <= again && id in s.loop.active && s.loop.active[id].Socket?
       case ResyncTimer(at) => s.sched.timer.Some? && s.sched.timer.value <= at
       case Stops(_) => true
  }

  function After(steps: seq<Step>): Session
    requires IsRun(steps)
    decreases |steps|, 1
  {
    if steps == [] then Initial() else Next(After(steps[..|steps| - 1]), steps[|steps| - 1])
  }

  // The clock never goes back.
  ghost predicate IsRun(steps: seq<Step>)
    decreases |steps|, 0
  {
    steps == [] ||
    var before, step := steps[..|steps| - 1], steps[|steps| - 1];
    && IsRun(before)
    && Enabled(After(before), step)
    && (before != [] ==> Ends(before[|before| - 1]) <= Begins(step))
  }

  lemma {:induction false} PrefixIsRun(steps: seq<Step>, p: nat)
    requires IsRun(steps) && p <= |steps|
    ensures IsRun(steps[..p])
    ensures p < |steps| ==> Enabled(After(steps[..p]), steps[p])
  {
    if p < |steps| {
      PrefixIsRun(steps[..|steps| - 1], p);
      assert steps[..|steps| - 1][..p] == steps[..p];
    } else {
      assert steps[..p] == steps;
    }
  }

  function RanAt(steps: seq<Step>, p: nat): Option<Tracker.Reason>
    requires IsRun(steps) && p < |steps|
  {
    PrefixIsRun(steps, p);
    Ran(After(steps[..p]), steps[p])
  }

  // The numbers handed to the client, in order.
  function Delivered(steps: seq<Step>): seq<int>
    requires IsRun(steps)
  {
    if steps == [] then []
    else
      var before, step := steps[..|steps| - 1], steps[|steps| - 1];
      var number := Delivers(After(before), step);
      Delivered(before) + if number.Some? then [number.value] else []
  }

  // ---- The loop inside a session ----

  function LoopSteps(steps: seq<Step>): seq<Loop.Step> {
    if steps == [] then []
    else
      var before, step := steps[..|steps| - 1], steps[|steps| - 1];
      LoopSteps(before) +
      match step
      case LoopStep(l) => [l]
      case ReadyArrives(id, readyAt, _, _, _, _) => [Loop.ReadyFrame(id, readyAt)]
      case Stops(at) => [Loop.Stop(at)]
      case _ => []
  }

  lemma LoopRunMore(before: seq<Loop.Step>, l: Loop.Step)
    requires Loop.IsRun(before) && Loop.Enabled(Loop.After(before), l)
    ensures Loop.IsRun(before + [l]) && Loop.After(before + [l]) == Loop.Next(Loop.After(before), l)
  {
    assert (before + [l])[..|before|] == before;
    hide Loop.Next;
  }

  lemma EmptyLoopRun()
    ensures Loop.IsRun([]) && Loop.After([]) == Loop.Started()
  {}

  // A session's loop goes through a run of the connection loop.
  lemma {:induction false} LoopIsRun(steps: seq<Step>)
    requires IsRun(steps)
    ensures Loop.IsRun(LoopSteps(steps)) && Loop.After(LoopSteps(steps)) == After(steps).loop
  {
    hide Loop.Next, Loop.IsRun, Loop.After, NextTracker, NextSched;
    if steps == [] {
      EmptyLoopRun();
    } else {
      var before, step := steps[..|steps| - 1], steps[|steps| - 1];
      LoopIsRun(before);
      match step {
        case LoopStep(l) => LoopRunMore(LoopSteps(before), l);
        case ReadyArrives(id, readyAt, _, _, _, _) => LoopRunMore(LoopSteps(before), Loop.ReadyFrame(id, readyAt));
        case Stops(at) => LoopRunMore(LoopSteps(before), Loop.Stop(at));
        case _ => assert LoopSteps(before) + [] == LoopSteps(before);
      }
    }
  }

  // ---- The scheduler inside a session ----

  ghost predicate Tidy(s: Session, clock: int) {
    && (s.sched.timer.Some? <==> s.sched.pending.Some?)
    && (s.sched.timer.Some? ==> s.sched.timer.value <= clock + RESYNC_MIN_INTERVAL_MS)
    && (s.sched.lastRunAt.Some? ==> s.sched.lastRunAt.value <= clock)
    && (s.loop.stopped ==> s.sched.timer.None?)
  }

  lemma SchedStep(s: Session, step: Step, clock: int)
    requires Tidy(s, clock) && Enabled(s, step) && clock <= Begins(step)
    requires s.loop.stopped ==> !step.ReadyArrives? && !step.FrameArrives?
    requires NextLoop(s.loop, step).stopped ==> s.loop.stopped || step.Stops?
    ensures Tidy(Next(s, step), Ends(step))
  {
    hide NextLoop, NextTracker, Tracker.Judge;
  }

  lemma LoopStops(s: Session, step: Step)
    requires Enabled(s, step)
    ensures NextLoop(s.loop, step).stopped <==> s.loop.stopped || step.Stops?
  {
    hide Loop.ReconnectDelay;
  }

  // No message reaches a stopped session: its socket is gone.
  lemma StoppedHearsNothing(steps: seq<Step>, step: Step)
    requires IsRun(steps) && After(steps).loop.stopped && Enabled(After(steps), step)
    ensures !step.ReadyArrives? && !step.FrameArrives?
  {
    LoopIsRun(steps);
    if step.ReadyArrives? || step.FrameArrives? {
      Loop.StoppedIsDetached(LoopSteps(steps), step.id);
    }
    hide Loop.IsRun, Loop.After;
  }

  lemma NextParts(s: Session, step: Step)
    requires EnabledLoop(s.loop, step)
    ensures Next(s, step) == Session(NextLoop(s.loop, step), NextTracker(s.tracker, step), NextSched(s, step))
  {}

  lemma {:induction false} RunIsTidy(steps: seq<Step>)
    requires IsRun(steps) && steps != []
    ensures Tidy(After(steps), Ends(steps[|steps| - 1]))
  {
    var n := |steps| - 1;
    var before, step := steps[..n], steps[n];
    hide Next, NextLoop;
    NextParts(After(before), step);
    LoopStops(After(before), step);
    if n > 0 {
      RunIsTidy(before);
    }
    if After(before).loop.stopped {
      StoppedHearsNothing(before, step);
    }
    SchedStep(After(before), step, if n > 0 then Ends(before[n - 1]) else Begins(step));
    hide Tidy, Enabled;
  }

  // The calls that the scheduler gets.
  function SchedSteps(steps: seq<Step>): seq<Scheduler.Step>
    requires IsRun(steps)
  {
    if steps == [] then []
    else
      var before, step := steps[..|steps| - 1], steps[|steps| - 1];
      var signal := Signal(After(before), step);
      SchedSteps(before) + if signal.Some? then [signal.value] else []
  }

  lemma SchedRunMore(before: seq<Scheduler.Step>, step: Scheduler.Step)
    requires Scheduler.IsRun(RESYNC_MIN_INTERVAL_MS, before) && Scheduler.Begins(step) <= Scheduler.Ends(step)
    requires before != [] ==> Scheduler.Ends(before[|before| - 1]) <= Scheduler.Begins(step)
    requires var s := Scheduler.After(RESYNC_MIN_INTERVAL_MS, before);
      step.TimerFires? ==> s.timer.Some? && s.timer.value <= step.at
    ensures var min, more := RESYNC_MIN_INTERVAL_MS, before + [step];
      var s := Scheduler.After(min, before);
      && Scheduler.IsRun(min, more) && Scheduler.After(min, more) == Scheduler.Next(s, min, step)
      && Scheduler.RunTimes(min, more) == Scheduler.RunTimes(min, before) +
           if Scheduler.Ran(s, min, step).Some? then [Scheduler.Ends(step)] else []
  {
    assert (before + [step])[..|before|] == before;
    hide Scheduler.Next, Scheduler.Ran;
  }

  lemma SignalInTime(s: Session, step: Step)
    requires Enabled(s, step) && Signal(s, step).Some?
    ensures var signal := Signal(s, step).value;
      && Begins(step) <= Scheduler.Begins(signal) <= Scheduler.Ends(signal) == Ends(step)
      && (signal.TimerFires? ==> s.sched.timer.Some? && s.sched.timer.value <= signal.at)
  {
    hide Tracker.Judge, EnabledLoop;
  }

  lemma StepInTime(s: Session, step: Step)
    requires Enabled(s, step)
    ensures Begins(step) <= Ends(step)
  {
    hide EnabledLoop;
  }

  // When resyncs ran.
  function ResyncTimes(steps: seq<Step>): seq<int>
    requires IsRun(steps)
  {
    if steps == [] then []
    else
      var before, step := steps[..|steps| - 1], steps[|steps| - 1];
      ResyncTimes(before) + if Ran(After(before), step).Some? then [Ends(step)] else []
  }

  lemma EmptySchedRun()
    ensures var min := RESYNC_MIN_INTERVAL_MS;
      Scheduler.IsRun(min, []) && Scheduler.After(min, []) == Scheduler.INITIAL && Scheduler.RunTimes(min, []) == []
  {}

  // The calls are a run of the scheduler that has led to this state, with resyncs at these times.
  ghost predicate InStep(sched: seq<Scheduler.Step>, s: Scheduler.Sched, times: seq<int>, clock: int) {
    && Scheduler.IsRun(RESYNC_MIN_INTERVAL_MS, sched)
    && Scheduler.After(RESYNC_MIN_INTERVAL_MS, sched) == s
    && Scheduler.RunTimes(RESYNC_MIN_INTERVAL_MS, sched) == times
    && (sched != [] ==> Scheduler.Ends(sched[|sched| - 1]) <= clock)
  }

  lemma StepKeepsInStep(sched: seq<Scheduler.Step>, s: Session, times: seq<int>, clock: int, step: Step)
    requires InStep(sched, s.sched, times, clock) && Enabled(s, step) && clock <= Begins(step)
    ensures InStep(sched + if Signal(s, step).Some? then [Signal(s, step).value] else [], NextSched(s, step),
                   times + if Ran(s, step).Some? then [Ends(step)] else [], Ends(step))
  {
    hide Scheduler.IsRun, Scheduler.After, Scheduler.RunTimes, Scheduler.Next, Scheduler.Ran, Signal, Enabled,
      Begins, Ends;
    StepInTime(s, step);
    if Signal(s, step).Some? {
      SignalInTime(s, step);
      SchedRunMore(sched, Signal(s, step).value);
    } else {
      assert sched + [] == sched && times + [] == times;
    }
  }

  lemma InStepLater(sched: seq<Scheduler.Step>, s: Scheduler.Sched, times: seq<int>, clock: int, later: int)
    requires InStep(sched, s, times, clock) && clock <= later
    ensures InStep(sched, s, times, later)
  {}

  // A session's scheduler goes through a run of the scheduler, with the same resyncs.
  lemma {:induction false} SchedIsRun(steps: seq<Step>, clock: int)
    requires IsRun(steps) && (steps != [] ==> Ends(steps[|steps| - 1]) <= clock)
    ensures InStep(SchedSteps(steps), After(steps).sched, ResyncTimes(steps), clock)
  {
    if steps == [] {
      EmptySchedRun();
    } else {
      hide InStep, NextLoop, NextTracker, NextSched, Signal, Ran, Enabled, Begins, Ends, Next;
      var n := |steps| - 1;
      var before, step := steps[..n], steps[n];
      SchedIsRun(before, Begins(step));
      NextParts(After(before), step);
      StepKeepsInStep(SchedSteps(before), After(before), ResyncTimes(before), Begins(step), step);
      InStepLater(SchedSteps(steps), After(steps).sched, ResyncTimes(steps), Ends(step), clock);
    }
  }

  // Any two resyncs of a session are at least as many seconds apart as there are resyncs
  // from the one to the other.
  lemma ResyncsAreApart(steps: seq<Step>, i: nat, j: nat)
    requires IsRun(steps) && i <= j < |ResyncTimes(steps)|
    ensures ResyncTimes(steps)[j] - ResyncTimes(steps)[i] >= (j - i) * RESYNC_MIN_INTERVAL_MS
  {
    hide IsRun, Scheduler.IsRun;
    SchedIsRun(steps, if steps == [] then 0 else Ends(steps[|steps| - 1]));
    Scheduler.RunsAreApart(RESYNC_MIN_INTERVAL_MS, SchedSteps(steps), i, j);
  }

  // ---- What the client can rely on ----

  lemma QuietStep(s: Session, step: Step)
    requires Tidy(s, Begins(step)) && Enabled(s, step) && Ran(s, step).None?
    requires NextSched(s, step).timer.None? && !step.Stops?
    ensures s.sched.timer.None? && NextTracker(s.tracker, step).readyCount == s.tracker.readyCount
    ensures NextTracker(s.tracker, step).epoch == s.tracker.epoch
    ensures var more := if Delivers(s, step).Some? then [Delivers(s, step).value] else [];
      var last := NextTracker(s.tracker, step).lastSeq;
      s.tracker.lastSeq <= last && forall low :: low <= s.tracker.lastSeq ==>
        Tracker.UpTo(low, s.tracker.lastSeq) + more == Tracker.UpTo(low, last)
  {}

  lemma PrefixOfPrefix(steps: seq<Step>, q: nat)
    requires q < |steps|
    ensures steps[..|steps| - 1][..q] == steps[..q]
    ensures q + 1 < |steps| ==> steps[..|steps| - 1][..q + 1] == steps[..q + 1]
    ensures q + 1 == |steps| ==> steps[..q + 1] == steps
  {}

  lemma TidyBefore(steps: seq<Step>)
    requires IsRun(steps) && steps != []
    ensures Tidy(After(steps[..|steps| - 1]), Begins(steps[|steps| - 1]))
  {
    var n := |steps| - 1;
    if n > 0 {
      RunIsTidy(steps[..n]);
    }
  }

  lemma NothingBetween(numbers: seq<int>, last: int)
    ensures numbers == numbers + Tracker.UpTo(last, last)
  {}

  lemma Regroup(a: seq<int>, b: seq<int>, c: seq<int>)
    ensures a + b + c == a + (b + c)
  {}

  // While no resync is pending, the client has missed nothing since the last one that ran:
  // the events handed on since are numbered without a hole, up to the last one seen.
  lemma {:induction false} QuietIsComplete(steps: seq<Step>) returns (q: nat)
    requires IsRun(steps) && !After(steps).loop.stopped
    requires After(steps).sched.timer.None? && After(steps).tracker.readyCount > 0
    ensures q < |steps| && RanAt(steps, q).Some? && IsRun(steps[..q + 1])
    ensures var since, now := After(steps[..q + 1]).tracker, After(steps).tracker;
      && since.epoch == now.epoch && since.lastSeq <= now.lastSeq
      && Delivered(steps) == Delivered(steps[..q + 1]) + Tracker.UpTo(since.lastSeq, now.lastSeq)
  {
    var n := |steps| - 1;
    var before, step := steps[..n], steps[n];
    q := n;
    hide Tidy, Enabled, NextLoop, NextTracker, NextSched, Ran, Delivers;
    if Ran(After(before), step).Some? {
      PrefixOfPrefix(steps, n);
      NothingBetween(Delivered(steps), After(steps).tracker.lastSeq);
    } else {
      TidyBefore(steps);
      LoopStops(After(before), step);
      QuietStep(After(before), step);
      q := QuietIsComplete(before);
      PrefixOfPrefix(steps, q);
      var since, more := After(steps[..q + 1]).tracker.lastSeq, Delivered(steps)[|Delivered(before)|..];
      assert Tracker.UpTo(since, After(before).tracker.lastSeq) + more ==
        Tracker.UpTo(since, After(steps).tracker.lastSeq);
      Regroup(Delivered(steps[..q + 1]), Tracker.UpTo(since, After(before).tracker.lastSeq), more);
    }
  }

  // The step wants a resync: it is a ready, or a frame that shows a miss.
  predicate Triggers(s: Session, step: Step) {
    Signal(s, step).Some? && Signal(s, step).value.Trigger?
  }

  predicate TriggersAt(steps: seq<Step>, p: nat)
    requires IsRun(steps) && p < |steps|
  {
    PrefixIsRun(steps, p);
    Triggers(After(steps[..p]), steps[p])
  }

  ghost predicate AnsweredBy(steps: seq<Step>, p: nat, q: nat)
    requires IsRun(steps)
  {
    p <= q < |steps| && (RanAt(steps, q).Some? || steps[q].Stops?)
  }

  lemma TriggerStep(s: Session, step: Step)
    requires Enabled(s, step) && Ran(s, step).None? && !step.Stops?
    requires s.sched.timer.Some? <==> s.sched.pending.Some?
    ensures Triggers(s, step) || s.sched.timer.Some? ==> NextSched(s, step).timer.Some?
  {
    hide Tracker.Judge;
  }

  // Every ready and every sign of a miss is answered by a resync, unless the session is
  // stopped: it has run since, or is due within one interval of the last step.
  lemma {:induction false} TriggerIsAnswered(steps: seq<Step>, p: nat) returns (q: nat)
    requires IsRun(steps) && p < |steps| && TriggersAt(steps, p)
    ensures AnsweredBy(steps, p, q)
         || (After(steps).sched.timer.Some?
             && After(steps).sched.timer.value <= Ends(steps[|steps| - 1]) + RESYNC_MIN_INTERVAL_MS)
  {
    var n := |steps| - 1;
    var before := steps[..n];
    q := n;
    TidyBefore(steps);
    RunIsTidy(steps);
    hide Enabled, NextLoop, NextTracker, NextSched, Ran, Triggers;
    if p < n {
      PrefixOfPrefix(steps, p);
      var r := TriggerIsAnswered(before, p);
      if AnsweredBy(before, p, r) {
        PrefixOfPrefix(steps, r);
        q := r;
        return;
      }
    }
    if Ran(After(before), steps[n]).None? && !steps[n].Stops? {
      TriggerStep(After(before), steps[n]);
    }
  }

  // Once it is stopped, a session runs no resync, whatever was pending.
  lemma StoppedResyncsNothing(steps: seq<Step>, step: Step)
    requires IsRun(steps) && After(steps).loop.stopped && Enabled(After(steps), step)
    ensures Ran(After(steps), step).None? && Next(After(steps), step).loop.stopped
  {
    StoppedHearsNothing(steps, step);
    LoopStops(After(steps), step);
    if steps != [] {
      RunIsTidy(steps);
    }
    hide NextLoop, IsRun, After;
  }
}
