// createResyncScheduler of src/ui/api/userWsRecovery.ts: bursts of resync triggers become
// at most one run per interval, and no trigger is forgotten.
module ResyncScheduler {
  import opened Options
  import Tracker = StreamTracker

  type Reason = Tracker.Reason

  // lastRunAt is None for -Infinity; a timer is the earliest time at which it may fire.
  datatype Sched = Sched(lastRunAt: Option<int>, timer: Option<int>, pending: Option<Reason>)

  // A step reads the clock twice: first to compare, then to run or to set the timer.
  datatype Step =
    | Trigger(at: int, again: int, reason: Reason)
    | TimerFires(at: int)
    | Cancel(at: int)

  const INITIAL: Sched := Sched(None, None, None)

  // ---- One step, as a specification ----

  // The later of two pending reasons to keep: a reconnect always, otherwise the first that
  // is not initial.
  function Wider(pending: Option<Reason>, reason: Reason): Reason {
    if pending.None? || pending.value == Tracker.Initial || reason == Tracker.Reconnect then reason else pending.value
  }

  predicate RunsAtOnce(s: Sched, min: nat, at: int) {
    s.timer.None? && (s.lastRunAt.None? || at - s.lastRunAt.value >= min)
  }

  // How long a new timer waits.
  function Delay(s: Sched, min: nat, at: int): nat {
    if s.lastRunAt.None? || min <= at - s.lastRunAt.value then 0 else min - (at - s.lastRunAt.value)
  }

  function Next(s: Sched, min: nat, step: Step): Sched {
    match step
    case Trigger(at, again, reason) =>
      if RunsAtOnce(s, min, at) then s.(lastRunAt := Some(again))
      else s.(pending := Some(Wider(s.pending, reason)),
              timer := if s.timer.Some? then s.timer else Some(again + Delay(s, min, at)))
    case TimerFires(at) =>
      Sched(if s.pending.Some? then Some(at) else s.lastRunAt, None, None)
    case Cancel(_) => s.(timer := None, pending := None)
  }

  // The resync that a step runs, if any.
  function Ran(s: Sched, min: nat, step: Step): Option<Reason> {
    match step
    case Trigger(at, _, reason) => if RunsAtOnce(s, min, at) then Some(reason) else None
    case TimerFires(_) => s.pending
    case Cancel(_) => None
  }

  class Scheduler {
    const minIntervalMs: nat
    var lastRunAt: Option<int>
    var timer: Option<int>
    var pending: Option<Reason>

    constructor (min: nat)
      ensures Value() == INITIAL && minIntervalMs == min
    {
      minIntervalMs := min;
      lastRunAt, timer, pending := None, None, None;
    }

    ghost function Value(): Sched
      reads this
    {
      Sched(lastRunAt, timer, pending)
    }

    method Trigger(at: int, again: int, reason: Reason) returns (ran: Option<Reason>)
      modifies this
      ensures Value() == Next(old(Value()), minIntervalMs, Step.Trigger(at, again, reason))
      ensures ran == Ran(old(Value()), minIntervalMs, Step.Trigger(at, again, reason))
    {
      ran := None;
      if timer.None? && (lastRunAt.None? || at - lastRunAt.value >= minIntervalMs) {
        lastRunAt := Some(again);
        return Some(reason);
      }
      if pending.None? || pending.value == Tracker.Initial || reason == Tracker.Reconnect {
        pending := Some(reason);
      }
      if timer.Some? {
        return;
      }
      var elapsed := if lastRunAt.None? then minIntervalMs else at - lastRunAt.value;
      timer := Some(again + if minIntervalMs - elapsed > 0 then minIntervalMs - elapsed else 0);
    }

    method TimerFires(at: int) returns (ran: Option<Reason>)
      modifies this
      ensures Value() == Next(old(Value()), minIntervalMs, Step.TimerFires(at))
      ensures ran == Ran(old(Value()), minIntervalMs, Step.TimerFires(at))
    {
      timer := None;
      ran := pending;
      pending := None;
      if ran.Some? {
        lastRunAt := Some(at);
      }
    }

    method Cancel(at: int)
      modifies this
      ensures Value() == Next(old(Value()), minIntervalMs, Step.Cancel(at))
    {
      timer := None;
      pending := None;
    }
  }

  // ---- Runs of the scheduler ----

  function Begins(step: Step): int {
    step.at
  }

  function Ends(step: Step): int {
    if step.Trigger? then step.again else step.at
  }

  function After(min: nat, steps: seq<Step>): Sched {
    if steps == [] then INITIAL else Next(After(min, steps[..|steps| - 1]), min, steps[|steps| - 1])
  }

  // The clock never goes back, and a timer that is set fires no earlier than it is due.
  ghost predicate IsRun(min: nat, steps: seq<Step>) {
    steps == [] ||
    var before, step := steps[..|steps| - 1], steps[|steps| - 1];
    && IsRun(min, before)
    && Begins(step) <= Ends(step)
    && (before != [] ==> Ends(before[|before| - 1]) <= Begins(step))
    && (step.TimerFires? ==>
          After(min, before).timer.Some? && After(min, before).timer.value <= step.at)
  }

  function RanAt(min: nat, steps: seq<Step>, p: nat): Option<Reason>
    requires p < |steps|
  {
    Ran(After(min, steps[..p]), min, steps[p])
  }

  // When the resyncs ran.
  function RunTimes(min: nat, steps: seq<Step>): seq<int> {
    if steps == [] then []
    else
      var n := |steps| - 1;
      RunTimes(min, steps[..n]) + if RanAt(min, steps, n).Some? then [Ends(steps[n])] else []
  }

  // ---- The rate ----

  ghost predicate Consistent(s: Sched, min: nat, times: seq<int>, clock: int) {
    && (s.lastRunAt.None? <==> times == [])
    && (times != [] ==> s.lastRunAt == Some(times[|times| - 1]) && times[|times| - 1] <= clock)
    && (s.timer.Some? ==> times != [] && s.timer.value >= times[|times| - 1] + min && s.timer.value <= clock + min)
    && (s.timer.Some? <==> s.pending.Some?)
  }

  lemma {:induction false} RunIsConsistent(min: nat, steps: seq<Step>)
    requires IsRun(min, steps) && steps != []
    ensures Consistent(After(min, steps), min, RunTimes(min, steps), Ends(steps[|steps| - 1]))
  {
    var n := |steps| - 1;
    if n > 0 {
      RunIsConsistent(min, steps[..n]);
    }
  }

  // Any two resyncs with k others between them are at least k + 1 intervals apart.
  lemma {:induction false} RunsAreApart(min: nat, steps: seq<Step>, i: nat, j: nat)
    requires IsRun(min, steps) && i <= j < |RunTimes(min, steps)|
    ensures RunTimes(min, steps)[j] - RunTimes(min, steps)[i] >= (j - i) * min
  {
    var n := |steps| - 1;
    var before, times := steps[..n], RunTimes(min, steps);
    var earlier := RunTimes(min, before);
    if j < |earlier| {
      RunsAreApart(min, before, i, j);
    } else if i < j {
      RunIsConsistent(min, before);
      RunsAreApart(min, before, i, j - 1);
      assert times[j] >= earlier[j - 1] + min;
      assert (j - i) * min == (j - 1 - i) * min + min;
    }
  }

  // ---- What a run stands for ----

  // The triggers since the last run or cancellation.
  function Waiting(min: nat, steps: seq<Step>): seq<Reason> {
    if steps == [] then []
    else
      var n := |steps| - 1;
      if steps[n].Cancel? || RanAt(min, steps, n).Some? then []
      else if steps[n].Trigger? then Waiting(min, steps[..n]) + [steps[n].reason]
      else Waiting(min, steps[..n])
  }

  function FirstFull(reasons: seq<Reason>): Reason {
    if reasons == [] then Tracker.Initial
    else if reasons[0] != Tracker.Initial then reasons[0]
    else FirstFull(reasons[1..])
  }

  // The widest of some reasons: a reconnect if there is one, otherwise the first that is
  // more than initial.
  function Join(reasons: seq<Reason>): (join: Reason)
    requires reasons != []
  {
    if Tracker.Reconnect in reasons then Tracker.Reconnect else FirstFull(reasons)
  }

  lemma {:induction false} FirstFullOfMore(reasons: seq<Reason>, reason: Reason)
    ensures FirstFull(reasons + [reason])
         == if FirstFull(reasons) != Tracker.Initial then FirstFull(reasons) else reason
  {
    if reasons == [] {
      assert (reasons + [reason])[1..] == [];
    } else {
      assert (reasons + [reason])[1..] == reasons[1..] + [reason];
      FirstFullOfMore(reasons[1..], reason);
    }
  }

  lemma {:induction false} FullIsIn(reasons: seq<Reason>)
    ensures FirstFull(reasons) == Tracker.Initial || FirstFull(reasons) in reasons
  {
    if reasons != [] {
      FullIsIn(reasons[1..]);
    }
  }

  lemma JoinOfMore(reasons: seq<Reason>, reason: Reason)
    ensures Join(reasons + [reason]) == Wider(if reasons == [] then None else Some(Join(reasons)), reason)
  {
    FirstFullOfMore(reasons, reason);
    assert FirstFull([]) == Tracker.Initial;
    FullIsIn(reasons);
  }

  // Triggers wait exactly while a timer is set, and the pending reason is their join.
  lemma {:induction false} WaitingIsPending(min: nat, steps: seq<Step>)
    requires IsRun(min, steps)
    ensures var s, waiting := After(min, steps), Waiting(min, steps);
      && (waiting != [] <==> s.timer.Some?)
      && s.pending == if waiting == [] then None else Some(Join(waiting))
  {
    if steps != [] {
      var n := |steps| - 1;
      WaitingIsPending(min, steps[..n]);
      hide Join;
      if steps[n].Trigger? {
        JoinOfMore(Waiting(min, steps[..n]), steps[n].reason);
      }
    }
  }

  lemma {:induction false} PrefixIsRun(min: nat, steps: seq<Step>, p: nat)
    requires IsRun(min, steps) && p <= |steps|
    ensures IsRun(min, steps[..p])
  {
    if p < |steps| {
      PrefixIsRun(min, steps[..|steps| - 1], p);
      assert steps[..|steps| - 1][..p] == steps[..p];
    } else {
      assert steps[..p] == steps;
    }
  }

  // A resync stands for exactly the triggers since the run before it, its own included.
  lemma RunCoversItsTriggers(min: nat, steps: seq<Step>, p: nat)
    requires IsRun(min, steps) && p < |steps| && RanAt(min, steps, p).Some?
    ensures var waiting := Waiting(min, steps[..p]);
      match steps[p]
      case Trigger(_, _, reason) => waiting == [] && RanAt(min, steps, p) == Some(reason)
      case _ => steps[p].TimerFires? && waiting != [] && RanAt(min, steps, p) == Some(Join(waiting))
  {
    PrefixIsRun(min, steps, p);
    WaitingIsPending(min, steps[..p]);
    hide Join;
  }

  ghost predicate Answered(min: nat, steps: seq<Step>, p: nat, q: nat) {
    p <= q < |steps| && (RanAt(min, steps, q).Some? || steps[q].Cancel?)
  }

  // No trigger is lost: it is followed by a run or a cancellation, or it is among those a
  // timer is waiting for, due within one interval of the last step.
  lemma {:induction false} NoTriggerIsLost(min: nat, steps: seq<Step>, p: nat) returns (q: nat)
    requires IsRun(min, steps) && p < |steps| && steps[p].Trigger?
    ensures Answered(min, steps, p, q)
         || (steps[p].reason in Waiting(min, steps) && After(min, steps).timer.Some?
             && After(min, steps).timer.value <= Ends(steps[|steps| - 1]) + min)
  {
    var n := |steps| - 1;
    q := n;
    RunIsConsistent(min, steps);
    WaitingIsPending(min, steps);
    if !Answered(min, steps, p, n) && p < n {
      q := NoTriggerIsLost(min, steps[..n], p);
      if Answered(min, steps[..n], p, q) {
        assert steps[..n][..q] == steps[..q];
      }
    }
  }
}
