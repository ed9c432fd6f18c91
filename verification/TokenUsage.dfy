// Chain token-usage refresh pacing of src/ui/api/chainTokenUsageRefresh.ts: events become
// at most one refresh per window and chain, only while the chain is viewed, and none is
// forgotten.
module TokenUsage {
  import opened Options

  type Chain = string

  const CHAIN_TOKEN_USAGE_REFRESH_MS := 15000

  // last is None for -Infinity; a timer is the earliest time at which it may fire.
  datatype Window = Window(last: Option<int>, timer: Option<int>)

  // What retain hands out: a release callback with its own flag.
  datatype Handle = Handle(chain: Chain, released: bool)

  datatype Usage = Usage(
    viewers: map<Chain, nat>,
    stale: set<Chain>,
    windows: map<Chain, Window>,
    handles: seq<Handle>)

  const INITIAL: Usage := Usage(map[], {}, map[], [])

  // ---- One call, as a specification ----

  function Viewers(s: Usage, c: Chain): nat {
    if c in s.viewers then s.viewers[c] else 0
  }

  predicate Viewed(s: Usage, c: Chain) {
    Viewers(s, c) > 0
  }

  function WindowOf(s: Usage, c: Chain): Window {
    if c in s.windows then s.windows[c] else Window(None, None)
  }

  predicate HasTimer(s: Usage, c: Chain) {
    WindowOf(s, c).timer.Some?
  }

  function Retain(s: Usage, c: Chain): Usage {
    if c == "" then s
    else
      Usage(s.viewers[c := Viewers(s, c) + 1], s.stale - {c}, s.windows, s.handles + [Handle(c, false)])
  }

  function Release(s: Usage, h: nat): Usage
    requires h < |s.handles|
  {
    var c := s.handles[h].chain;
    if s.handles[h].released then s
    else
      var t := s.(handles := s.handles[h := Handle(c, true)]);
      if Viewers(s, c) > 1 then t.(viewers := s.viewers[c := Viewers(s, c) - 1])
      else if HasTimer(s, c) then
        t.(viewers := s.viewers - {c}, stale := s.stale + {c},
           windows := s.windows[c := WindowOf(s, c).(timer := None)])
      else t.(viewers := s.viewers - {c})
  }

  // Whether a request at this time may refresh at once.
  predicate IsDue(w: Window, now: int) {
    w.last.None? || w.last.value + CHAIN_TOKEN_USAGE_REFRESH_MS <= now
  }

  // A request that reads the clock at now and starts its timer, if any, at setAt.
  function Request(s: Usage, c: Chain, now: int, setAt: int): Usage {
    var w := WindowOf(s, c);
    if c == "" then s
    else if !Viewed(s, c) then s.(stale := s.stale + {c})
    else if w.timer.Some? then s.(windows := s.windows[c := w])
    else if IsDue(w, now) then s.(windows := s.windows[c := Window(Some(now), None)])
    else s.(windows := s.windows[c := w.(timer := Some(setAt + (w.last.value + CHAIN_TOKEN_USAGE_REFRESH_MS - now)))])
  }

  predicate RefreshesNow(s: Usage, c: Chain, now: int) {
    c != "" && Viewed(s, c) && !HasTimer(s, c) && IsDue(WindowOf(s, c), now)
  }

  function Fire(s: Usage, c: Chain, now: int): Usage {
    var w := WindowOf(s, c);
    if !Viewed(s, c) then s.(stale := s.stale + {c}, windows := s.windows[c := w.(timer := None)])
    else s.(windows := s.windows[c := Window(Some(now), None)])
  }

  // ---- The module's variables and functions ----

  class TokenUsageRefresh {
    var viewers: map<Chain, nat>
    var staleChains: set<Chain>
    var windows: map<Chain, Window>
    var handles: seq<Handle>

    ghost function Value(): Usage
      reads this
    {
      Usage(viewers, staleChains, windows, handles)
    }

    constructor ()
      ensures Value() == INITIAL
    {
      viewers, staleChains, windows, handles := map[], {}, map[], [];
    }

    function CountViewers(c: Chain): nat
      reads this
    {
      if c in viewers then viewers[c] else 0
    }

    // The handle is the index of the release callback; none is made for an empty chain.
    method RetainView(c: Chain) returns (stale: bool, handle: Option<nat>)
      modifies this
      ensures Value() == Retain(old(Value()), c)
      ensures stale == (c != "" && c in old(staleChains))
      ensures handle == if c == "" then None else Some(|old(handles)|)
    {
      if c == "" {
        return false, None;
      }
      viewers := viewers[c := CountViewers(c) + 1];
      stale := c in staleChains;
      staleChains := staleChains - {c};
      handle := Some(|handles|);
      handles := handles + [Handle(c, false)];
    }

    method ReleaseView(h: nat)
      requires h < |handles|
      modifies this
      ensures Value() == Release(old(Value()), h)
    {
      var c := handles[h].chain;
      if handles[h].released {
        return;
      }
      handles := handles[h := Handle(c, true)];
      var left := CountViewers(c) - 1;
      if left > 0 {
        viewers := viewers[c := left];
        return;
      }
      viewers := viewers - {c};
      if c in windows && windows[c].timer.Some? {
        windows := windows[c := windows[c].(timer := None)];
        staleChains := staleChains + {c};
      }
    }

    method RequestRefresh(c: Chain, now: int, setAt: int) returns (invalidated: bool)
      modifies this
      ensures Value() == Request(old(Value()), c, now, setAt)
      ensures invalidated == RefreshesNow(old(Value()), c, now)
    {
      invalidated := false;
      if c == "" {
        return;
      }
      if CountViewers(c) == 0 {
        staleChains := staleChains + {c};
        return;
      }
      var w := if c in windows then windows[c] else Window(None, None);
      windows := windows[c := w];
      if w.timer.Some? {
        return;
      }
      if w.last.None? || w.last.value + CHAIN_TOKEN_USAGE_REFRESH_MS - now <= 0 {
        windows := windows[c := w.(last := Some(now))];
        return true;
      }
      var wait := w.last.value + CHAIN_TOKEN_USAGE_REFRESH_MS - now;
      windows := windows[c := w.(timer := Some(setAt + wait))];
    }

    method TimerFires(c: Chain, now: int) returns (invalidated: bool)
      requires c in windows
      modifies this
      ensures Value() == Fire(old(Value()), c, now)
      ensures invalidated == Viewed(old(Value()), c)
    {
      var w := windows[c].(timer := None);
      windows := windows[c := w];
      if CountViewers(c) == 0 {
        staleChains := staleChains + {c};
        return false;
      }
      windows := windows[c := w.(last := Some(now))];
      return true;
    }
  }

  // ---- Runs ----

  datatype Step =
    | Retains(c: Chain)
    | Releases(h: nat)
    | Requests(c: Chain, now: int, setAt: int)
    | Fires(c: Chain, now: int)

  function Next(s: Usage, step: Step): Usage {
    match step
    case Retains(c) => Retain(s, c)
    case Releases(h) => if h < |s.handles| then Release(s, h) else s
    case Requests(c, now, setAt) => Request(s, c, now, setAt)
    case Fires(c, now) => Fire(s, c, now)
  }

  function After(steps: seq<Step>): Usage {
    if steps == [] then INITIAL else Next(After(steps[..|steps| - 1]), steps[|steps| - 1])
  }

  // The latest clock reading of a run, if there was one.
  function Clock(steps: seq<Step>): Option<int> {
    if steps == [] then None
    else
      match steps[|steps| - 1]
      case Requests(_, _, setAt) => Some(setAt)
      case Fires(_, now) => Some(now)
      case _ => Clock(steps[..|steps| - 1])
  }

  // The clock never goes back, and a timer that is set fires no earlier than it is due.
  ghost predicate Enabled(s: Usage, clock: Option<int>, step: Step) {
    match step
    case Retains(_) => true
    case Releases(h) => h < |s.handles|
    case Requests(_, now, setAt) => now <= setAt && (clock.Some? ==> clock.value <= now)
    case Fires(c, now) =>
      HasTimer(s, c) && WindowOf(s, c).timer.value <= now && (clock.Some? ==> clock.value <= now)
  }

  ghost predicate IsRun(steps: seq<Step>) {
    steps == [] ||
    var before := steps[..|steps| - 1];
    IsRun(before) && Enabled(After(before), Clock(before), steps[|steps| - 1])
  }

  // Whether a step invalidates chain c.
  predicate Invalidates(s: Usage, step: Step, c: Chain) {
    || (step.Requests? && step.c == c && RefreshesNow(s, c, step.now))
    || (step.Fires? && step.c == c && Viewed(s, c))
  }

  // When chain c was invalidated.
  function Times(steps: seq<Step>, c: Chain): seq<int> {
    if steps == [] then []
    else
      var before, step := steps[..|steps| - 1], steps[|steps| - 1];
      if (step.Requests? || step.Fires?) && Invalidates(After(before), step, c) then Times(before, c) + [step.now]
      else Times(before, c)
  }

  // ---- The state between steps ----

  // Unreleased handles of a chain.
  function Live(handles: seq<Handle>, c: Chain): nat {
    if handles == [] then 0
    else
      var n := |handles| - 1;
      if handles[n] == Handle(c, false) then Live(handles[..n], c) + 1 else Live(handles[..n], c)
  }

  lemma {:induction false} LiveAfterRelease(handles: seq<Handle>, h: nat, c: Chain)
    requires h < |handles|
    ensures Live(handles[h := Handle(handles[h].chain, true)], c)
         == Live(handles, c) - if handles[h] == Handle(c, false) then 1 else 0
  {
    var n := |handles| - 1;
    var changed := handles[h := Handle(handles[h].chain, true)];
    if h < n {
      assert changed[..n] == handles[..n][h := Handle(handles[h].chain, true)];
      LiveAfterRelease(handles[..n], h, c);
    } else {
      assert changed[..n] == handles[..n];
    }
  }

  ghost predicate Sound(s: Usage, c: Chain, times: seq<int>, clock: Option<int>) {
    && Viewers(s, c) == Live(s.handles, c)
    && (c in s.stale ==> !Viewed(s, c))
    && (HasTimer(s, c) ==> Viewed(s, c))
    && (WindowOf(s, c).last.None? <==> times == [])
    && (times != [] ==> WindowOf(s, c).last == Some(times[|times| - 1]))
    && (times != [] ==> clock.Some? && times[|times| - 1] <= clock.value)
    && (HasTimer(s, c) ==>
          times != [] && WindowOf(s, c).timer.value >= times[|times| - 1] + CHAIN_TOKEN_USAGE_REFRESH_MS)
  }

  lemma LiveAfterRetain(handles: seq<Handle>, added: Chain, c: Chain)
    ensures Live(handles + [Handle(added, false)], c) == Live(handles, c) + if added == c then 1 else 0
  {
    assert (handles + [Handle(added, false)])[..|handles|] == handles;
  }

  lemma ViewsKeepSound(s: Usage, step: Step, c: Chain, times: seq<int>, clock: Option<int>)
    requires Sound(s, c, times, clock) && Enabled(s, clock, step) && (step.Retains? || step.Releases?)
    ensures Sound(Next(s, step), c, times, clock)
  {
    if step.Retains? {
      LiveAfterRetain(s.handles, step.c, c);
    } else {
      LiveAfterRelease(s.handles, step.h, c);
    }
    hide Live;
  }

  lemma EventsKeepSound(s: Usage, step: Step, c: Chain, times: seq<int>, clock: Option<int>, now: int)
    requires Sound(s, c, times, clock) && Enabled(s, clock, step) && (step.Requests? || step.Fires?) && step.now == now
    ensures Sound(Next(s, step), c, if Invalidates(s, step, c) then times + [now] else times,
                  Some(if step.Requests? then step.setAt else now))
  {
    hide Live;
  }

  lemma {:induction false} RunIsSound(steps: seq<Step>, c: Chain)
    requires IsRun(steps)
    ensures Sound(After(steps), c, Times(steps, c), Clock(steps))
  {
    if steps != [] {
      var before, step := steps[..|steps| - 1], steps[|steps| - 1];
      RunIsSound(before, c);
      hide Sound, Next, Enabled, Invalidates;
      if step.Requests? || step.Fires? {
        EventsKeepSound(After(before), step, c, Times(before, c), Clock(before), step.now);
      } else {
        ViewsKeepSound(After(before), step, c, Times(before, c), Clock(before));
      }
    }
  }

  lemma {:induction false} LiveIffIn(handles: seq<Handle>, c: Chain)
    ensures Live(handles, c) > 0 <==> Handle(c, false) in handles
  {
    if handles != [] {
      var n := |handles| - 1;
      LiveIffIn(handles[..n], c);
      assert handles == handles[..n] + [handles[n]];
    }
  }

  // Stale chains are not viewed, a pending timer has a viewer, and a chain is viewed
  // exactly while some view of it is retained and not yet released, however often the
  // others were released.
  lemma ViewsAndMarks(steps: seq<Step>, c: Chain)
    requires IsRun(steps)
    ensures var s := After(steps);
      && (c in s.stale ==> !Viewed(s, c))
      && (HasTimer(s, c) ==> Viewed(s, c))
      && (Viewed(s, c) <==> Handle(c, false) in s.handles)
  {
    RunIsSound(steps, c);
    LiveIffIn(After(steps).handles, c);
  }

  lemma StepIsApart(s: Usage, step: Step, c: Chain, times: seq<int>, clock: Option<int>)
    requires Sound(s, c, times, clock) && Enabled(s, clock, step) && times != []
    requires (step.Requests? || step.Fires?) && Invalidates(s, step, c)
    ensures step.now - times[|times| - 1] >= CHAIN_TOKEN_USAGE_REFRESH_MS
  {
    hide Live;
  }

  // A step adds at most one invalidation, a window after the one before it.
  lemma NextTime(steps: seq<Step>, c: Chain)
    requires IsRun(steps) && steps != []
    ensures var before, times := Times(steps[..|steps| - 1], c), Times(steps, c);
      times == before || (|times| == |before| + 1 && before <= times &&
        (before != [] ==> times[|before|] - before[|before| - 1] >= CHAIN_TOKEN_USAGE_REFRESH_MS))
  {
    var before, step := steps[..|steps| - 1], steps[|steps| - 1];
    RunIsSound(before, c);
    hide After, Sound, Enabled, Invalidates, Clock;
    if (step.Requests? || step.Fires?) && Invalidates(After(before), step, c) && Times(before, c) != [] {
      StepIsApart(After(before), step, c, Times(before, c), Clock(before));
    }
  }

  lemma RunBefore(steps: seq<Step>, c: Chain)
    requires IsRun(steps) && Times(steps, c) != []
    ensures steps != [] && IsRun(steps[..|steps| - 1])
  {
    hide Enabled;
  }

  // Two invalidations of a chain with k others between them are k + 1 windows apart.
  lemma {:induction false} InvalidationsAreApart(steps: seq<Step>, c: Chain, i: nat, j: nat)
    requires IsRun(steps) && i <= j < |Times(steps, c)|
    ensures Times(steps, c)[j] - Times(steps, c)[i] >= (j - i) * CHAIN_TOKEN_USAGE_REFRESH_MS
  {
    hide *;
    RunBefore(steps, c);
    var before := steps[..|steps| - 1];
    NextTime(steps, c);
    if j < |Times(before, c)| {
      InvalidationsAreApart(before, c, i, j);
    } else if i < j {
      InvalidationsAreApart(before, c, i, j - 1);
    }
  }

  // ---- Every request is answered ----

  // Step q invalidates the chain, or tells a new viewer that it is stale.
  ghost predicate Answers(steps: seq<Step>, q: nat, c: Chain) {
    q < |steps| &&
    var s := After(steps[..q]);
    Invalidates(s, steps[q], c) || (steps[q] == Retains(c) && c in s.stale)
  }

  predicate Owed(s: Usage, c: Chain) {
    c in s.stale || HasTimer(s, c)
  }

  lemma StepAnswers(s: Usage, step: Step, clock: Option<int>, c: Chain)
    requires Enabled(s, clock, step) && c != ""
    requires Owed(s, c) || (step.Requests? && step.c == c)
    ensures Owed(Next(s, step), c) || Invalidates(s, step, c) || (step == Retains(c) && c in s.stale)
  {}

  // No request is lost: it is followed by an invalidation, or by a new viewer that is told
  // to refresh, or the chain is still marked stale or has a timer pending.
  lemma {:induction false} NoRequestIsLost(steps: seq<Step>, p: nat, c: Chain) returns (q: nat)
    requires IsRun(steps) && p < |steps| && steps[p].Requests? && steps[p].c == c && c != ""
    ensures Owed(After(steps), c) || (p <= q && Answers(steps, q, c))
  {
    var n := |steps| - 1;
    var before := steps[..n];
    q := n;
    if p < n {
      var r := NoRequestIsLost(before, p, c);
      if p <= r && Answers(before, r, c) {
        assert before[..r] == steps[..r];
        q := r;
        return;
      }
    }
    StepAnswers(After(before), steps[n], Clock(before), c);
    hide Next, Invalidates, Owed;
  }

  // The trailing refresh is due within one window of the request that set its timer.
  lemma TimersAreSoon(steps: seq<Step>, c: Chain, now: int, setAt: int)
    requires IsRun(steps) && Enabled(After(steps), Clock(steps), Requests(c, now, setAt))
    ensures var t := Next(After(steps), Requests(c, now, setAt));
      HasTimer(t, c) && !HasTimer(After(steps), c) ==>
        setAt < WindowOf(t, c).timer.value <= setAt + CHAIN_TOKEN_USAGE_REFRESH_MS
  {
    RunIsSound(steps, c);
  }
}
