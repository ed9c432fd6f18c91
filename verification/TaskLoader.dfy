// autoLoadTaskFromWs of src/ui/api/wsInvalidation.ts: one fetch in flight per task key, and
// one more afterwards when events arrived meanwhile.
module TaskLoader {

  datatype Task = Task(chain: string, id: string)

  // The key under which a task is coalesced.
  function Key(t: Task): string {
    t.chain + ":" + t.id
  }

  // inFlight holds, per key, whether an event is pending; running holds the task that each
  // unsettled fetch was started for.
  datatype Loader = Loader(inFlight: map<string, bool>, running: seq<Task>)

  const INITIAL: Loader := Loader(map[], [])

  datatype Step = Event(t: Task) | Settles(k: nat)

  // ---- One step, as a specification ----

  function Without(running: seq<Task>, k: nat): seq<Task>
    requires k < |running|
  {
    running[..k] + running[k + 1..]
  }

  predicate Enabled(s: Loader, step: Step) {
    step.Settles? ==> step.k < |s.running|
  }

  function Next(s: Loader, step: Step): Loader
    requires Enabled(s, step)
  {
    match step
    case Event(t) =>
      if t.id == "" then s
      else if Key(t) in s.inFlight then s.(inFlight := s.inFlight[Key(t) := true])
      else Loader(s.inFlight[Key(t) := false], s.running + [t])
    case Settles(k) =>
      var t := s.running[k];
      if Key(t) in s.inFlight && s.inFlight[Key(t)]
      then Loader(s.inFlight[Key(t) := false], Without(s.running, k) + [t])
      else Loader(s.inFlight - {Key(t)}, Without(s.running, k))
  }

  // ---- The module's table and the two callbacks ----

  class TaskLoaders {
    var inFlight: map<string, bool>
    var running: seq<Task>

    ghost function Value(): Loader
      reads this
    {
      Loader(inFlight, running)
    }

    constructor ()
      ensures Value() == INITIAL
    {
      inFlight, running := map[], [];
    }

    method ExecuteFetch(t: Task)
      modifies this`running
      ensures running == old(running) + [t]
    {
      running := running + [t];
    }

    method AutoLoadTask(t: Task)
      modifies this
      ensures Value() == Next(old(Value()), Event(t))
    {
      if t.id == "" {
        return;
      }
      var key := Key(t);
      if key in inFlight {
        inFlight := inFlight[key := true];
        return;
      }
      inFlight := inFlight[key := false];
      ExecuteFetch(t);
    }

    method FetchSettled(k: nat)
      requires k < |running|
      modifies this
      ensures Value() == Next(old(Value()), Settles(k))
    {
      var t := running[k];
      running := Without(running, k);
      var key := Key(t);
      if key in inFlight && inFlight[key] {
        inFlight := inFlight[key := false];
        ExecuteFetch(t);
      } else {
        inFlight := inFlight - {key};
      }
    }
  }

  // ---- Runs ----

  function After(steps: seq<Step>): Loader
    requires IsRun(steps)
    decreases |steps|, 1
  {
    if steps == [] then INITIAL else Next(After(steps[..|steps| - 1]), steps[|steps| - 1])
  }

  ghost predicate IsRun(steps: seq<Step>)
    decreases |steps|, 0
  {
    steps == [] ||
    (IsRun(steps[..|steps| - 1]) && Enabled(After(steps[..|steps| - 1]), steps[|steps| - 1]))
  }

  // ---- At most one fetch per key ----

  ghost predicate Runs(running: seq<Task>, key: string) {
    exists i :: 0 <= i < |running| && Key(running[i]) == key
  }

  ghost predicate Apart(running: seq<Task>) {
    forall i, j :: 0 <= i < j < |running| ==> Key(running[i]) != Key(running[j])
  }

  // Keys in the table are exactly those of running fetches, one each.
  ghost predicate OneEach(s: Loader) {
    Apart(s.running) && forall key :: key in s.inFlight <==> Runs(s.running, key)
  }

  lemma RunsOneMore(running: seq<Task>, t: Task)
    ensures forall key :: Runs(running + [t], key) <==> Runs(running, key) || key == Key(t)
    ensures Apart(running) && !Runs(running, Key(t)) ==> Apart(running + [t])
  {
    hide Key;
    forall key
      ensures Runs(running + [t], key) <==> Runs(running, key) || key == Key(t)
    {
      if Runs(running, key) {
        var i :| 0 <= i < |running| && Key(running[i]) == key;
        assert (running + [t])[i] == running[i];
      }
      assert (running + [t])[|running|] == t;
    }
  }

  lemma RunsOneLess(running: seq<Task>, k: nat)
    requires k < |running| && Apart(running)
    ensures Apart(Without(running, k))
    ensures forall key :: Runs(Without(running, k), key) <==> Runs(running, key) && key != Key(running[k])
  {
    hide Key;
    var rest := Without(running, k);
    forall key
      ensures Runs(rest, key) <==> Runs(running, key) && key != Key(running[k])
    {
      if Runs(rest, key) {
        var i :| 0 <= i < |rest| && Key(rest[i]) == key;
        assert rest[i] == running[if i < k then i else i + 1];
      }
      if Runs(running, key) && key != Key(running[k]) {
        var i :| 0 <= i < |running| && Key(running[i]) == key;
        assert rest[if i < k then i else i - 1] == running[i];
      }
    }
  }

  lemma StepKeepsOneEach(s: Loader, step: Step)
    requires OneEach(s) && Enabled(s, step)
    ensures OneEach(Next(s, step))
  {
    match step {
      case Event(t) => RunsOneMore(s.running, t);
      case Settles(k) =>
        RunsOneLess(s.running, k);
        RunsOneMore(Without(s.running, k), s.running[k]);
        assert Runs(s.running, Key(s.running[k]));
    }
    hide Key, Runs, Apart, Without;
  }

  lemma {:induction false} RunIsOneEach(steps: seq<Step>)
    requires IsRun(steps)
    ensures OneEach(After(steps))
  {
    if steps != [] {
      RunIsOneEach(steps[..|steps| - 1]);
      hide OneEach, Next;
      StepKeepsOneEach(After(steps[..|steps| - 1]), steps[|steps| - 1]);
    }
  }

  // Per key at most one fetch is in flight, and the table holds exactly the keys in flight.
  lemma OneFetchPerKey(steps: seq<Step>, i: nat, j: nat)
    requires IsRun(steps) && i < |After(steps).running| && j < |After(steps).running|
    ensures Key(After(steps).running[i]) == Key(After(steps).running[j]) ==> i == j
    ensures Key(After(steps).running[i]) in After(steps).inFlight
  {
    RunIsOneEach(steps);
    hide Key;
    assert Runs(After(steps).running, Key(After(steps).running[i]));
  }

  // ---- Every event is followed by a fetch of its key ----

  predicate Fetches(s: Loader, step: Step, key: string)
    requires Enabled(s, step)
  {
    match step
    case Event(t) => t.id != "" && Key(t) == key && key !in s.inFlight
    case Settles(k) => Key(s.running[k]) == key && key in s.inFlight && s.inFlight[key]
  }

  // Whether some event of a key has had no fetch started at or after it.
  ghost predicate Unserved(steps: seq<Step>, key: string)
    requires IsRun(steps)
  {
    steps != [] &&
    var before, step := steps[..|steps| - 1], steps[|steps| - 1];
    !Fetches(After(before), step, key)
    && (Unserved(before, key) || (step.Event? && step.t.id != "" && Key(step.t) == key))
  }

  // A key is in the table exactly while a fetch runs for it, marked pending exactly while
  // an event is unserved: so it is removed exactly when neither is the case.
  lemma {:induction false} TableIsExact(steps: seq<Step>, key: string)
    requires IsRun(steps)
    ensures var s := After(steps);
      && (key in s.inFlight <==> Runs(s.running, key))
      && (key in s.inFlight && s.inFlight[key] <==> Unserved(steps, key))
  {
    RunIsOneEach(steps);
    if steps != [] {
      var n := |steps| - 1;
      TableIsExact(steps[..n], key);
      hide Key, Runs, Without;
    }
  }

  // ---- When the fetch is one of the event's own task ----

  // The tasks of a run whose events were not dropped for lack of an id.
  ghost predicate Seen(steps: seq<Step>, t: Task) {
    t.id != "" && exists p :: 0 <= p < |steps| && steps[p] == Event(t)
  }

  lemma {:induction false} RunningWasSeen(steps: seq<Step>, i: nat)
    requires IsRun(steps) && i < |After(steps).running|
    ensures Seen(steps, After(steps).running[i])
  {
    var n := |steps| - 1;
    var before := steps[..n];
    var s, t := After(before), After(steps).running[i];
    hide Key;
    if t in s.running {
      var j :| 0 <= j < |s.running| && s.running[j] == t;
      RunningWasSeen(before, j);
      var p :| 0 <= p < n && before[p] == Event(t);
      assert steps[p] == Event(t);
    } else {
      assert steps[n] == Event(t);
    }
  }

  lemma {:induction false} PrefixIsRun(steps: seq<Step>, p: nat)
    requires IsRun(steps) && p <= |steps|
    ensures IsRun(steps[..p])
    ensures p < |steps| ==> Enabled(After(steps[..p]), steps[p])
  {
    if p < |steps| {
      PrefixIsRun(steps[..|steps| - 1], p);
      assert steps[..|steps| - 1][..p] == steps[..p];
    } else {
      assert steps[..p] == steps;
    }
  }

  // The task that a step which fetches would fetch.
  function Subject(s: Loader, step: Step): Task
    requires Enabled(s, step)
  {
    match step
    case Event(t) => t
    case Settles(k) => s.running[k]
  }

  // Step q starts a fetch of t itself.
  ghost predicate FetchesTask(steps: seq<Step>, q: nat, t: Task)
    requires IsRun(steps)
  {
    q < |steps|
    && (PrefixIsRun(steps, q);
        var s := After(steps[..q]);
        Fetches(s, steps[q], Key(t)) && Subject(s, steps[q]) == t)
  }

  // No other task of the run shares t's key.
  ghost predicate OwnsKey(steps: seq<Step>, t: Task) {
    forall u :: Seen(steps, u) && Key(u) == Key(t) ==> u == t
  }

  // The fetches running for t's key are fetches of t.
  ghost predicate Owned(running: seq<Task>, t: Task) {
    forall u :: u in running && Key(u) == Key(t) ==> u == t
  }

  // t is being fetched, and will be fetched again.
  predicate AwaitsFetch(s: Loader, t: Task) {
    t in s.running && Key(t) in s.inFlight && s.inFlight[Key(t)]
  }

  lemma RunningIsOwned(steps: seq<Step>, t: Task)
    requires IsRun(steps) && OwnsKey(steps, t)
    ensures Owned(After(steps).running, t)
  {
    hide Key;
    forall u | u in After(steps).running
      ensures Seen(steps, u)
    {
      var i :| 0 <= i < |After(steps).running| && After(steps).running[i] == u;
      RunningWasSeen(steps, i);
    }
  }

  lemma OwnsKeyBefore(steps: seq<Step>, t: Task)
    requires steps != [] && OwnsKey(steps, t)
    ensures OwnsKey(steps[..|steps| - 1], t)
  {
    var before := steps[..|steps| - 1];
    forall u | Seen(before, u)
      ensures Seen(steps, u)
    {
      var p :| 0 <= p < |before| && before[p] == Event(u);
      assert steps[p] == Event(u);
    }
  }

  lemma StepServes(s: Loader, step: Step, t: Task)
    requires OneEach(s) && Enabled(s, step) && Owned(s.running, t) && t.id != ""
    requires AwaitsFetch(s, t) || step == Event(t)
    ensures AwaitsFetch(Next(s, step), t) || (Fetches(s, step, Key(t)) && Subject(s, step) == t)
  {
    hide Key;
    if step.Event? {
      if Key(t) in s.inFlight {
        assert Runs(s.running, Key(t));
        assert t in s.running;
      }
    } else if Key(s.running[step.k]) != Key(t) {
      var i :| 0 <= i < |s.running| && s.running[i] == t;
      assert t == Without(s.running, step.k)[if i < step.k then i else i - 1];
    } else {
      assert s.running[step.k] in s.running;
    }
  }

  // A task that owns its key is fetched at or after each of its events, or will be: its own
  // fetch is running and marked pending.
  lemma {:induction false} EveryEventIsFetched(steps: seq<Step>, p: nat, t: Task) returns (q: nat)
    requires IsRun(steps) && p < |steps| && steps[p] == Event(t) && t.id != "" && OwnsKey(steps, t)
    ensures (p <= q && FetchesTask(steps, q, t)) || AwaitsFetch(After(steps), t)
  {
    hide Key, OwnsKey, Owned, OneEach, AwaitsFetch;
    var n := |steps| - 1;
    var before := steps[..n];
    q := n;
    OwnsKeyBefore(steps, t);
    if p < n {
      var r := EveryEventIsFetched(before, p, t);
      if p <= r && FetchesTask(before, r, t) {
        assert before[..r] == steps[..r];
        q := r;
        return;
      }
    }
    RunIsOneEach(before);
    RunningIsOwned(before, t);
    StepServes(After(before), steps[n], t);
    hide Next, Fetches, Subject;
  }

  lemma RunMore(before: seq<Step>, step: Step, steps: seq<Step>)
    requires IsRun(before) && Enabled(After(before), step) && steps == before + [step]
    ensures IsRun(steps) && After(steps) == Next(After(before), step)
  {
    assert steps[..|before|] == before;
    hide Next, Enabled;
  }

  // Two events of one key, and the two fetches that they cause.
  lemma SharedRun(t: Task, u: Task) returns (a: seq<Step>, b: seq<Step>, c: seq<Step>, d: seq<Step>)
    requires t.id != "" && u.id != "" && Key(t) == Key(u)
    ensures a == [Event(t)] && b == [Event(t), Event(u)] && c == b + [Settles(0)] && d == c + [Settles(0)]
    ensures IsRun(a) && After(a) == Loader(map[Key(t) := false], [t])
    ensures IsRun(b) && After(b) == Loader(map[Key(t) := true], [t])
    ensures IsRun(c) && After(c) == Loader(map[Key(t) := false], [t])
    ensures IsRun(d) && After(d) == INITIAL
  {
    hide Key;
    a, b := [Event(t)], [Event(t), Event(u)];
    c, d := b + [Settles(0)], b + [Settles(0), Settles(0)];
    assert a == [] + [Event(t)] && b == a + [Event(u)] && d == c + [Settles(0)];
    RunMore([], Event(t), a);
    RunMore(a, Event(u), b);
    assert After(b).inFlight == map[Key(t) := true];
    hide IsRun, After;
    RunMore(b, Settles(0), c);
    assert Without([t], 0) + [t] == [t];
    assert After(c).inFlight == map[Key(t) := false];
    RunMore(c, Settles(0), d);
    assert map[Key(t) := false] - {Key(t)} == map[];
  }

  // Two tasks that share a key lose events: the second is coalesced into a fetch of the
  // first, and never fetched itself.
  lemma SharedKeyLosesEvents(t: Task, u: Task)
    requires t.id != "" && u.id != "" && t != u && Key(t) == Key(u)
    ensures var steps := [Event(t), Event(u), Settles(0), Settles(0)];
      IsRun(steps) && After(steps) == INITIAL && forall q :: 1 <= q ==> !FetchesTask(steps, q, u)
  {
    var a, b, c, d := SharedRun(t, u);
    hide Key, After, IsRun;
    assert d == [Event(t), Event(u), Settles(0), Settles(0)];
    assert d[..1] == a && d[..2] == b && d[..3] == c;
  }

  // ---- When all events are served ----

  // Only events of the given tasks.
  ghost predicate Over(steps: seq<Step>, tasks: set<Task>) {
    forall p :: 0 <= p < |steps| && steps[p].Event? ==> steps[p].t in tasks
  }

  ghost predicate Served(steps: seq<Step>, p: nat, t: Task)
    requires IsRun(steps)
  {
    AwaitsFetch(After(steps), t) || exists q :: p <= q < |steps| && FetchesTask(steps, q, t)
  }

  // Every event of the run is followed by a fetch of its own task, or will be.
  ghost predicate AllServed(steps: seq<Step>)
    requires IsRun(steps)
  {
    forall p :: 0 <= p < |steps| && steps[p].Event? && steps[p].t.id != "" ==> Served(steps, p, steps[p].t)
  }

  ghost predicate DistinctKeys(tasks: set<Task>) {
    forall t, u :: t in tasks && u in tasks && t.id != "" && u.id != "" && Key(t) == Key(u) ==> t == u
  }

  lemma DistinctIsOwned(steps: seq<Step>, tasks: set<Task>, t: Task)
    requires Over(steps, tasks) && DistinctKeys(tasks) && t in tasks && t.id != ""
    ensures OwnsKey(steps, t)
  {
    hide Key;
    forall u | Seen(steps, u)
      ensures u in tasks && u.id != ""
    {
      var p :| 0 <= p < |steps| && steps[p] == Event(u);
      assert steps[p].t in tasks;
    }
  }

  lemma FetchIsStep(steps: seq<Step>, q: nat, t: Task)
    requires IsRun(steps) && FetchesTask(steps, q, t)
    ensures q < |steps|
  {}

  lemma DistinctIsServed(steps: seq<Step>, tasks: set<Task>)
    requires IsRun(steps) && Over(steps, tasks) && DistinctKeys(tasks)
    ensures AllServed(steps)
  {
    hide IsRun, OwnsKey, DistinctKeys, FetchesTask, AwaitsFetch, After;
    forall p | 0 <= p < |steps| && steps[p].Event? && steps[p].t.id != ""
      ensures Served(steps, p, steps[p].t)
    {
      var t := steps[p].t;
      assert steps[p].t in tasks;
      DistinctIsOwned(steps, tasks, t);
      var q := EveryEventIsFetched(steps, p, t);
      if !AwaitsFetch(After(steps), t) {
        FetchIsStep(steps, q, t);
      }
    }
  }

  lemma SharedIsUnserved(t: Task, u: Task) returns (steps: seq<Step>)
    requires t.id != "" && u.id != "" && t != u && Key(t) == Key(u)
    ensures IsRun(steps) && Over(steps, {t, u}) && !AllServed(steps)
  {
    SharedKeyLosesEvents(t, u);
    hide Key, IsRun, FetchesTask, After;
    steps := [Event(t), Event(u), Settles(0), Settles(0)];
    assert !Served(steps, 1, u);
    assert steps[1] == Event(u);
  }

  // The exact condition: in all runs over a set of tasks every event is served exactly when
  // no two of the tasks share a key.
  lemma ServedIffKeysAreDistinct(tasks: set<Task>)
    ensures (forall steps :: IsRun(steps) && Over(steps, tasks) ==> AllServed(steps)) <==> DistinctKeys(tasks)
  {
    hide Key, IsRun, AllServed;
    if DistinctKeys(tasks) {
      forall steps | IsRun(steps) && Over(steps, tasks)
        ensures AllServed(steps)
      {
        DistinctIsServed(steps, tasks);
      }
    } else {
      var t, u :| t in tasks && u in tasks && t.id != "" && u.id != "" && Key(t) == Key(u) && t != u;
      var steps := SharedIsUnserved(t, u);
      assert Over(steps, tasks);
    }
  }

  // The key is ambiguous only when a chain id holds a colon.
  lemma ColonFreeKeysAreDistinct(t: Task, u: Task)
    requires ':' !in t.chain && ':' !in u.chain && Key(t) == Key(u)
    ensures t == u
  {
    var key := Key(t);
    assert key[|t.chain|] == ':' && key[|u.chain|] == ':';
    assert forall i :: 0 <= i < |t.chain| ==> key[i] == t.chain[i];
    assert forall i :: 0 <= i < |u.chain| ==> key[i] == u.chain[i];
    assert t.chain == key[..|t.chain|] && u.chain == key[..|u.chain|];
    assert t.id == key[|t.chain| + 1..] && u.id == key[|u.chain| + 1..];
  }

  lemma KeysCanCollide()
    ensures Key(Task("a", "b:c")) == Key(Task("a:b", "c"))
  {}
}
