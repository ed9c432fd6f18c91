// UserWsStreamTracker of src/ui/api/userWsRecovery.ts: which frames of one connection are
// delivered, and when the client is told that it may have missed one.
module StreamTracker {
  import opened Options

  datatype Reason = Initial | Reconnect | Gap | EpochChanged | ResyncRequired

  // The fields of a frame that the tracker looks at. Numbers are whole, as the hub sends them.
  datatype Frame = Frame(epoch: Option<string>, number: Option<int>, asksResync: bool)

  datatype Verdict = Verdict(deliver: bool, resync: Option<Reason>)

  datatype State = State(epoch: Option<string>, lastSeq: int, readyCount: nat)

  // ---- One step, as a specification ----

  function Ready(s: State, epoch: Option<string>, number: Option<int>): State {
    State(epoch, if number.Some? then number.value else 0, s.readyCount + 1)
  }

  // A frame that carries a number moves the stream on unless it is old.
  predicate Advances(s: State, f: Frame) {
    f.number.Some? && (f.epoch != s.epoch || f.number.value > s.lastSeq)
  }

  function Next(s: State, f: Frame): State {
    if Advances(s, f) then s.(epoch := f.epoch, lastSeq := f.number.value) else s
  }

  function Judge(s: State, f: Frame): Verdict {
    if f.number.None? then Verdict(!f.asksResync, if f.asksResync then Some(ResyncRequired) else None)
    else if !Advances(s, f) then Verdict(false, None)
    else
      Verdict(!f.asksResync,
        if f.epoch != s.epoch then Some(EpochChanged)
        else if f.number.value > s.lastSeq + 1 then Some(Gap)
        else if f.asksResync then Some(ResyncRequired)
        else None)
  }

  class UserWsStreamTracker {
    var epoch: Option<string>
    var lastSeq: int
    var readyCount: nat

    constructor ()
      ensures Value() == State(None, 0, 0)
    {
      epoch, lastSeq, readyCount := None, 0, 0;
    }

    ghost function Value(): State
      reads this
    {
      State(epoch, lastSeq, readyCount)
    }

    method OnReady(streamEpoch: Option<string>, streamSeq: Option<int>) returns (reason: Reason)
      modifies this
      ensures Value() == Ready(old(Value()), streamEpoch, streamSeq)
      ensures reason == if old(readyCount) == 0 then Initial else Reconnect
    {
      epoch := streamEpoch;
      lastSeq := if streamSeq.Some? then streamSeq.value else 0;
      readyCount := readyCount + 1;
      reason := if readyCount == 1 then Initial else Reconnect;
    }

    method OnEvent(f: Frame) returns (verdict: Verdict)
      modifies this
      ensures Value() == Next(old(Value()), f)
      ensures verdict == Judge(old(Value()), f)
    {
      if f.number.None? {
        return Verdict(!f.asksResync, if f.asksResync then Some(ResyncRequired) else None);
      }
      var seqNo := f.number.value;
      var resync: Option<Reason> := None;
      if f.epoch != epoch {
        epoch := f.epoch;
        lastSeq := seqNo;
        resync := Some(EpochChanged);
      } else if seqNo <= lastSeq {
        return Verdict(false, None);
      } else {
        if seqNo > lastSeq + 1 {
          resync := Some(Gap);
        }
        lastSeq := seqNo;
      }
      if f.asksResync {
        return Verdict(false, if resync.Some? then resync else Some(ResyncRequired));
      }
      return Verdict(true, resync);
    }
  }

  // ---- Runs: any frames, in any order ----

  function After(s: State, frames: seq<Frame>): State {
    if frames == [] then s else Next(After(s, frames[..|frames| - 1]), frames[|frames| - 1])
  }

  function VerdictAt(s: State, frames: seq<Frame>, p: nat): Verdict
    requires p < |frames|
  {
    Judge(After(s, frames[..p]), frames[p])
  }

  // The numbers delivered, in order.
  function Accepted(s: State, frames: seq<Frame>): seq<int> {
    if frames == [] then []
    else
      var before, f := frames[..|frames| - 1], frames[|frames| - 1];
      Accepted(s, before) +
      if f.number.Some? && Judge(After(s, before), f).deliver then [f.number.value] else []
  }

  // The part of a run after its last resync verdict.
  function SinceResync(s: State, frames: seq<Frame>): (start: nat)
    ensures start <= |frames|
  {
    if frames == [] then 0
    else if VerdictAt(s, frames, |frames| - 1).resync.Some? then |frames|
    else SinceResync(s, frames[..|frames| - 1])
  }

  function UpTo(low: int, high: int): (numbers: seq<int>)
    ensures low <= high ==> |numbers| == high - low
    decreases high - low
  {
    if high <= low then [] else UpTo(low, high - 1) + [high]
  }

  lemma PrefixSteps(s: State, frames: seq<Frame>, p: nat, q: nat)
    requires p <= q <= |frames|
    ensures frames[..q][..p] == frames[..p]
  {}

  lemma {:induction false} AfterConcat(s: State, frames: seq<Frame>, start: nat)
    requires start <= |frames|
    ensures After(After(s, frames[..start]), frames[start..]) == After(s, frames)
  {
    if start == |frames| {
      assert frames[..start] == frames;
    } else {
      var n := |frames| - 1;
      AfterConcat(s, frames[..n], start);
      PrefixSteps(s, frames, start, n);
      assert frames[start..][..n - start] == frames[..n][start..];
    }
  }

  // Between two resync verdicts, whatever arrives from whatever stream, the numbers
  // delivered are consecutive and end at the last one seen: nothing is missing from them.
  lemma {:induction false} NothingMissingSinceResync(s: State, frames: seq<Frame>)
    ensures var start := SinceResync(s, frames);
            var base := After(s, frames[..start]);
            && base.lastSeq <= After(s, frames).lastSeq && base.epoch == After(s, frames).epoch
            && Accepted(base, frames[start..]) == UpTo(base.lastSeq, After(s, frames).lastSeq)
  {
    if frames != [] {
      var n, start := |frames| - 1, SinceResync(s, frames);
      var before, f := frames[..n], frames[n];
      if VerdictAt(s, frames, n).resync.Some? {
        assert frames[..start] == frames && frames[start..] == [];
      } else {
        NothingMissingSinceResync(s, before);
        PrefixSteps(s, frames, start, n);
        var base := After(s, frames[..start]);
        assert frames[start..][..n - start] == before[start..];
        AfterConcat(s, before, start);
      }
    }
  }

  // ---- One connection's stream, with drops, duplicates and reordering ----

  // Frames of one stream: each numbered one carries the epoch of the ready frame.
  ghost predicate OneStream(s: State, frames: seq<Frame>) {
    forall p :: 0 <= p < |frames| && frames[p].number.Some? ==> frames[p].epoch == s.epoch
  }

  ghost predicate Increasing(numbers: seq<int>) {
    forall i, j :: 0 <= i < j < |numbers| ==> numbers[i] < numbers[j]
  }

  lemma {:induction false} SameEpoch(s: State, frames: seq<Frame>)
    requires OneStream(s, frames)
    ensures After(s, frames).epoch == s.epoch && After(s, frames).lastSeq >= s.lastSeq
  {
    if frames != [] {
      SameEpoch(s, frames[..|frames| - 1]);
    }
  }

  // No number is delivered twice or out of order.
  lemma {:induction false} DeliveredInOrder(s: State, frames: seq<Frame>)
    requires OneStream(s, frames)
    ensures Increasing(Accepted(s, frames))
    ensures forall i :: 0 <= i < |Accepted(s, frames)| ==>
      s.lastSeq < Accepted(s, frames)[i] <= After(s, frames).lastSeq
  {
    if frames != [] {
      var before := frames[..|frames| - 1];
      DeliveredInOrder(s, before);
      SameEpoch(s, before);
    }
  }

  // A resync verdict whose frame reaches number k.
  ghost predicate Warned(s: State, frames: seq<Frame>, p: nat, k: int) {
    && p < |frames| && frames[p].number.Some? && frames[p].number.value >= k
    && VerdictAt(s, frames, p).resync.Some?
  }

  // No silent gap: a number that was passed over without being delivered was announced by
  // a resync verdict, on a frame at or beyond it.
  lemma {:induction false} NoSilentGap(s: State, frames: seq<Frame>, k: int) returns (p: nat)
    requires OneStream(s, frames)
    requires s.lastSeq < k <= After(s, frames).lastSeq
    ensures k in Accepted(s, frames) || Warned(s, frames, p, k)
  {
    p := 0;
    if frames != [] {
      var n := |frames| - 1;
      var before := frames[..n];
      SameEpoch(s, before);
      if k <= After(s, before).lastSeq {
        p := NoSilentGap(s, before, k);
        if Warned(s, before, p, k) {
          PrefixSteps(s, frames, p, n);
        }
      } else {
        p := n;
        if !Warned(s, frames, n, k) {
          assert Accepted(s, frames)[|Accepted(s, before)|] == k;
        }
      }
    }
  }

  // One more frame delivers at most its own number, which is beyond the last one seen.
  lemma AcceptedMore(s: State, before: seq<Frame>, f: Frame, frames: seq<Frame>)
    requires frames == before + [f] && (f.number.Some? ==> f.epoch == After(s, before).epoch)
    ensures var last, more := After(s, before).lastSeq, Accepted(s, frames);
      && After(s, frames).lastSeq >= last
      && (more == Accepted(s, before) ||
          (f.number.Some? && f.number.value > last && more == Accepted(s, before) + [f.number.value]))
    ensures Judge(After(s, before), f).resync == Some(Gap) ==>
      f.number.Some? && f.number.value > After(s, before).lastSeq + 1 && After(s, frames).lastSeq == f.number.value
  {
    assert frames[..|before|] == before;
  }

  // A gap verdict is never a false alarm: the number it skips is not delivered before or after.
  lemma {:induction false} GapIsReal(s: State, frames: seq<Frame>, p: nat)
    requires OneStream(s, frames) && p < |frames| && VerdictAt(s, frames, p).resync == Some(Gap)
    ensures After(s, frames[..p]).lastSeq + 1 !in Accepted(s, frames)
    ensures After(s, frames).lastSeq > After(s, frames[..p]).lastSeq + 1
  {
    var n := |frames| - 1;
    var before := frames[..n];
    DeliveredInOrder(s, before);
    SameEpoch(s, before);
    assert frames == before + [frames[n]];
    AcceptedMore(s, before, frames[n], frames);
    hide Judge, After, Accepted;
    if p < n {
      PrefixSteps(s, frames, p, n);
      GapIsReal(s, before, p);
    }
  }

  // ---- When a stream stays free of resyncs ----

  // Frame p is old or at most one ahead, and asks for no resync unless it is old.
  ghost predicate OrderlyAt(s: State, frames: seq<Frame>, p: nat)
    requires p < |frames|
  {
    match frames[p].number
    case None => !frames[p].asksResync
    case Some(number) =>
      var last := After(s, frames[..p]).lastSeq;
      number <= last || (number == last + 1 && !frames[p].asksResync)
  }

  ghost predicate NoResync(s: State, frames: seq<Frame>) {
    forall p :: 0 <= p < |frames| ==> VerdictAt(s, frames, p).resync.None?
  }

  // No resync is called for exactly when every frame is orderly: duplicates and late
  // arrivals cost nothing, a skipped number always does.
  lemma OrderlyIffNoResync(s: State, frames: seq<Frame>)
    requires OneStream(s, frames)
    ensures (forall p :: 0 <= p < |frames| ==> OrderlyAt(s, frames, p)) <==> NoResync(s, frames)
  {
    forall p | 0 <= p < |frames|
      ensures OrderlyAt(s, frames, p) <==> VerdictAt(s, frames, p).resync.None?
    {
      SameEpoch(s, frames[..p]);
    }
  }

  lemma {:induction false} NoResyncFromStart(s: State, frames: seq<Frame>)
    requires NoResync(s, frames)
    ensures SinceResync(s, frames) == 0
  {
    if frames != [] {
      var n := |frames| - 1;
      forall p | 0 <= p < n
        ensures VerdictAt(s, frames[..n], p).resync.None?
      {
        PrefixSteps(s, frames, p, n);
        assert VerdictAt(s, frames, p).resync.None?;
      }
      NoResyncFromStart(s, frames[..n]);
    }
  }

  // While no resync verdict has been returned since ready, the numbers delivered are
  // exactly those after the ready frame's, up to the last one seen.
  lemma {:induction false} CleanStreamIsComplete(s: State, frames: seq<Frame>)
    requires NoResync(s, frames)
    ensures Accepted(s, frames) == UpTo(s.lastSeq, After(s, frames).lastSeq)
  {
    NoResyncFromStart(s, frames);
    NothingMissingSinceResync(s, frames);
    assert frames[..0] == [] && frames[0..] == frames;
  }
}
