// The invalidation queue of src/ui/api/wsInvalidation.ts: bursts of tags are merged per
// key, and a flush drops those that only echo this tab's own messages.
module InvalidationQueue {
  import opened Options
  import opened MessageEvents
  import Panes = PaneDeferral

  datatype Tag = Tag(kind: string, id: string)

  // One queued call's tag; the guard is empty for an unconditional one.
  datatype Contribution = Contribution(tag: Tag, guard: string)

  datatype Queued = Queued(tag: Tag, unconditional: bool, guards: seq<string>)

  // ---- The queue: a Map in insertion order, one entry per tag ----

  function Insert(guards: seq<string>, guard: string): seq<string> {
    if guard in guards then guards else guards + [guard]
  }

  function Amend(e: Queued, guard: string): Queued {
    if guard == "" then e.(unconditional := true) else e.(guards := Insert(e.guards, guard))
  }

  function Add(entries: seq<Queued>, c: Contribution): seq<Queued> {
    if c.tag.id == "" then entries
    else if entries == [] then [Amend(Queued(c.tag, false, []), c.guard)]
    else if entries[0].tag == c.tag then [Amend(entries[0], c.guard)] + entries[1..]
    else [entries[0]] + Add(entries[1..], c)
  }

  function Collect(contributions: seq<Contribution>): seq<Queued> {
    if contributions == [] then []
    else
      var n := |contributions| - 1;
      Add(Collect(contributions[..n]), contributions[n])
  }

  // ---- What a flush keeps ----

  // What the clock says when a guard is looked up; that happens once for each guard.
  type Clock = string -> int

  // A guard keeps its tag unless it is a message that this tab sent.
  predicate Keeps(echoes: Echoes, clock: Clock, guard: string) {
    guard == "" || !FreshEcho(echoes, guard, clock(guard))
  }

  predicate Wanted(e: Queued, echoes: Echoes, clock: Clock) {
    e.unconditional || exists k :: 0 <= k < |e.guards| && Keeps(echoes, clock, e.guards[k])
  }

  function Kept(entries: seq<Queued>, echoes: Echoes, clock: Clock): seq<Tag> {
    if entries == [] then []
    else
      var n := |entries| - 1;
      if Wanted(entries[n], echoes, clock) then Kept(entries[..n], echoes, clock) + [entries[n].tag]
      else Kept(entries[..n], echoes, clock)
  }

  // The simple specification: some contribution to the tag is not an echo.
  ghost predicate Due(contributions: seq<Contribution>, echoes: Echoes, clock: Clock, tag: Tag) {
    tag.id != "" && exists c :: c in contributions && c.tag == tag && Keeps(echoes, clock, c.guard)
  }

  ghost predicate DistinctTags(entries: seq<Queued>) {
    forall i, j :: 0 <= i < j < |entries| ==> entries[i].tag != entries[j].tag
  }

  // A guard, or unconditionality, that an entry carries.
  predicate Carries(e: Queued, c: Contribution) {
    e.tag == c.tag && if c.guard == "" then e.unconditional else c.guard in e.guards
  }

  ghost predicate CarriedBy(entries: seq<Queued>, c: Contribution) {
    exists i :: 0 <= i < |entries| && Carries(entries[i], c)
  }

  lemma CarriedByCons(e: Queued, rest: seq<Queued>, c: Contribution)
    ensures CarriedBy([e] + rest, c) <==> Carries(e, c) || CarriedBy(rest, c)
  {
    hide Carries;
    var all := [e] + rest;
    assert all[0] == e && forall i :: 0 <= i < |rest| ==> all[i + 1] == rest[i];
    if CarriedBy(rest, c) {
      var i :| 0 <= i < |rest| && Carries(rest[i], c);
      assert Carries(all[i + 1], c);
    }
  }

  lemma AmendCarries(e: Queued, added: Contribution, c: Contribution)
    requires e.tag == added.tag
    ensures Carries(Amend(e, added.guard), c) <==> Carries(e, c) || c == added
  {}

  lemma NotCarried(c: Contribution)
    ensures !CarriedBy([], c)
  {}

  // Adding a contribution is what makes it carried, and changes nothing else.
  lemma {:induction false} AddCarries(entries: seq<Queued>, added: Contribution, c: Contribution)
    ensures CarriedBy(Add(entries, added), c) <==> CarriedBy(entries, c) || (c == added && c.tag.id != "")
  {
    hide Amend, CarriedBy;
    var blank := Queued(added.tag, false, []);
    AmendCarries(blank, added, c);
    CarriedByCons(Amend(blank, added.guard), [], c);
    assert [Amend(blank, added.guard)] + [] == [Amend(blank, added.guard)];
    NotCarried(c);
    assert !Carries(blank, c);
    if added.tag.id != "" && entries != [] {
      assert entries == [entries[0]] + entries[1..];
      CarriedByCons(entries[0], entries[1..], c);
      AmendCarries(if entries[0].tag == added.tag then entries[0] else blank, added, c);
      CarriedByCons(Amend(entries[0], added.guard), entries[1..], c);
      AddCarries(entries[1..], added, c);
      CarriedByCons(entries[0], Add(entries[1..], added), c);
    }
    hide Carries;
  }

  // An entry per tag, each for a tag with an id.
  ghost predicate Tidy(entries: seq<Queued>) {
    DistinctTags(entries) && forall i :: 0 <= i < |entries| ==> entries[i].tag.id != "" && "" !in entries[i].guards
  }

  ghost predicate HasTag(entries: seq<Queued>, tag: Tag) {
    exists i :: 0 <= i < |entries| && entries[i].tag == tag
  }

  lemma {:induction false} AddIsTidy(entries: seq<Queued>, c: Contribution, tag: Tag)
    requires Tidy(entries)
    ensures Tidy(Add(entries, c))
    ensures HasTag(Add(entries, c), tag) ==> HasTag(entries, tag) || c.tag == tag
  {
    if c.tag.id != "" && entries != [] && entries[0].tag != c.tag {
      var rest := entries[1..];
      AddIsTidy(rest, c, entries[0].tag);
      AddIsTidy(rest, c, tag);
      var more := Add(rest, c);
      assert Add(entries, c) == [entries[0]] + more;
      assert forall i :: 0 <= i < |rest| ==> rest[i] == entries[i + 1];
      hide Add;
    }
  }

  // The queue holds each contribution of the burst under its tag, and nothing else,
  // whatever their order.
  lemma {:induction false} CollectCarries(contributions: seq<Contribution>, c: Contribution)
    ensures Tidy(Collect(contributions))
    ensures CarriedBy(Collect(contributions), c) <==> c in contributions && c.tag.id != ""
  {
    if contributions != [] {
      var n := |contributions| - 1;
      CollectCarries(contributions[..n], c);
      AddIsTidy(Collect(contributions[..n]), contributions[n], c.tag);
      AddCarries(Collect(contributions[..n]), contributions[n], c);
      assert contributions == contributions[..n] + [contributions[n]];
    }
    hide Tidy, CarriedBy, Add;
  }

  // ---- A flush is its simple specification ----

  ghost predicate KeepsTag(entries: seq<Queued>, echoes: Echoes, clock: Clock, tag: Tag) {
    exists i :: 0 <= i < |entries| && entries[i].tag == tag && Wanted(entries[i], echoes, clock)
  }

  ghost predicate Distinct(tags: seq<Tag>) {
    forall i, j :: 0 <= i < j < |tags| ==> tags[i] != tags[j]
  }

  lemma {:induction false} KeptTags(entries: seq<Queued>, echoes: Echoes, clock: Clock, tag: Tag)
    ensures tag in Kept(entries, echoes, clock) <==> KeepsTag(entries, echoes, clock, tag)
  {
    hide Wanted;
    if entries != [] {
      var n := |entries| - 1;
      KeptTags(entries[..n], echoes, clock, tag);
      if KeepsTag(entries[..n], echoes, clock, tag) {
        var i :| 0 <= i < n && entries[..n][i].tag == tag && Wanted(entries[..n][i], echoes, clock);
        assert entries[i] == entries[..n][i];
      }
      if KeepsTag(entries, echoes, clock, tag) {
        var i :| 0 <= i < |entries| && entries[i].tag == tag && Wanted(entries[i], echoes, clock);
        assert i < n ==> entries[..n][i] == entries[i];
      }
    }
  }

  lemma {:induction false} KeptIsDistinct(entries: seq<Queued>, echoes: Echoes, clock: Clock)
    requires DistinctTags(entries)
    ensures Distinct(Kept(entries, echoes, clock))
  {
    hide Wanted;
    if entries != [] {
      var n := |entries| - 1;
      KeptIsDistinct(entries[..n], echoes, clock);
      KeptTags(entries[..n], echoes, clock, entries[n].tag);
    }
  }

  lemma WantedIffCarried(e: Queued, echoes: Echoes, clock: Clock)
    requires "" !in e.guards
    ensures Wanted(e, echoes, clock) <==>
      exists guard :: Carries(e, Contribution(e.tag, guard)) && Keeps(echoes, clock, guard)
  {
    if e.unconditional {
      assert Carries(e, Contribution(e.tag, "")) && Keeps(echoes, clock, "");
    } else if Wanted(e, echoes, clock) {
      var k :| 0 <= k < |e.guards| && Keeps(echoes, clock, e.guards[k]);
      assert Carries(e, Contribution(e.tag, e.guards[k]));
    }
  }

  // The tags kept are exactly those with an unconditional contribution or one whose guard
  // is no echo, each once; nothing depends on the order in which they were queued.
  lemma FlushIsItsSpecification(contributions: seq<Contribution>, echoes: Echoes, clock: Clock, tag: Tag)
    ensures tag in Kept(Collect(contributions), echoes, clock) <==> Due(contributions, echoes, clock, tag)
    ensures Distinct(Kept(Collect(contributions), echoes, clock))
  {
    var entries := Collect(contributions);
    CollectCarries(contributions, Contribution(tag, ""));
    KeptTags(entries, echoes, clock, tag);
    KeptIsDistinct(entries, echoes, clock);
    hide Collect, Kept, Keeps;
    if KeepsTag(entries, echoes, clock, tag) {
      var i :| 0 <= i < |entries| && entries[i].tag == tag && Wanted(entries[i], echoes, clock);
      WantedIffCarried(entries[i], echoes, clock);
      var guard :| Carries(entries[i], Contribution(tag, guard)) && Keeps(echoes, clock, guard);
      CollectCarries(contributions, Contribution(tag, guard));
      assert Contribution(tag, guard) in contributions;
    }
    if Due(contributions, echoes, clock, tag) {
      var c :| c in contributions && c.tag == tag && Keeps(echoes, clock, c.guard);
      CollectCarries(contributions, c);
      var i :| 0 <= i < |entries| && Carries(entries[i], c);
      WantedIffCarried(entries[i], echoes, clock);
      assert Carries(entries[i], Contribution(entries[i].tag, c.guard));
    }
  }

  lemma OrderIsIrrelevant(a: seq<Contribution>, b: seq<Contribution>, echoes: Echoes, clock: Clock, tag: Tag)
    requires forall c :: c in a <==> c in b
    ensures tag in Kept(Collect(a), echoes, clock) <==> tag in Kept(Collect(b), echoes, clock)
  {
    FlushIsItsSpecification(a, echoes, clock, tag);
    FlushIsItsSpecification(b, echoes, clock, tag);
  }

  // ---- What is dispatched, and what is deferred to a hidden pane ----

  predicate Hides(d: Panes.Deferral, tag: Tag) {
    Panes.Defers(d, tag.kind == "Chat", tag.id)
  }

  function Sent(d: Panes.Deferral, tags: seq<Tag>): seq<Tag> {
    if tags == [] then []
    else
      var n := |tags| - 1;
      if Hides(d, tags[n]) then Sent(d, tags[..n]) else Sent(d, tags[..n]) + [tags[n]]
  }

  function StaleIds(state: Option<Panes.Cache>, tag: Tag): Panes.Mark {
    if state.Some? then Some(Panes.CurrentRequestIds(state.value, tag.id)) else None
  }

  function DeferAll(d: Panes.Deferral, tags: seq<Tag>, state: Option<Panes.Cache>): (t: Panes.Deferral)
    ensures t.panes == d.panes
  {
    if tags == [] then d
    else
      var n := |tags| - 1;
      var before := DeferAll(d, tags[..n], state);
      if Hides(d, tags[n]) then Panes.Defer(before, tags[n].id, StaleIds(state, tags[n])) else before
  }

  lemma OnlyChats(d: Panes.Deferral, tag: Tag)
    ensures Hides(d, tag) ==> tag.kind == "Chat" && tag == Tag("Chat", tag.id)
  {}

  // A tag that is kept is dispatched, or else leaves a mark, never both: only the tags that
  // are not dispatched make marks, and all other marks stay as they were.
  lemma {:induction false} SentOrMarked(d: Panes.Deferral, tags: seq<Tag>, state: Option<Panes.Cache>, tag: Tag)
    ensures tag in Sent(d, tags) <==> tag in tags && !Hides(d, tag)
    ensures tag in tags && Hides(d, tag) ==> tag.id in DeferAll(d, tags, state).dirty
    ensures forall c :: c in DeferAll(d, tags, state).dirty ==>
      c in d.dirty || (Tag("Chat", c) in tags && Hides(d, Tag("Chat", c)))
    ensures forall c :: c in d.dirty && !(Tag("Chat", c) in tags && Hides(d, Tag("Chat", c))) ==>
      c in DeferAll(d, tags, state).dirty && DeferAll(d, tags, state).dirty[c] == d.dirty[c]
  {
    hide Panes.Defers, Panes.Marked;
    if tags != [] {
      var n := |tags| - 1;
      SentOrMarked(d, tags[..n], state, tag);
      assert tags == tags[..n] + [tags[n]];
      OnlyChats(d, tags[n]);
    }
  }

  lemma {:induction false} SentIsDistinct(d: Panes.Deferral, tags: seq<Tag>)
    requires Distinct(tags)
    ensures Distinct(Sent(d, tags)) && forall i :: 0 <= i < |Sent(d, tags)| ==> Sent(d, tags)[i] in tags
  {
    hide Hides;
    if tags != [] {
      var n := |tags| - 1;
      SentIsDistinct(d, tags[..n]);
      assert tags == tags[..n] + [tags[n]];
    }
  }

  // What one call contributes.
  function Calls(tags: seq<Tag>, echoGuard: string): seq<Contribution> {
    seq(|tags|, i requires 0 <= i < |tags| => Contribution(tags[i], echoGuard))
  }

  lemma CallsMore(tags: seq<Tag>, i: nat, echoGuard: string)
    requires i < |tags|
    ensures Calls(tags[..i + 1], echoGuard) == Calls(tags[..i], echoGuard) + [Contribution(tags[i], echoGuard)]
  {}

  lemma CollectMore(contributions: seq<Contribution>, c: Contribution)
    ensures Collect(contributions + [c]) == Add(Collect(contributions), c)
    ensures c.tag.id == "" ==> Add(Collect(contributions), c) == Collect(contributions)
  {
    assert (contributions + [c])[..|contributions|] == contributions;
  }

  // ---- The two filters of a flush ----

  // The verdicts remembered so far are those of the table as it stood at the start.
  ghost predicate Remembers(memo: map<string, bool>, echoes: Echoes, before: Echoes, clock: Clock) {
    && (forall id :: id in memo ==> memo[id] == FreshEcho(before, id, clock(id)))
    && echoes == before - memo.Keys
  }

  method FilterEchoes(entries: seq<Queued>, table: EchoTable, clock: Clock) returns (tags: seq<Tag>)
    requires Tidy(entries)
    modifies table
    ensures tags == Kept(entries, old(table.echoes), clock)
    ensures forall id :: id in table.echoes ==> id in old(table.echoes) && table.echoes[id] == old(table.echoes)[id]
  {
    tags := [];
    var memo: map<string, bool> := map[];
    for i := 0 to |entries|
      invariant tags == Kept(entries[..i], old(table.echoes), clock)
      invariant Remembers(memo, table.echoes, old(table.echoes), clock)
    {
      assert entries[..i + 1][..i] == entries[..i];
      var entry := entries[i];
      var wanted := entry.unconditional;
      var k := 0;
      while !wanted && k < |entry.guards|
        invariant 0 <= k <= |entry.guards|
        invariant wanted ==> Wanted(entry, old(table.echoes), clock)
        invariant !wanted ==> !entry.unconditional
        invariant !wanted ==> forall j :: 0 <= j < k ==> !Keeps(old(table.echoes), clock, entry.guards[j])
        invariant Remembers(memo, table.echoes, old(table.echoes), clock)
        decreases |entry.guards| - k, !wanted
      {
        var id := entry.guards[k];
        if id !in memo {
          var echo := table.ConsumeLocalMessageEcho(id, clock(id));
          memo := memo[id := echo];
        }
        if !memo[id] {
          wanted := true;
        }
        k := k + 1;
      }
      if wanted {
        tags := tags + [entry.tag];
      }
    }
    assert entries[..|entries|] == entries;
  }

  method SendTags(tags: seq<Tag>, panes: Panes.PaneDeferrals, state: Option<Panes.Cache>) returns (sent: seq<Tag>)
    modifies panes
    ensures sent == Sent(old(panes.Value()), tags)
    ensures panes.Value() == DeferAll(old(panes.Value()), tags, state)
  {
    hide Panes.Marked, Panes.Hidden;
    sent := [];
    for i := 0 to |tags|
      invariant sent == Sent(old(panes.Value()), tags[..i])
      invariant panes.Value() == DeferAll(old(panes.Value()), tags[..i], state)
    {
      assert tags[..i + 1][..i] == tags[..i];
      var deferred := panes.DeferIfHidden(tags[i].kind == "Chat", tags[i].id, state);
      if !deferred {
        sent := sent + [tags[i]];
      }
    }
    assert tags[..|tags|] == tags;
  }

  // ---- The module's variables and functions ----

  class Queue {
    var queuedTags: seq<Queued>
    var hasDispatch: bool
    var timer: bool
    ghost var contributions: seq<Contribution>

    // The queue merges what was contributed since the last flush, and a timer will flush it.
    ghost predicate Valid()
      reads this
    {
      queuedTags == Collect(contributions) && (queuedTags != [] ==> hasDispatch && timer)
    }

    constructor ()
      ensures Valid() && contributions == []
    {
      queuedTags, hasDispatch, timer, contributions := [], false, false, [];
    }

    method QueueInvalidation(tags: seq<Tag>, echoGuard: string)
      requires Valid()
      modifies this
      ensures Valid() && timer
      ensures contributions == old(contributions) + Calls(tags, echoGuard)
    {
      hide Collect, Add;
      for i := 0 to |tags|
        invariant queuedTags == Collect(contributions)
        invariant contributions == old(contributions) + Calls(tags[..i], echoGuard)
      {
        var c := Contribution(tags[i], echoGuard);
        CollectMore(contributions, c);
        CallsMore(tags, i, echoGuard);
        contributions := contributions + [c];
        assert contributions == old(contributions) + Calls(tags[..i + 1], echoGuard);
        if tags[i].id == "" {
          continue;
        }
        queuedTags := Add(queuedTags, c);
      }
      assert tags[..|tags|] == tags;
      hasDispatch := true;
      timer := true;
    }

    // Sends or defers exactly the tags that are due by their simple specification, each
    // once, and leaves the queue empty.
    method Flush(table: EchoTable, panes: Panes.PaneDeferrals, state: Option<Panes.Cache>, clock: Clock)
      returns (dispatched: seq<Tag>)
      requires Valid()
      modifies this, table, panes
      ensures Valid() && contributions == [] && !timer
      ensures var tags := Kept(Collect(old(contributions)), old(table.echoes), clock);
        && dispatched == Sent(old(panes.Value()), tags)
        && panes.Value() == DeferAll(old(panes.Value()), tags, state)
      ensures Distinct(dispatched)
      ensures forall tag :: tag in dispatched <==>
        Due(old(contributions), old(table.echoes), clock, tag) && !Hides(old(panes.Value()), tag)
      ensures forall id :: id in table.echoes ==> id in old(table.echoes) && table.echoes[id] == old(table.echoes)[id]
    {
      timer := false;
      var entries := queuedTags;
      queuedTags := [];
      ghost var contributed := contributions;
      contributions := [];
      forall tag
        ensures tag in Kept(entries, table.echoes, clock) <==> Due(contributed, table.echoes, clock, tag)
        ensures tag in Sent(panes.Value(), Kept(entries, table.echoes, clock)) <==>
                tag in Kept(entries, table.echoes, clock) && !Hides(panes.Value(), tag)
      {
        FlushIsItsSpecification(contributed, table.echoes, clock, tag);
        SentOrMarked(panes.Value(), Kept(entries, table.echoes, clock), state, tag);
      }
      FlushIsItsSpecification(contributed, table.echoes, clock, Tag("", ""));
      SentIsDistinct(panes.Value(), Kept(entries, table.echoes, clock));
      if !hasDispatch || |entries| == 0 {
        return [];
      }
      CollectCarries(contributed, Contribution(Tag("", ""), ""));
      var tags := FilterEchoes(entries, table, clock);
      dispatched := SendTags(tags, panes, state);
    }

    method Reset()
      modifies this
      ensures Valid() && contributions == [] && !timer
    {
      queuedTags, hasDispatch, timer, contributions := [], false, false, [];
    }
  }
}
