/**
 * Health events: every registration of the GPUs is compared with what the last one saw, and each change is reported
 * once. Over any run of registrations the events are a complete and non-repeating log of the states.
 */
module Health {
  import opened DeviceCache
  import opened Sorting
  import opened Wrappers

  datatype State = Healthy | Unhealthy | Missing

  datatype GpuState = GpuState(state: State, index: nat, bdf: string)

  datatype Reason = AMDGPUUnhealthy | AMDGPUMissing | AMDGPURecovered

  /** An event; its type and message text follow from these. */
  datatype HealthEvent = HealthEvent(reason: Reason, index: nat, bdf: string, id: string)

  type States = map<string, GpuState>

  // ---------- one registration ----------

  function SeenState(d: DeviceInfo): GpuState {
    GpuState(if d.health then Healthy else Unhealthy, d.index, if d.pciBDF.Some? then d.pciBDF.value else "")
  }

  /** The registered GPUs; of a repeated id the last entry counts. */
  function Seen(current: seq<DeviceInfo>): States {
    if current == [] then map[]
    else Seen(current[..|current| - 1])[current[|current| - 1].id := SeenState(current[|current| - 1])]
  }

  /** What is remembered of id, given what was before and what is registered now. */
  function NextState(before: Option<GpuState>, now: Option<GpuState>): Option<GpuState> {
    if now.Some? then now
    else if before.Some? then Some(before.value.(state := Missing))
    else None
  }

  function EventFor(id: string, before: Option<GpuState>, now: Option<GpuState>): (e: Option<HealthEvent>)
    ensures e.Some? ==> e.value.id == id
  {
    match (before, now)
    case (Some(b), None) => if b.state == Missing then None else Some(HealthEvent(AMDGPUMissing, b.index, b.bdf, id))
    case (None, Some(n)) => if n.state == Unhealthy then Some(HealthEvent(AMDGPUUnhealthy, n.index, n.bdf, id)) else None
    case (Some(b), Some(n)) =>
      if n.state == b.state then None
      else if n.state == Unhealthy then Some(HealthEvent(AMDGPUUnhealthy, n.index, n.bdf, id))
      else if n.state == Healthy then Some(HealthEvent(AMDGPURecovered, n.index, n.bdf, id))
      else None
    case (None, None) => None
  }

  function Known(m: States, id: string): Option<GpuState> {
    if id in m then Some(m[id]) else None
  }

  function EventsOf(previous: States, seen: States, ids: seq<string>): seq<HealthEvent> {
    if ids == [] then []
    else
      var id := ids[|ids| - 1];
      var e := EventFor(id, Known(previous, id), Known(seen, id));
      EventsOf(previous, seen, ids[..|ids| - 1]) + if e.Some? then [e.value] else []
  }

  /** All ids of both tables, once, in string order. */
  ghost predicate IdsInOrder(previous: States, seen: States, ids: seq<string>) {
    && NoDuplicates(ids) && Ordered(ids, StringLess)
    && (forall id :: id in ids <==> id in previous || id in seen)
  }

  ghost predicate Transition(previous: States, current: seq<DeviceInfo>, events: seq<HealthEvent>, next: States) {
    && (forall id :: Known(next, id) == NextState(Known(previous, id), Known(Seen(current), id)))
    && (exists ids :: IdsInOrder(previous, Seen(current), ids) && events == EventsOf(previous, Seen(current), ids))
  }

  // ---------- what a registration says, in terms of its entries ----------

  /** Entry k is the one that counts for id: the last of that id. */
  ghost predicate LastEntry(current: seq<DeviceInfo>, id: string, k: nat) {
    k < |current| && current[k].id == id && forall j :: k < j < |current| ==> current[j].id != id
  }

  /** No entry is of id. */
  predicate NotRegistered(current: seq<DeviceInfo>, id: string) {
    forall j :: 0 <= j < |current| ==> current[j].id != id
  }

  /** index and bdf are those of the entry. */
  predicate Places(d: DeviceInfo, index: nat, bdf: string) {
    index == d.index && (d.pciBDF.Some? ==> bdf == d.pciBDF.value) && (d.pciBDF.None? ==> bdf == "")
  }

  /**
   * A registered id is healthy exactly if its entry's health flag says so, at that entry's place; an id seen before and
   * not registered any more is missing, at its old place; no other id is remembered.
   */
  ghost predicate Remembers(previous: Option<States>, current: seq<DeviceInfo>, next: States) {
    && (forall id, k: nat :: LastEntry(current, id, k) ==> id in next && Shows(next[id], current[k]))
    && (forall id :: NotRegistered(current, id) ==>
          && (id in next <==> previous.Some? && id in previous.value)
          && (id in next ==> next[id] == GpuState(Missing, previous.value[id].index, previous.value[id].bdf)))
  }

  /** The state an entry gives its GPU. */
  predicate Shows(s: GpuState, d: DeviceInfo) {
    s.state != Missing && (s.state == Healthy <==> d.health) && Places(d, s.index, s.bdf)
  }

  /** An event is true of the registration, names the place, and is news. */
  ghost predicate TrueNews(previous: States, current: seq<DeviceInfo>, e: HealthEvent) {
    match e.reason
    case AMDGPUUnhealthy =>
      && (e.id in previous ==> previous[e.id].state != Unhealthy)
      && exists k: nat :: LastEntry(current, e.id, k) && !current[k].health && Places(current[k], e.index, e.bdf)
    case AMDGPURecovered =>
      && e.id in previous && previous[e.id].state != Healthy
      && exists k: nat :: LastEntry(current, e.id, k) && current[k].health && Places(current[k], e.index, e.bdf)
    case AMDGPUMissing =>
      && NotRegistered(current, e.id)
      && e.id in previous && previous[e.id].state != Missing
      && e.index == previous[e.id].index && e.bdf == previous[e.id].bdf
  }

  lemma LastEntryFront(current: seq<DeviceInfo>, id: string, k: nat)
    requires current != []
    ensures var front, last := current[..|current| - 1], current[|current| - 1];
      LastEntry(current, id, k) <==> if last.id == id then k == |front| else LastEntry(front, id, k)
  {
    var front := current[..|current| - 1];
    assert forall j :: 0 <= j < |front| ==> front[j] == current[j];
  }

  lemma {:induction false} SeenExact(current: seq<DeviceInfo>, id: string, k: nat)
    requires LastEntry(current, id, k)
    ensures id in Seen(current) && Shows(Seen(current)[id], current[k])
  {
    LastEntryFront(current, id, k);
    hide LastEntry;
    if current[|current| - 1].id != id { SeenExact(current[..|current| - 1], id, k); }
  }

  lemma {:induction false} SeenOrNot(current: seq<DeviceInfo>, id: string) returns (k: nat)
    ensures NotRegistered(current, id) <==> id !in Seen(current)
    ensures id in Seen(current) ==> LastEntry(current, id, k)
  {
    k := 0;
    if current != [] {
      var front, last := current[..|current| - 1], current[|current| - 1];
      k := SeenOrNot(front, id);
      if last.id == id { k := |front|; }
      LastEntryFront(current, id, k);
      assert NotRegistered(current, id) <==> NotRegistered(front, id) && last.id != id;
    }
  }

  lemma StatesFollow(previous: Option<States>, current: seq<DeviceInfo>, next: States)
    requires previous.None? ==> next == Seen(current)
    requires previous.Some? ==> forall id :: Known(next, id) == NextState(Known(previous.value, id), Known(Seen(current), id))
    ensures Remembers(previous, current, next)
  {
    hide Seen, NotRegistered, Shows;
    forall id, k: nat | LastEntry(current, id, k) ensures id in next && Shows(next[id], current[k]) {
      SeenExact(current, id, k);
      if previous.Some? { assert Known(next, id) == NextState(Known(previous.value, id), Known(Seen(current), id)); }
    }
    forall id | NotRegistered(current, id)
      ensures id in next <==> previous.Some? && id in previous.value
      ensures id in next ==> next[id] == GpuState(Missing, previous.value[id].index, previous.value[id].bdf)
    {
      var k := SeenOrNot(current, id);
      if previous.Some? { assert Known(next, id) == NextState(Known(previous.value, id), Known(Seen(current), id)); }
    }
  }

  lemma EventIsTrue(previous: States, current: seq<DeviceInfo>, id: string)
    ensures var e := EventFor(id, Known(previous, id), Known(Seen(current), id)); e.Some? ==> TrueNews(previous, current, e.value)
  {
    hide Seen, LastEntry, NotRegistered, Places;
    var k := SeenOrNot(current, id);
    if id in Seen(current) { SeenExact(current, id, k); }
  }

  /** Events about some of ids, all true news, and in ascending order. */
  ghost predicate NewsAbout(previous: States, current: seq<DeviceInfo>, ids: seq<string>, events: seq<HealthEvent>) {
    && (forall i :: 0 <= i < |events| ==> TrueNews(previous, current, events[i]) && events[i].id in ids)
    && (forall i, j :: 0 <= i < j < |events| ==> StringLess(events[i].id, events[j].id))
  }

  lemma NewsAppend(previous: States, current: seq<DeviceInfo>, ids: seq<string>, events: seq<HealthEvent>, id: string, e: Option<HealthEvent>)
    requires NewsAbout(previous, current, ids, events) && Ordered(ids + [id], StringLess) && id !in ids
    requires e.Some? ==> e.value.id == id && TrueNews(previous, current, e.value)
    ensures NewsAbout(previous, current, ids + [id], events + if e.Some? then [e.value] else [])
  {
    hide StringLess, TrueNews;
    forall i | 0 <= i < |events| ensures StringLess(events[i].id, id) {
      var k :| 0 <= k < |ids| && ids[k] == events[i].id;
      var all := ids + [id];
      assert !StringLess(all[|ids|], all[k]);
      StringTotal(ids[k], id);
    }
  }

  /** Every event of the list is true news about one of ids, in their order. */
  lemma {:induction false} EventsFollow(previous: States, current: seq<DeviceInfo>, ids: seq<string>)
    requires NoDuplicates(ids) && Ordered(ids, StringLess)
    ensures NewsAbout(previous, current, ids, EventsOf(previous, Seen(current), ids))
  {
    hide Seen, EventFor, TrueNews, StringLess;
    if ids != [] {
      var front, last := ids[..|ids| - 1], ids[|ids| - 1];
      EventsFollow(previous, current, front);
      EventIsTrue(previous, current, last);
      assert ids == front + [last];
      NewsAppend(previous, current, front, EventsOf(previous, Seen(current), front), last,
        EventFor(last, Known(previous, last), Known(Seen(current), last)));
    }
  }

  /** The loop over the registered GPUs. */
  method CollectSeen(current: seq<DeviceInfo>) returns (next: States)
    ensures next == Seen(current)
  {
    next := map[];
    assert current[..0] == [];
    for i := 0 to |current|
      invariant next == Seen(current[..i])
    {
      assert current[..i + 1][..i] == current[..i];
      var d := current[i];
      var bdf := if d.pciBDF.Some? then d.pciBDF.value else "";
      var state := if d.health then Healthy else Unhealthy;
      next := next[d.id := GpuState(state, d.index, bdf)];
    }
    assert current[..|current|] == current;
  }

  /** The ids of both tables, each visited in an arbitrary order, then sorted. */
  method CollectIds(previous: States, next: States) returns (ids: seq<string>)
    ensures IdsInOrder(previous, next, ids)
  {
    var unsorted: seq<string> := [];
    var todo := previous.Keys;
    while todo != {}
      invariant todo <= previous.Keys && NoDuplicates(unsorted)
      invariant forall id :: id in unsorted <==> id in previous && id !in todo
      decreases todo
    {
      var id :| id in todo;
      unsorted, todo := unsorted + [id], todo - {id};
    }
    todo := next.Keys;
    while todo != {}
      invariant todo <= next.Keys && NoDuplicates(unsorted)
      invariant forall id :: id in unsorted <==> id in previous || (id in next && id !in todo)
      decreases todo
    {
      var id :| id in todo;
      if id !in previous { unsorted := unsorted + [id]; }
      todo := todo - {id};
    }
    StringOrder();
    ids := Sort(unsorted, StringLess);
    SameContents(unsorted, ids);
    NoDuplicatesPermute(unsorted, ids);
  }

  /** The ids in done have their new entry, the others what was seen of them. */
  ghost predicate Reported(previous: States, seen: States, next: States, done: seq<string>) {
    forall id :: Known(next, id) == if id in done then NextState(Known(previous, id), Known(seen, id)) else Known(seen, id)
  }

  lemma ReportedNext(previous: States, seen: States, before: States, next: States, done: seq<string>, id: string)
    requires Reported(previous, seen, before, done)
    requires Known(next, id) == NextState(Known(previous, id), Known(seen, id))
    requires forall other :: other != id ==> Known(next, other) == Known(before, other)
    ensures Reported(previous, seen, next, done + [id])
  {
    hide NextState;
  }

  /** One id in the loop over all of them. */
  method ReportOne(previous: States, next: States, id: string) returns (next': States, event: Option<HealthEvent>)
    ensures Known(next', id) == NextState(Known(previous, id), Known(next, id))
    ensures forall other :: other != id ==> Known(next', other) == Known(next, other)
    ensures (id in next ==> next[id].state != Missing) ==> event == EventFor(id, Known(previous, id), Known(next, id))
  {
    next', event := next, None;
    var was, is_ := id in previous, id in next;
    if !is_ && was && previous[id].state != Missing {
      var before := previous[id];
      next' := next[id := GpuState(Missing, before.index, before.bdf)];
      event := Some(HealthEvent(AMDGPUMissing, before.index, before.bdf, id));
    } else if !is_ && was {
      next' := next[id := previous[id]];
    } else if is_ && next[id].state == Unhealthy && (!was || previous[id].state != Unhealthy) {
      event := Some(HealthEvent(AMDGPUUnhealthy, next[id].index, next[id].bdf, id));
    } else if is_ && next[id].state == Healthy && was && previous[id].state != Healthy {
      event := Some(HealthEvent(AMDGPURecovered, next[id].index, next[id].bdf, id));
    }
  }

  lemma {:induction false} SeenNotMissing(current: seq<DeviceInfo>)
    ensures forall id :: id in Seen(current) ==> Seen(current)[id].state != Missing
  {
    if current != [] { SeenNotMissing(current[..|current| - 1]); }
  }

  lemma NotYet(previous: States, seen: States, next: States, ids: seq<string>, i: nat)
    requires IdsInOrder(previous, seen, ids) && i < |ids| && Reported(previous, seen, next, ids[..i])
    ensures Known(next, ids[i]) == Known(seen, ids[i]) && ids[..i + 1] == ids[..i] + [ids[i]]
  {
  }

  lemma EventsNext(previous: States, seen: States, ids: seq<string>, i: nat)
    requires i < |ids|
    ensures var e := EventFor(ids[i], Known(previous, ids[i]), Known(seen, ids[i]));
      EventsOf(previous, seen, ids[..i + 1]) == EventsOf(previous, seen, ids[..i]) + if e.Some? then [e.value] else []
  {
    assert ids[..i + 1][..i] == ids[..i];
  }

  /** The loop over all ids. */
  method ReportAll(previous: States, seen: States, ids: seq<string>) returns (events: seq<HealthEvent>, next: States)
    requires IdsInOrder(previous, seen, ids) && forall id :: id in seen ==> seen[id].state != Missing
    ensures events == EventsOf(previous, seen, ids) && Reported(previous, seen, next, ids)
  {
    events, next := [], seen;
    assert ids[..0] == [];
    hide NextState, EventFor, IdsInOrder, EventsOf, Reported;
    NothingReported(previous, seen);
    for i := 0 to |ids|
      invariant Reported(previous, seen, next, ids[..i])
      invariant events == EventsOf(previous, seen, ids[..i])
    {
      NotYet(previous, seen, next, ids, i);
      EventsNext(previous, seen, ids, i);
      ghost var before := next;
      var event;
      next, event := ReportOne(previous, next, ids[i]);
      ReportedNext(previous, seen, before, next, ids[..i], ids[i]);
      if event.Some? { events := events + [event.value]; }
    }
    assert ids[..|ids|] == ids;
  }

  lemma NothingReported(previous: States, seen: States)
    ensures Reported(previous, seen, seen, []) && EventsOf(previous, seen, []) == []
  {
  }

  /** The first call, without previous states, only records the baseline. */
  method HealthTransitions(previous: Option<States>, current: seq<DeviceInfo>) returns (events: seq<HealthEvent>, next: States)
    ensures previous.None? ==> events == [] && next == Seen(current)
    ensures previous.Some? ==> Transition(previous.value, current, events, next)
    ensures Remembers(previous, current, next)
    ensures forall e :: e in events ==> previous.Some? && TrueNews(previous.value, current, e)
    ensures forall i, j :: 0 <= i < j < |events| ==> StringLess(events[i].id, events[j].id)
  {
    hide NextState, EventFor, Seen, IdsInOrder, EventsOf, Reported, Remembers, TrueNews, StringLess;
    next := CollectSeen(current);
    if previous.None? {
      StatesFollow(previous, current, next);
      return [], next;
    }
    SeenNotMissing(current);
    ghost var seen := next;
    var ids := CollectIds(previous.value, next);
    events, next := ReportAll(previous.value, next, ids);
    AllReported(previous.value, seen, next, ids);
    StatesFollow(previous, current, next);
    SortedEventsFollow(previous.value, current, ids);
  }

  lemma SortedEventsFollow(previous: States, current: seq<DeviceInfo>, ids: seq<string>)
    requires IdsInOrder(previous, Seen(current), ids)
    ensures NewsAbout(previous, current, ids, EventsOf(previous, Seen(current), ids))
  {
    hide Seen, EventsOf, NewsAbout, NoDuplicates, Ordered;
    EventsFollow(previous, current, ids);
  }

  lemma AllReported(previous: States, seen: States, next: States, ids: seq<string>)
    requires IdsInOrder(previous, seen, ids) && Reported(previous, seen, next, ids)
    ensures forall id :: Known(next, id) == NextState(Known(previous, id), Known(seen, id))
  {
  }

  /** The part of the plugin that remembers what it last saw of each GPU. */
  class Reporter {
    var gpuStates: Option<States>

    constructor ()
      ensures gpuStates == None
    {
      gpuStates := None;
    }

    method ReportHealthChanges(devices: seq<DeviceInfo>) returns (events: seq<HealthEvent>)
      modifies this
      ensures gpuStates.Some?
      ensures old(gpuStates) == None ==> events == [] && gpuStates.value == Seen(devices)
      ensures old(gpuStates) != None ==> Transition(old(gpuStates).value, devices, events, gpuStates.value)
      ensures Remembers(old(gpuStates), devices, gpuStates.value)
      ensures forall e :: e in events ==> old(gpuStates).Some? && TrueNews(old(gpuStates).value, devices, e)
    {
      hide Transition, Seen, Remembers, TrueNews;
      var next;
      events, next := HealthTransitions(gpuStates, devices);
      gpuStates := Some(next);
    }
  }
}
