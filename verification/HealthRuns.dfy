/** Whole runs of registrations: what the event log says about the states, and what it never does. */
module HealthRuns {
  import opened DeviceCache
  import opened Health
  import opened Sorting
  import opened Wrappers

  datatype Registration = Registration(devices: seq<DeviceInfo>, events: seq<HealthEvent>, states: States)

  function Current(baseline: States, run: seq<Registration>): States {
    if run == [] then baseline else run[|run| - 1].states
  }

  /** Registrations after the baseline, each going on from the states of the one before. */
  ghost predicate IsRun(baseline: States, run: seq<Registration>) {
    run != [] ==>
      var front, last := run[..|run| - 1], run[|run| - 1];
      IsRun(baseline, front) && Transition(Current(baseline, front), last.devices, last.events, last.states)
  }

  /** All events of a run, in order. */
  function Log(run: seq<Registration>): seq<HealthEvent> {
    if run == [] then [] else Log(run[..|run| - 1]) + run[|run| - 1].events
  }

  function About(events: seq<HealthEvent>, id: string): (r: seq<HealthEvent>)
    ensures forall k :: 0 <= k < |r| ==> r[k].id == id
  {
    if events == [] then []
    else About(events[..|events| - 1], id) + (if events[|events| - 1].id == id then [events[|events| - 1]] else [])
  }

  /** What a reader of the events takes a GPU to be; one never mentioned is healthy. */
  function StateOf(s: Option<GpuState>): State {
    if s.Some? then s.value.state else Healthy
  }

  function Announced(reason: Reason): State {
    match reason
    case AMDGPUUnhealthy => Unhealthy
    case AMDGPUMissing => Missing
    case AMDGPURecovered => Healthy
  }

  /** The state the last event announces, or the one before all events. */
  function Replay(start: State, events: seq<HealthEvent>): State {
    if events == [] then start else Announced(events[|events| - 1].reason)
  }

  // ---------- one registration ----------

  lemma AboutAppend(events: seq<HealthEvent>, e: HealthEvent, id: string)
    ensures About(events + [e], id) == About(events, id) + if e.id == id then [e] else []
  {
    assert (events + [e])[..|events|] == events;
  }

  lemma {:induction false} AboutConcat(a: seq<HealthEvent>, b: seq<HealthEvent>, id: string)
    ensures About(a + b, id) == About(a, id) + About(b, id)
  {
    if b == [] {
      assert a + b == a;
    } else {
      var front, last := b[..|b| - 1], b[|b| - 1];
      AboutConcat(a, front, id);
      assert a + b == (a + front) + [last];
      AboutAppend(a + front, last, id);
    }
  }

  function AsList(e: Option<HealthEvent>): seq<HealthEvent> {
    if e.Some? then [e.value] else []
  }

  lemma DistinctFront(ids: seq<string>, id: string)
    requires NoDuplicates(ids) && ids != []
    ensures NoDuplicates(ids[..|ids| - 1]) && ids[|ids| - 1] !in ids[..|ids| - 1]
    ensures id in ids <==> id in ids[..|ids| - 1] || id == ids[|ids| - 1]
  {
    assert ids == ids[..|ids| - 1] + [ids[|ids| - 1]];
  }

  lemma AboutLast(previous: States, seen: States, ids: seq<string>, id: string)
    requires ids != []
    ensures var front, last := ids[..|ids| - 1], ids[|ids| - 1];
      About(EventsOf(previous, seen, ids), id) == About(EventsOf(previous, seen, front), id)
        + if last == id then AsList(EventFor(id, Known(previous, id), Known(seen, id))) else []
  {
    hide EventFor, Known;
    var front, last := ids[..|ids| - 1], ids[|ids| - 1];
    AboutConcat(EventsOf(previous, seen, front), AsList(EventFor(last, Known(previous, last), Known(seen, last))), id);
  }

  lemma {:induction false} EventsOfAbout(previous: States, seen: States, ids: seq<string>, id: string)
    requires NoDuplicates(ids)
    ensures About(EventsOf(previous, seen, ids), id)
      == if id in ids then AsList(EventFor(id, Known(previous, id), Known(seen, id))) else []
  {
    hide NoDuplicates, EventFor, Known;
    if ids != [] {
      DistinctFront(ids, id);
      EventsOfAbout(previous, seen, ids[..|ids| - 1], id);
      AboutLast(previous, seen, ids, id);
      hide EventsOf, About;
    }
  }

  lemma EventMeansChange(id: string, before: Option<GpuState>, now: Option<GpuState>)
    requires now.Some? ==> now.value.state != Missing
    ensures var e, after := EventFor(id, before, now), StateOf(NextState(before, now));
      if StateOf(before) == after then e.None? else e.Some? && Announced(e.value.reason) == after
  {
  }

  lemma EventsAbout(previous: States, current: seq<DeviceInfo>, events: seq<HealthEvent>, next: States, id: string)
    requires Transition(previous, current, events, next)
    ensures About(events, id) == AsList(EventFor(id, Known(previous, id), Known(Seen(current), id)))
  {
    hide About, EventsOf, Seen, Ordered, NoDuplicates, NextState;
    var ids :| IdsInOrder(previous, Seen(current), ids) && events == EventsOf(previous, Seen(current), ids);
    EventsOfAbout(previous, Seen(current), ids, id);
  }

  /** A registration has at most one event about an id: one exactly if its state changes, announcing the new state. */
  lemma OneEventPerChange(previous: States, current: seq<DeviceInfo>, events: seq<HealthEvent>, next: States, id: string)
    requires Transition(previous, current, events, next)
    ensures var before, after := StateOf(Known(previous, id)), StateOf(Known(next, id));
      if before == after then About(events, id) == []
      else |About(events, id)| == 1 && Announced(About(events, id)[0].reason) == after
  {
    hide About, EventsOf, Seen, EventFor, NextState, IdsInOrder;
    EventsAbout(previous, current, events, next, id);
    SeenNotMissing(current);
    EventMeansChange(id, Known(previous, id), Known(Seen(current), id));
    assert Known(next, id) == NextState(Known(previous, id), Known(Seen(current), id));
  }

  // ---------- whole runs ----------

  /** A GPU once seen is remembered for the rest of the run, registered or not. */
  lemma {:induction false} NeverForgotten(baseline: States, run: seq<Registration>, i: nat, id: string)
    requires IsRun(baseline, run) && i <= |run| && id in Current(baseline, run[..i])
    ensures id in Current(baseline, run)
  {
    if i < |run| {
      var front, last := run[..|run| - 1], run[|run| - 1];
      assert front[..i] == run[..i];
      NeverForgotten(baseline, front, i, id);
      assert Known(last.states, id) == NextState(Known(Current(baseline, front), id), Known(Seen(last.devices), id));
    } else {
      assert run[..i] == run;
    }
  }

  /** Replaying the log over the baseline gives the current state of every id. */
  lemma {:induction false} ReplayIsCurrent(baseline: States, run: seq<Registration>, id: string)
    requires IsRun(baseline, run)
    ensures Replay(StateOf(Known(baseline, id)), About(Log(run), id)) == StateOf(Known(Current(baseline, run), id))
  {
    if run != [] {
      var front, last := run[..|run| - 1], run[|run| - 1];
      ReplayIsCurrent(baseline, front, id);
      OneEventPerChange(Current(baseline, front), last.devices, last.events, last.states, id);
      AboutConcat(Log(front), last.events, id);
      hide About, Transition;
    }
  }

  /** Consecutive events about an id never carry the same reason. */
  lemma {:induction false} ReasonsAlternate(baseline: States, run: seq<Registration>, id: string, k: nat)
    requires IsRun(baseline, run) && k + 1 < |About(Log(run), id)|
    ensures About(Log(run), id)[k].reason != About(Log(run), id)[k + 1].reason
  {
    hide About, Transition;
    LogNotEmpty(run, id);
    var front, last := run[..|run| - 1], run[|run| - 1];
    var before := About(Log(front), id);
    AboutConcat(Log(front), last.events, id);
    OneEventPerChange(Current(baseline, front), last.devices, last.events, last.states, id);
    ReplayIsCurrent(baseline, front, id);
    if k + 1 < |before| {
      ReasonsAlternate(baseline, front, id, k);
    }
  }

  lemma LogNotEmpty(run: seq<Registration>, id: string)
    requires About(Log(run), id) != []
    ensures run != []
  {
  }

  /** The first event about an id differs from what the baseline said of it. */
  lemma {:induction false} FirstEventIsNews(baseline: States, run: seq<Registration>, id: string)
    requires IsRun(baseline, run) && About(Log(run), id) != []
    ensures Announced(About(Log(run), id)[0].reason) != StateOf(Known(baseline, id))
  {
    hide About, Transition;
    LogNotEmpty(run, id);
    var front, last := run[..|run| - 1], run[|run| - 1];
    AboutConcat(Log(front), last.events, id);
    if About(Log(front), id) != [] {
      FirstEventIsNews(baseline, front, id);
    } else {
      OneEventPerChange(Current(baseline, front), last.devices, last.events, last.states, id);
      ReplayIsCurrent(baseline, front, id);
    }
  }
}
