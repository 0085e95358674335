/**
 * The timing conditions of the protocol are needed: from an empty node, one action that breaks one of them lets two live
 * Pods end up with the same CUs, whatever slice they ask for, although every other action is on time and every commit passed
 * its owner check.
 */
module LockTiming {
  import opened AllocateCall
  import opened CallSafety
  import opened CommitProtocol
  import opened CommitSafety
  import opened CuAllocation
  import opened DeviceAnnotation
  import opened DeviceCache
  import opened NodeLock
  import opened Occupancy
  import opened Wrappers

  /** What a Pod without a share gets on an empty node. */
  function FirstServing(hw: Hardware, devreq: Slot): Option<(seq<Grant>, map<string, string>)> {
    Process(hw.cache, hw.unitOf, map[], map[], devreq)
  }

  /** On an empty node the request gets CUs of its own for its i-th device, without taking it whole. */
  predicate AsksForSlice(hw: Hardware, devreq: Slot, i: nat) {
    FirstServing(hw, devreq).Some? && IsSlice(hw, devreq, FirstServing(hw, devreq).value.0, i)
  }

  /** The list such a request leaves. */
  function SliceList(hw: Hardware, devreq: Slot, i: nat): map<string, string>
    requires AsksForSlice(hw, devreq, i)
  {
    FirstServing(hw, devreq).value.1
  }

  lemma SliceListFacts(hw: Hardware, devreq: Slot, i: nat)
    requires NamedDevices(hw) && AsksForSlice(hw, devreq, i)
    ensures var list := SliceList(hw, devreq, i);
      && Decodable(hw.cache, list) && Sliced(hw.cache, devreq)
      && exists uuid :: At(ListCus(hw.cache, list), uuid) != {}
  {
    hide Process, EntryCus, IsWholeGPU, Sliced;
    ProcessKeeps(hw.cache, hw.unitOf, map[], map[], devreq);
    SliceIsPersisted(hw.cache, hw.unitOf, map[], map[], devreq, i);
    var (grants, list) := FirstServing(hw, devreq).value;
    GrantedContains(grants, i);
    assert At(ListCus(hw.cache, list), grants[i].uuid) != {};
  }

  /** Two live Pods with one such list are not isolated. */
  lemma SameListMeets(hw: Hardware, devreq: Slot, i: nat, pods: map<PodName, Pod>, p: PodName, q: PodName)
    requires NamedDevices(hw) && AsksForSlice(hw, devreq, i)
    requires p != q && p in pods && q in pods && !pods[p].terminated && !pods[q].terminated
    requires pods[p].annotation == pods[q].annotation == Entries(SliceList(hw, devreq, i))
    ensures !Isolated(hw, pods)
  {
    hide Process, EntryCus, ListCus, SliceList, AsksForSlice, Sliced;
    SliceListFacts(hw, devreq, i);
    var uuid :| At(ListCus(hw.cache, SliceList(hw, devreq, i)), uuid) != {};
    assert Held(hw, pods[p]) == Held(hw, pods[q]) == ListCus(hw.cache, SliceList(hw, devreq, i));
    assert !(At(Held(hw, pods[p]), uuid) !! At(Held(hw, pods[q]), uuid));
  }

  // ---------- building runs ----------

  /** run leads to s, and breaches are its badly timed actions. */
  ghost predicate Reaches(hw: Hardware, run: seq<Action>, s: State, breaches: seq<Action>) {
    Feasible(hw, run) && StateAfter(hw, run) == s && Breaches(hw, run) == breaches
  }

  lemma Extend(hw: Hardware, run: seq<Action>, s: State, breaches: seq<Action>, a: Action)
    requires Reaches(hw, run, s, breaches) && Possible(s, a)
    ensures Timely(s, a) ==> Reaches(hw, run + [a], Next(hw, s, a), breaches)
    ensures !Timely(s, a) ==> Reaches(hw, run + [a], Next(hw, s, a), breaches + [a])
  {
    hide Possible, Next, Timely;
    assert (run + [a])[..|run|] == run;
  }

  /** Nobody alive holds anything. */
  predicate Idle(s: State) {
    forall p :: p in s.pods ==> s.pods[p].terminated || s.pods[p].annotation.Blank?
  }

  lemma {:induction false} UnionOfNothing(allocs: seq<CuMap>)
    requires forall i :: 0 <= i < |allocs| ==> allocs[i] == map[]
    ensures Union(allocs) == map[] && PairwiseDisjoint(allocs)
  {
    if allocs != [] { UnionOfNothing(allocs[..|allocs| - 1]); }
  }

  lemma IdleSnapshot(hw: Hardware, s: State, listing: seq<PodName>)
    requires Idle(s) && ListsPods(s, listing)
    ensures RebuildSucceeds(hw, Records(s, listing)) && Union(AllCus(hw.cache, Records(s, listing))) == map[]
  {
    hide Decodable, ListCus, Union, PairwiseDisjoint;
    var records := Records(s, listing);
    forall k | 0 <= k < |records| ensures PodCus(hw.cache, records[k]) == Some(map[]) {
      assert listing[k] in listing;
    }
    UnionOfNothing(AllCus(hw.cache, records));
  }

  /** p's call as it stands before its commit. */
  function BeforeCommit(hw: Hardware, devreq: Slot, i: nat): Call
    requires AsksForSlice(hw, devreq, i)
  {
    Call(Blank, devreq, FirstServing(hw, devreq).value.0, ToPersist(SliceList(hw, devreq, i)))
  }

  lemma ServingBeforeCommit(hw: Hardware, devreq: Slot, i: nat)
    requires NamedDevices(hw) && AsksForSlice(hw, devreq, i)
    ensures Serving(hw, Call(Blank, [], [], Snapshotted(map[])), devreq) == BeforeCommit(hw, devreq, i)
  {
    hide Process, Sliced, IsWholeGPU, Decodable;
    SliceListFacts(hw, devreq, i);
    assert SliceList(hw, devreq, i) != map[] by { assert Decodable(hw.cache, SliceList(hw, devreq, i)); }
  }

  // ---------- pieces of a run ----------

  /** p owns the lock and its call is before its commit. */
  function Prepared(hw: Hardware, s: State, p: PodName, devreq: Slot, i: nat): State
    requires AsksForSlice(hw, devreq, i)
  {
    s.(lock := Some(p), calls := s.calls[p := BeforeCommit(hw, devreq, i)])
  }

  /** The scheduler locks the node for p, and p's call takes its CUs on a node where nobody alive holds any. */
  lemma Prepare(hw: Hardware, run: seq<Action>, s: State, breaches: seq<Action>, p: PodName, listing: seq<PodName>, devreq: Slot, i: nat)
    returns (run': seq<Action>)
    requires NamedDevices(hw) && AsksForSlice(hw, devreq, i)
    requires Reaches(hw, run, s, breaches) && s.lock.None? && p !in s.calls
    requires p in s.pods && s.pods[p].annotation.Blank? && Idle(s) && ListsPods(s, listing)
    ensures Reaches(hw, run', Prepared(hw, s, p, devreq, i), breaches)
  {
    hide Reaches, AsksForSlice, BeforeCommit, Serving, RebuildSucceeds, Records, AllCus, Union;
    var locked := s.(lock := Some(p));
    Extend(hw, run, s, breaches, Lock(p));
    var started := locked.(calls := s.calls[p := Call(Blank, [], [], ListRead)]);
    Extend(hw, run + [Lock(p)], locked, breaches, StartCall(p));
    run' := PrepareCall(hw, run + [Lock(p)] + [StartCall(p)], started, breaches, p, listing, devreq, i);
    assert Prepared(hw, s, p, devreq, i) == started.(calls := started.calls[p := BeforeCommit(hw, devreq, i)]);
  }

  lemma PrepareCall(hw: Hardware, run: seq<Action>, s: State, breaches: seq<Action>, p: PodName, listing: seq<PodName>, devreq: Slot, i: nat)
    returns (run': seq<Action>)
    requires NamedDevices(hw) && AsksForSlice(hw, devreq, i)
    requires Reaches(hw, run, s, breaches) && p in s.calls && s.calls[p] == Call(Blank, [], [], ListRead)
    requires Idle(s) && ListsPods(s, listing)
    ensures Reaches(hw, run', s.(calls := s.calls[p := BeforeCommit(hw, devreq, i)]), breaches)
  {
    hide Reaches, AsksForSlice, BeforeCommit, Serving, Idle, ListsPods, RebuildSucceeds, Records, AllCus, Union;
    IdleSnapshot(hw, s, listing);
    var taken := s.(calls := s.calls[p := Call(Blank, [], [], Snapshotted(map[]))]);
    var snap, take := TakeSnapshot(p, listing), TakeDevices(p, devreq);
    Extend(hw, run, s, breaches, snap);
    assert Next(hw, s, snap) == taken;
    Extend(hw, run + [snap], taken, breaches, take);
    ServingBeforeCommit(hw, devreq, i);
    assert Next(hw, taken, take) == s.(calls := s.calls[p := BeforeCommit(hw, devreq, i)]);
    run' := run + [snap] + [take];
  }

  /** p's annotation is list and its call has succeeded. */
  function Persisted(s: State, p: PodName, list: map<string, string>): State
    requires p in s.pods && p in s.calls
  {
    s.(pods := s.pods[p := s.pods[p].(annotation := Entries(list))],
       calls := s.calls[p := s.calls[p].(stage := Succeeded(Some(list)))])
  }

  function Checked(s: State, p: PodName): State
    requires p in s.calls && s.calls[p].stage.ToPersist?
  {
    s.(calls := s.calls[p := s.calls[p].(stage := LockChecked(s.calls[p].stage.list))])
  }

  lemma Check(hw: Hardware, run: seq<Action>, s: State, breaches: seq<Action>, p: PodName)
    requires Reaches(hw, run, s, breaches) && s.lock == Some(p) && p in s.calls && s.calls[p].stage.ToPersist?
    ensures Reaches(hw, run + [CheckLock(p)], Checked(s, p), breaches)
  {
    hide Reaches;
    Extend(hw, run, s, breaches, CheckLock(p));
    assert Next(hw, s, CheckLock(p)) == Checked(s, p);
  }

  lemma LoseLock(hw: Hardware, run: seq<Action>, s: State, breaches: seq<Action>)
    requires Reaches(hw, run, s, breaches) && s.lock.Some?
    ensures Reaches(hw, run + [Expire], s.(lock := None), if Timely(s, Expire) then breaches else breaches + [Expire])
  {
    hide Reaches;
    Extend(hw, run, s, breaches, Expire);
    assert Next(hw, s, Expire) == s.(lock := None);
  }

  /** The owner check and a patch that goes well. */
  lemma Persist(hw: Hardware, run: seq<Action>, s: State, breaches: seq<Action>, p: PodName)
    returns (run': seq<Action>)
    requires Reaches(hw, run, s, breaches) && s.lock == Some(p)
    requires p in s.pods && p in s.calls && s.calls[p].stage.ToPersist?
    ensures Reaches(hw, run', Persisted(s, p, s.calls[p].stage.list), breaches)
  {
    hide Reaches;
    Check(hw, run, s, breaches, p);
    run' := PersistChecked(hw, run + [CheckLock(p)], Checked(s, p), breaches, p);
    assert Persisted(Checked(s, p), p, s.calls[p].stage.list) == Persisted(s, p, s.calls[p].stage.list);
  }

  lemma PersistChecked(hw: Hardware, run: seq<Action>, s: State, breaches: seq<Action>, p: PodName)
    returns (run': seq<Action>)
    requires Reaches(hw, run, s, breaches) && p in s.pods && p in s.calls && s.calls[p].stage.LockChecked?
    ensures Reaches(hw, run', Persisted(s, p, s.calls[p].stage.list), breaches)
  {
    hide Reaches;
    var patch := Patch(p, true, false);
    Extend(hw, run, s, breaches, patch);
    assert Next(hw, s, patch) == Persisted(s, p, s.calls[p].stage.list);
    run' := run + [patch];
  }

  /** The call of the lock's owner ends and releases the lock. */
  lemma End(hw: Hardware, run: seq<Action>, s: State, breaches: seq<Action>, p: PodName)
    returns (run': seq<Action>)
    requires Reaches(hw, run, s, breaches) && s.lock == Some(p) && p in s.pods && p in s.calls && s.calls[p].stage.Succeeded?
    ensures Reaches(hw, run', s.(lock := None, calls := s.calls - {p}, pods := s.pods[p := s.pods[p].(phase := BindSuccess)]), breaches)
  {
    hide Reaches;
    var finish := Finish(p, true, true, true);
    Extend(hw, run, s, breaches, finish);
    run' := run + [finish];
  }

  const FRESH := Pod(false, Unbound, Blank)

  /** Two Pods arrive on an empty node. */
  lemma TwoPods(hw: Hardware, p: PodName, q: PodName) returns (run: seq<Action>)
    requires p != q
    ensures Reaches(hw, run, Two(p, q), [])
  {
    assert Reaches(hw, [], INITIAL, []);
    hide Reaches;
    Extend(hw, [], INITIAL, [], Arrive(p));
    var one := State(map[p := FRESH], None, map[]);
    assert Next(hw, INITIAL, Arrive(p)) == one;
    Extend(hw, [] + [Arrive(p)], one, [], Arrive(q));
    assert Next(hw, one, Arrive(q)) == Two(p, q);
    run := [] + [Arrive(p)] + [Arrive(q)];
  }

  // ---------- the three breaches ----------

  function Two(p: PodName, q: PodName): State {
    State(map[p := FRESH, q := FRESH], None, map[])
  }

  lemma TwoFacts(p: PodName, q: PodName)
    requires p != q
    ensures Idle(Two(p, q)) && ListsPods(Two(p, q), [p, q]) && Two(p, q).lock.None? && Two(p, q).calls == map[]
    ensures p in Two(p, q).pods && q in Two(p, q).pods && Two(p, q).pods[p] == Two(p, q).pods[q] == FRESH
  {
  }

  /** The lock is lost between p's check and p's patch, and q commits in between. */
  lemma ExpiryBreaks(hw: Hardware, p: PodName, q: PodName, devreq: Slot, i: nat) returns (run: seq<Action>)
    requires NamedDevices(hw) && p != q && AsksForSlice(hw, devreq, i)
    ensures Feasible(hw, run) && Breaches(hw, run) == [Expire]
    ensures !Isolated(hw, StateAfter(hw, run).pods)
  {
    hide Reaches, AsksForSlice, Isolated, Next, SliceList, Feasible, StateAfter, Breaches, Two, Idle, ListsPods;
    TwoFacts(p, q);
    run := TwoPods(hw, p, q);
    var s0 := Two(p, q);
    run := Prepare(hw, run, s0, [], p, [p, q], devreq, i);
    var s1 := Prepared(hw, s0, p, devreq, i);
    Check(hw, run, s1, [], p);
    var s2 := Checked(s1, p);
    LoseLock(hw, run + [CheckLock(p)], s2, []);
    var s3 := s2.(lock := None);
    SamePods(s0, s3, [p, q]);
    run := Prepare(hw, run + [CheckLock(p)] + [Expire], s3, [] + [Expire], q, [p, q], devreq, i);
    var s4 := Prepared(hw, s3, q, devreq, i);
    run := Persist(hw, run, s4, [] + [Expire], q);
    var s5 := Persisted(s4, q, s4.calls[q].stage.list);
    run := PersistChecked(hw, run, s5, [] + [Expire], p);
    Broken(hw, run, Persisted(s5, p, s5.calls[p].stage.list), [] + [Expire], p, q, devreq, i);
  }

  lemma SamePods(s: State, s': State, listing: seq<PodName>)
    requires s'.pods == s.pods
    ensures Idle(s') == Idle(s) && ListsPods(s', listing) == ListsPods(s, listing)
  {
  }

  lemma Broken(hw: Hardware, run: seq<Action>, s: State, breaches: seq<Action>, p: PodName, q: PodName, devreq: Slot, i: nat)
    requires NamedDevices(hw) && AsksForSlice(hw, devreq, i) && Reaches(hw, run, s, breaches)
    requires p != q && p in s.pods && q in s.pods && !s.pods[p].terminated && !s.pods[q].terminated
    requires s.pods[p].annotation == s.pods[q].annotation == Entries(SliceList(hw, devreq, i))
    ensures Feasible(hw, run) && Breaches(hw, run) == breaches && !Isolated(hw, StateAfter(hw, run).pods)
  {
    hide Feasible, StateAfter, Breaches, Isolated, AsksForSlice, SliceList;
    SameListMeets(hw, devreq, i, s.pods, p, q);
  }

  /** The lock is lost during p's call, q commits, and the lock is granted to p again before p's check. */
  lemma SecondLockBreaks(hw: Hardware, p: PodName, q: PodName, devreq: Slot, i: nat) returns (run: seq<Action>)
    requires NamedDevices(hw) && p != q && AsksForSlice(hw, devreq, i)
    ensures Feasible(hw, run) && Breaches(hw, run) == [Lock(p)]
    ensures !Isolated(hw, StateAfter(hw, run).pods)
  {
    hide Reaches, AsksForSlice, Isolated, Next, SliceList, Feasible, StateAfter, Breaches, Two, Idle, ListsPods;
    TwoFacts(p, q);
    run := TwoPods(hw, p, q);
    var s0 := Two(p, q);
    run := Prepare(hw, run, s0, [], p, [p, q], devreq, i);
    var s1 := Prepared(hw, s0, p, devreq, i);
    LoseLock(hw, run, s1, []);
    var s2 := s1.(lock := None);
    SamePods(s0, s2, [p, q]);
    run := Prepare(hw, run + [Expire], s2, [], q, [p, q], devreq, i);
    var s3 := Prepared(hw, s2, q, devreq, i);
    run := Persist(hw, run, s3, [], q);
    var s4 := Persisted(s3, q, s3.calls[q].stage.list);
    run := End(hw, run, s4, [], q);
    var s5 := s4.(lock := None, calls := s4.calls - {q}, pods := s4.pods[q := s4.pods[q].(phase := BindSuccess)]);
    TakeLock(hw, run, s5, [], p);
    var s6 := s5.(lock := Some(p));
    run := Persist(hw, run + [Lock(p)], s6, [] + [Lock(p)], p);
    Broken(hw, run, Persisted(s6, p, s6.calls[p].stage.list), [] + [Lock(p)], p, q, devreq, i);
  }

  lemma TakeLock(hw: Hardware, run: seq<Action>, s: State, breaches: seq<Action>, p: PodName)
    requires Reaches(hw, run, s, breaches) && s.lock.None?
    ensures Reaches(hw, run + [Lock(p)], s.(lock := Some(p)), if p in s.calls then breaches + [Lock(p)] else breaches)
  {
    hide Reaches;
    Extend(hw, run, s, breaches, Lock(p));
    assert Next(hw, s, Lock(p)) == s.(lock := Some(p));
  }

  /** A memory-only slice: it shares every CU of a registered device. */
  predicate SharesOnly(hw: Hardware, d: ContainerDevice) {
    TotalCUs(hw.cache, d.uuid).Some? && d.usedcores == 0 && !IsWholeGPU(hw.cache, [d])
  }

  /** A call for a memory-only slice persists the share its Pod has. */
  lemma SharedServing(hw: Hardware, view: CuMap, list: map<string, string>, d: ContainerDevice)
    requires SharesOnly(hw, d) && list != map[]
    ensures Serving(hw, Call(Entries(list), [], [], Snapshotted(view)), [d])
      == Call(Entries(list), [d], [Shared(d.uuid)], ToPersist(list))
  {
    hide TotalCUs, IsWholeGPU;
    StartOfCall(hw.cache, hw.unitOf, view, list);
    ProcessAppend(hw.cache, hw.unitOf, view, list, [], d);
    assert [] + [d] == [d] && [d][0] == d;
  }

  function SharedCall(list: map<string, string>, d: ContainerDevice): Call {
    Call(Entries(list), [d], [Shared(d.uuid)], ToPersist(list))
  }

  /** p is locked again and calls for a memory-only slice, on a run without breaches. */
  lemma ShareAgain(hw: Hardware, run: seq<Action>, s: State, p: PodName, listing: seq<PodName>, list: map<string, string>, d: ContainerDevice)
    returns (run': seq<Action>)
    requires NamedDevices(hw) && SharesOnly(hw, d) && list != map[]
    requires Reaches(hw, run, s, []) && s.lock.None? && p !in s.calls
    requires p in s.pods && s.pods[p].annotation == Entries(list) && ListsPods(s, listing)
    ensures Reaches(hw, run', s.(lock := Some(p), calls := s.calls[p := SharedCall(list, d)]), [])
  {
    hide Reaches, Serving, RebuildSucceeds, Records, AllCus, Union, SharesOnly;
    TakeLock(hw, run, s, [], p);
    var locked := s.(lock := Some(p));
    var started := locked.(calls := s.calls[p := Call(Entries(list), [], [], ListRead)]);
    Extend(hw, run + [Lock(p)], locked, [], StartCall(p));
    run' := ShareCall(hw, run + [Lock(p)] + [StartCall(p)], started, p, listing, list, d);
    assert started.(calls := started.calls[p := SharedCall(list, d)]) == s.(lock := Some(p), calls := s.calls[p := SharedCall(list, d)]);
  }

  lemma ShareCall(hw: Hardware, run: seq<Action>, s: State, p: PodName, listing: seq<PodName>, list: map<string, string>, d: ContainerDevice)
    returns (run': seq<Action>)
    requires NamedDevices(hw) && SharesOnly(hw, d) && list != map[]
    requires Reaches(hw, run, s, []) && p in s.calls && s.calls[p] == Call(Entries(list), [], [], ListRead) && ListsPods(s, listing)
    ensures Reaches(hw, run', s.(calls := s.calls[p := SharedCall(list, d)]), [])
  {
    hide Reaches, Serving, RebuildSucceeds, Records, AllCus, Union, SharesOnly;
    ReachedAccepts(hw, run, s, listing);
    var view := Union(AllCus(hw.cache, Records(s, listing)));
    var taken := s.(calls := s.calls[p := Call(Entries(list), [], [], Snapshotted(view))]);
    var snap, take := TakeSnapshot(p, listing), TakeDevices(p, [d]);
    Extend(hw, run, s, [], snap);
    assert Next(hw, s, snap) == taken;
    Extend(hw, run + [snap], taken, [], take);
    SharedServing(hw, view, list, d);
    assert Next(hw, taken, take) == s.(calls := s.calls[p := SharedCall(list, d)]);
    run' := run + [snap] + [take];
  }

  lemma ReachedAccepts(hw: Hardware, run: seq<Action>, s: State, listing: seq<PodName>)
    requires NamedDevices(hw) && Reaches(hw, run, s, []) && ListsPods(s, listing)
    ensures RebuildSucceeds(hw, Records(s, listing)) && AllDecode(hw.cache, Records(s, listing))
  {
    hide Feasible, StateAfter, Breaches, Records, ListsPods;
    RebuildNeverFails(hw, run, listing);
  }

  /** p ends and its Pod object is replaced by a new Pod of that name. */
  lemma Replace(hw: Hardware, run: seq<Action>, s: State, breaches: seq<Action>, p: PodName)
    returns (run': seq<Action>)
    requires Reaches(hw, run, s, breaches) && p in s.pods
    ensures Reaches(hw, run', s.(pods := s.pods[p := FRESH]), if p in s.calls then breaches + [Arrive(p)] else breaches)
  {
    hide Reaches;
    var gone := s.(pods := s.pods - {p});
    Extend(hw, run, s, breaches, Delete(p));
    Extend(hw, run + [Delete(p)], gone, breaches, Arrive(p));
    assert Next(hw, gone, Arrive(p)) == s.(pods := s.pods[p := FRESH]);
    run' := run + [Delete(p)] + [Arrive(p)];
  }

  lemma Terminates(hw: Hardware, run: seq<Action>, s: State, breaches: seq<Action>, p: PodName)
    requires Reaches(hw, run, s, breaches) && p in s.pods
    ensures Reaches(hw, run + [Terminate(p)], s.(pods := s.pods[p := s.pods[p].(terminated := true)]), breaches)
  {
    hide Reaches;
    Extend(hw, run, s, breaches, Terminate(p));
  }

  /** From an idle node to one where p holds its slice and nothing is going on. */
  lemma WholeCall(hw: Hardware, run: seq<Action>, s: State, p: PodName, listing: seq<PodName>, devreq: Slot, i: nat)
    returns (run': seq<Action>)
    requires NamedDevices(hw) && AsksForSlice(hw, devreq, i)
    requires Reaches(hw, run, s, []) && s.lock.None? && s.calls == map[]
    requires p in s.pods && s.pods[p].annotation.Blank? && Idle(s) && ListsPods(s, listing)
    ensures Reaches(hw, run', State(s.pods[p := s.pods[p].(annotation := Entries(SliceList(hw, devreq, i)), phase := BindSuccess)], None, map[]), [])
  {
    hide Reaches, AsksForSlice, SliceList, Idle, ListsPods;
    run' := Prepare(hw, run, s, [], p, listing, devreq, i);
    var s1 := Prepared(hw, s, p, devreq, i);
    run' := Persist(hw, run', s1, [], p);
    var s2 := Persisted(s1, p, s1.calls[p].stage.list);
    run' := End(hw, run', s2, [], p);
    var s3 := s2.(lock := None, calls := s2.calls - {p}, pods := s2.pods[p := s2.pods[p].(phase := BindSuccess)]);
    assert s3.calls == map[];
    assert s3.pods == s.pods[p := s.pods[p].(annotation := Entries(SliceList(hw, devreq, i)), phase := BindSuccess)];
  }

  /** A Pod of p's name arrives while a call of the old p, whose share q has taken over, is in flight. */
  lemma ArrivalBreaks(hw: Hardware, p: PodName, q: PodName, devreq: Slot, i: nat, d: ContainerDevice) returns (run: seq<Action>)
    requires NamedDevices(hw) && p != q && AsksForSlice(hw, devreq, i) && SharesOnly(hw, d)
    ensures Feasible(hw, run) && Breaches(hw, run) == [Arrive(p)]
    ensures !Isolated(hw, StateAfter(hw, run).pods)
  {
    hide Reaches, AsksForSlice, Isolated, Next, SliceList, Feasible, StateAfter, Breaches, SharesOnly, Decodable;
    var list, listing := SliceList(hw, devreq, i), [p, q];
    SliceListFacts(hw, devreq, i);
    assert list != map[] by { assert Decodable(hw.cache, list); }
    TwoFacts(p, q);
    run := TwoPods(hw, p, q);
    var s0 := Two(p, q);
    run := WholeCall(hw, run, s0, p, listing, devreq, i);
    var s1 := State(s0.pods[p := FRESH.(annotation := Entries(list), phase := BindSuccess)], None, map[]);
    Terminates(hw, run, s1, [], p);
    var s2 := s1.(pods := s1.pods[p := s1.pods[p].(terminated := true)]);
    run := WholeCall(hw, run + [Terminate(p)], s2, q, listing, devreq, i);
    var s3 := State(s2.pods[q := FRESH.(annotation := Entries(list), phase := BindSuccess)], None, map[]);
    run := ShareAgain(hw, run, s3, p, listing, list, d);
    var s4 := s3.(lock := Some(p), calls := s3.calls[p := SharedCall(list, d)]);
    run := Replace(hw, run, s4, [], p);
    var s5 := s4.(pods := s4.pods[p := FRESH]);
    run := Persist(hw, run, s5, [] + [Arrive(p)], p);
    Broken(hw, run, Persisted(s5, p, list), [] + [Arrive(p)], p, q, devreq, i);
  }

  /** There is such a device and such a slice: all CUs of a device, but not all its memory. */
  lemma Instance() returns (hw: Hardware, devreq: Slot, d: ContainerDevice)
    ensures NamedDevices(hw) && AsksForSlice(hw, devreq, 0) && SharesOnly(hw, d)
  {
    hw := Hardware([Some(DeviceInfo("g", 0, 2, 2, true, None))], _ => 1);
    var slice := ContainerDevice("g", "AMDGPU", 1, 2);
    devreq, d := [slice], ContainerDevice("g", "AMDGPU", 1, 0);
    assert hw.cache[0].Some?;
    assert TotalCUs(hw.cache, "g") == Some(2) && TotalCUs(hw.cache, "").None?;
    assert !IsWholeGPU(hw.cache, [slice]) by { assert [slice][0] == slice; }
    assert !IsWholeGPU(hw.cache, [d]) by { assert [d][0] == d; }
    WholeDevice({}, 2, 1);
    hide Lookup, IsWholeGPU, TakeCus;
    StartOfCall(hw.cache, hw.unitOf, map[], map[]);
    ProcessAppend(hw.cache, hw.unitOf, map[], map[], [], slice);
    assert [] + [slice] == [slice] && [slice][0] == slice;
  }
}
