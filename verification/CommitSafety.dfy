/** Safety of the commit protocol over all runs. */
module CommitSafety {
  import opened AllocateCall
  import opened CallSafety
  import opened CommitProtocol
  import opened CuSnapshot
  import opened DeviceAnnotation
  import opened DeviceCache
  import opened NodeLock
  import opened Occupancy
  import opened Text
  import opened Wrappers

  // ---------- steps that take nothing ----------

  /** No live Pod of pods' holds CUs it did not hold as a live Pod of pods. */
  ghost predicate Quieter(hw: Hardware, pods: map<PodName, Pod>, pods': map<PodName, Pod>) {
    forall q :: q in pods' && !pods'[q].terminated ==>
      pods'[q].annotation.Blank? || (q in pods && !pods[q].terminated && pods'[q].annotation == pods[q].annotation)
  }

  /** p is still the Pod it was, or gone. */
  predicate SamePod(pods: map<PodName, Pod>, pods': map<PodName, Pod>, p: PodName) {
    p in pods' ==> p in pods && pods'[p].annotation == pods[p].annotation && (pods[p].terminated ==> pods'[p].terminated)
  }

  lemma IsolatedFrame(hw: Hardware, pods: map<PodName, Pod>, pods': map<PodName, Pod>)
    requires Isolated(hw, pods) && Quieter(hw, pods, pods')
    ensures Isolated(hw, pods')
  {
    hide Readable, ListCus;
    forall p, q | p in pods' && q in pods' && p != q && !pods'[p].terminated && !pods'[q].terminated
      ensures Apart(Held(hw, pods'[p]), Held(hw, pods'[q]))
    {
      if !pods'[p].annotation.Blank? && !pods'[q].annotation.Blank? {
        assert Held(hw, pods'[p]) == Held(hw, pods[p]) && Held(hw, pods'[q]) == Held(hw, pods[q]);
      }
    }
  }

  lemma CallFrame(hw: Hardware, pods: map<PodName, Pod>, pods': map<PodName, Pod>, own: bool, own': bool, p: PodName, call: Call)
    requires CallOk(hw, pods, own, p, call) && Quieter(hw, pods, pods') && SamePod(pods, pods', p)
    requires own' ==> own
    requires call.stage.LockChecked? ==> own'
    ensures CallOk(hw, pods', own', p, call)
  {
    hide Readable, ListCus, Decodable;
    forall q | q in pods' && !pods'[q].terminated
      ensures Held(hw, pods'[q]) == map[] || (q in pods && !pods[q].terminated && Held(hw, pods'[q]) == Held(hw, pods[q])) {}
  }

  lemma InvFrame(hw: Hardware, s: State, s': State)
    requires Inv(hw, s)
    requires Quieter(hw, s.pods, s'.pods)
    requires forall p :: p in s'.pods ==> AnnotationOk(hw, s'.pods[p].annotation)
    requires forall p :: p in s'.calls ==>
      && p in s.calls && s'.calls[p] == s.calls[p]
      && SamePod(s.pods, s'.pods, p)
      && (s'.lock == Some(p) ==> s.lock == Some(p))
      && (s.calls[p].stage.LockChecked? ==> s'.lock == Some(p))
    ensures Inv(hw, s')
  {
    hide CallOk, AnnotationOk, Isolated, Quieter, SamePod, ServedOk;
    IsolatedFrame(hw, s.pods, s'.pods);
    forall p | p in s'.calls ensures CallOk(hw, s'.pods, s'.lock == Some(p), p, s'.calls[p]) {
      CallFrame(hw, s.pods, s'.pods, s.lock == Some(p), s'.lock == Some(p), p, s.calls[p]);
    }
  }

  lemma CallFacts(hw: Hardware, s: State, p: PodName)
    requires Inv(hw, s) && p in s.calls
    ensures CallOk(hw, s.pods, s.lock == Some(p), p, s.calls[p])
    ensures AnnotationOk(hw, s.calls[p].initial) || s.calls[p].stage.Failing?
    ensures ServedOk(hw, s.calls[p])
  {
    hide CallOk, AnnotationOk, Isolated, ServedOk;
  }

  lemma OwnerChecked(hw: Hardware, s: State, p: PodName)
    requires Inv(hw, s) && p in s.calls && s.calls[p].stage.LockChecked?
    ensures s.lock == Some(p)
  {
    assert CallOk(hw, s.pods, s.lock == Some(p), p, s.calls[p]);
  }

  lemma OwnersChecked(hw: Hardware, s: State)
    requires Inv(hw, s)
    ensures forall p :: p in s.calls && s.calls[p].stage.LockChecked? ==> s.lock == Some(p)
  {
    hide Inv;
    forall p | p in s.calls && s.calls[p].stage.LockChecked? ensures s.lock == Some(p) { OwnerChecked(hw, s, p); }
  }

  /** Pods arriving, ending, disappearing and being marked by the scheduler. */
  lemma PodStep(hw: Hardware, s: State, a: Action)
    requires Inv(hw, s) && Enabled(s, a)
    requires a.Arrive? || a.Terminate? || a.Delete? || a.MarkAllocating?
    ensures Inv(hw, Next(hw, s, a))
  {
    hide CallOk, Isolated, Held, Decodable, ServedOk;
    OwnersChecked(hw, s);
    InvFrame(hw, s, Next(hw, s, a));
  }

  /** The lock being taken or expiring, and the plugin restarting. */
  lemma LockStep(hw: Hardware, s: State, a: Action)
    requires Inv(hw, s) && Enabled(s, a)
    requires a.Lock? || a.Expire? || a.Restart?
    ensures Inv(hw, Next(hw, s, a))
  {
    hide CallOk, Isolated, Held, AnnotationOk, ServedOk;
    OwnersChecked(hw, s);
    InvFrame(hw, s, Next(hw, s, a));
  }

  /** The end of a call. */
  lemma FinishStep(hw: Hardware, s: State, a: Action)
    requires Inv(hw, s) && Enabled(s, a) && a.Finish?
    ensures Inv(hw, Next(hw, s, a))
  {
    hide CallOk, Isolated, Held, Decodable, ServedOk;
    OwnersChecked(hw, s);
    InvFrame(hw, s, Next(hw, s, a));
  }

  // ---------- steps of one call ----------

  lemma InvAdvance(hw: Hardware, s: State, p: PodName, call: Call)
    requires Inv(hw, s) && ServedOk(hw, call)
    requires CallOk(hw, s.pods, s.lock == Some(p), p, call)
    requires AnnotationOk(hw, call.initial) || call.stage.Failing?
    ensures Inv(hw, s.(calls := s.calls[p := call]))
  {
    hide CallOk, AnnotationOk, Isolated, ServedOk;
  }

  lemma StartStep(hw: Hardware, s: State, p: PodName)
    requires Inv(hw, s) && Enabled(s, StartCall(p))
    ensures Inv(hw, Next(hw, s, StartCall(p)))
  {
    hide Decodable;
    var initial := s.pods[p].annotation;
    InvAdvance(hw, s, p, Call(initial, [], [], if initial.Malformed? then Failing(None) else ListRead));
  }

  lemma RecordHeld(hw: Hardware, pod: Pod)
    requires AnnotationOk(hw, pod.annotation)
    ensures PodCus(hw.cache, PodRecord(pod.terminated, pod.annotation)).Some?
    ensures var cus := PodCus(hw.cache, PodRecord(pod.terminated, pod.annotation)).value;
      if pod.terminated then cus == map[] else cus == Held(hw, pod)
  {
    hide EntryCus;
  }

  /** In every state that keeps the invariant the rebuild accepts the node, however the Pods are listed. */
  lemma RebuildAlwaysSucceeds(hw: Hardware, s: State, listing: seq<PodName>)
    requires Inv(hw, s) && ListsPods(s, listing)
    ensures RebuildSucceeds(hw, Records(s, listing))
    ensures Covers(hw, s.pods, Union(AllCus(hw.cache, Records(s, listing))))
  {
    hide PodCus, Held, CallOk, AnnotationOk, At;
    var records := Records(s, listing);
    forall i | 0 <= i < |records|
      ensures PodCus(hw.cache, records[i]).Some?
      ensures PodCus(hw.cache, records[i]).value == if s.pods[listing[i]].terminated then map[] else Held(hw, s.pods[listing[i]])
    {
      assert listing[i] in listing;
      RecordHeld(hw, s.pods[listing[i]]);
    }
    var cus := AllCus(hw.cache, records);
    NothingAt();
    forall i, j, uuid: string | 0 <= i < j < |cus| ensures At(cus[i], uuid) !! At(cus[j], uuid) {
      assert listing[i] in listing && listing[j] in listing;
      var p, q := listing[i], listing[j];
      assert !s.pods[p].terminated && !s.pods[q].terminated ==> Apart(Held(hw, s.pods[p]), Held(hw, s.pods[q]));
    }
    forall q | q in s.pods && !s.pods[q].terminated ensures Included(Held(hw, s.pods[q]), Union(cus)) {
      var i :| 0 <= i < |listing| && listing[i] == q;
      assert cus[i] == Held(hw, s.pods[q]);
      UnionContains(cus, i);
    }
  }

  lemma NothingAt()
    ensures forall uuid :: At(map[], uuid) == {}
  {
  }

  lemma {:induction false} UnionContains(allocs: seq<CuMap>, i: nat)
    requires i < |allocs|
    ensures Included(allocs[i], Union(allocs))
  {
    var front, last := allocs[..|allocs| - 1], allocs[|allocs| - 1];
    forall uuid: string ensures At(Union(allocs), uuid) == At(Union(front), uuid) + At(last, uuid) {}
    if i < |front| { UnionContains(front, i); }
  }

  lemma SnapshotStep(hw: Hardware, s: State, p: PodName, listing: seq<PodName>)
    requires Inv(hw, s) && Enabled(s, TakeSnapshot(p, listing))
    ensures Inv(hw, Next(hw, s, TakeSnapshot(p, listing)))
  {
    var view := Union(AllCus(hw.cache, Records(s, listing)));
    RebuildAlwaysSucceeds(hw, s, listing);
    assert CallOk(hw, s.pods, s.lock == Some(p), p, s.calls[p]);
    hide Covers, RebuildSucceeds, AllCus, Records, Union, Isolated, Decodable, ListsPods;
    InvAdvance(hw, s, p, s.calls[p].(stage := Snapshotted(view)));
  }

  lemma NextTake(hw: Hardware, s: State, p: PodName, devreq: Slot)
    requires Possible(s, TakeDevices(p, devreq))
    ensures Next(hw, s, TakeDevices(p, devreq)) == s.(calls := s.calls[p := Serving(hw, s.calls[p], devreq)])
  {
    hide Serving;
  }

  lemma ServingOk(hw: Hardware, s: State, p: PodName, devreq: Slot)
    requires Inv(hw, s) && NamedDevices(hw) && Enabled(s, TakeDevices(p, devreq))
    ensures CallOk(hw, s.pods, s.lock == Some(p), p, Serving(hw, s.calls[p], devreq))
  {
    hide Process, Sliced, Inv, PersistOk, Covers;
    CallFacts(hw, s, p);
    if Serving(hw, s.calls[p], devreq).stage.ToPersist? { TakenListOk(hw, s, p, devreq); }
  }

  /** What a call hands out is recorded in the list it goes on to persist; without such a list there was no slice. */
  lemma ServingServed(hw: Hardware, call: Call, devreq: Slot)
    requires call.stage.Snapshotted? && ServedOk(hw, call) && AnnotationOk(hw, call.initial)
    ensures ServedOk(hw, Serving(hw, call, devreq))
  {
    hide Process, Sliced, CutsDevice, EntryCus, SoundGrant;
    var view, list := call.stage.view, ListOf(call.initial);
    var r := Process(hw.cache, hw.unitOf, view, list, devreq);
    if r.Some? {
      ProcessKeeps(hw.cache, hw.unitOf, view, list, devreq);
      var served := Serving(hw, call, devreq);
      hide ListCus, At, Readable;
      ServedCuts(hw, view, list, devreq);
      forall i | IsSlice(hw, served.request, served.grants, i) ensures served.stage.ToPersist? {
        SliceServed(hw, view, list, devreq, i);
      }
    }
  }

  lemma ServedCuts(hw: Hardware, view: CuMap, list: map<string, string>, devreq: Slot)
    requires Process(hw.cache, hw.unitOf, view, list, devreq).Some?
    ensures Sliced(hw.cache, devreq) <==> CutsSome(hw, devreq)
  {
    hide Process, Sliced, Lookup;
    SlicedExactly(hw.cache, hw.unitOf, view, list, devreq);
  }

  lemma SliceServed(hw: Hardware, view: CuMap, list: map<string, string>, devreq: Slot, i: nat)
    requires Readable(hw.cache, list) && Process(hw.cache, hw.unitOf, view, list, devreq).Some?
    requires IsSlice(hw, devreq, Process(hw.cache, hw.unitOf, view, list, devreq).value.0, i)
    ensures Process(hw.cache, hw.unitOf, view, list, devreq).value.1 != map[] && Sliced(hw.cache, devreq)
  {
    hide Process, Sliced, Lookup, Readable;
    SliceIsPersisted(hw.cache, hw.unitOf, view, list, devreq, i);
  }

  lemma TakeStep(hw: Hardware, s: State, p: PodName, devreq: Slot)
    requires Inv(hw, s) && NamedDevices(hw) && Enabled(s, TakeDevices(p, devreq))
    ensures Inv(hw, Next(hw, s, TakeDevices(p, devreq)))
  {
    hide Inv, AnnotationOk, CallOk, Next, ServedOk, Process;
    CallFacts(hw, s, p);
    NextTake(hw, s, p, devreq);
    ServingOk(hw, s, p, devreq);
    ServingServed(hw, s.calls[p], devreq);
    InvAdvance(hw, s, p, Serving(hw, s.calls[p], devreq));
  }

  /** The list a call wants to persist decodes, and while its Pod owns the lock it meets no other live Pod. */
  lemma TakenListOk(hw: Hardware, s: State, p: PodName, devreq: Slot)
    requires Inv(hw, s) && NamedDevices(hw) && Enabled(s, TakeDevices(p, devreq))
    requires Process(hw.cache, hw.unitOf, s.calls[p].stage.view, ListOf(s.calls[p].initial), devreq).Some?
    requires Process(hw.cache, hw.unitOf, s.calls[p].stage.view, ListOf(s.calls[p].initial), devreq).value.1 != map[]
    ensures PersistOk(hw, s.pods, s.lock == Some(p), p,
      Process(hw.cache, hw.unitOf, s.calls[p].stage.view, ListOf(s.calls[p].initial), devreq).value.1)
  {
    hide Process, EntryCus, ListCus, At;
    var call := s.calls[p];
    assert CallOk(hw, s.pods, s.lock == Some(p), p, call);
    var view, list := call.stage.view, ListOf(call.initial);
    ProcessKeeps(hw.cache, hw.unitOf, view, list, devreq);
    var after := Process(hw.cache, hw.unitOf, view, list, devreq).value.1;
    if s.lock == Some(p) && p in s.pods && !s.pods[p].terminated {
      HeldIsList(hw, s.pods[p]);
      assert Included(Held(hw, s.pods[p]), view);
      forall q | q in s.pods && q != p && !s.pods[q].terminated ensures Apart(ListCus(hw.cache, after), Held(hw, s.pods[q])) {
        assert Apart(Held(hw, s.pods[p]), Held(hw, s.pods[q]));
        assert Included(Held(hw, s.pods[q]), view);
        NewListApart(hw, view, list, devreq, Held(hw, s.pods[q]));
      }
    }
  }

  lemma HeldIsList(hw: Hardware, pod: Pod)
    requires AnnotationOk(hw, pod.annotation)
    ensures Readable(hw.cache, ListOf(pod.annotation)) && Held(hw, pod) == ListCus(hw.cache, ListOf(pod.annotation))
  {
  }

  lemma NewListApart(hw: Hardware, view: CuMap, list: map<string, string>, devreq: Slot, other: CuMap)
    requires Readable(hw.cache, list) && Included(ListCus(hw.cache, list), view)
    requires Process(hw.cache, hw.unitOf, view, list, devreq).Some?
    requires Apart(ListCus(hw.cache, list), other) && Included(other, view)
    ensures var after := Process(hw.cache, hw.unitOf, view, list, devreq).value.1;
      Readable(hw.cache, after) && Apart(ListCus(hw.cache, after), other)
  {
    hide Process, Readable, ListCus, At, Grants, GrantedTo;
    RecordingNeverFails(hw.cache, hw.unitOf, view, list, devreq);
    var (grants, after) := Process(hw.cache, hw.unitOf, view, list, devreq).value;
    forall uuid: string ensures At(ListCus(hw.cache, after), uuid) !! At(other, uuid) {
      GrantsDisjoint(hw.cache, hw.unitOf, view, devreq, uuid);
      assert At(other, uuid) <= At(view, uuid);
    }
  }

  /** Any read or lookup may fail before the patch; the call then fails with the Pod's annotation as it was. */
  lemma AbortStep(hw: Hardware, s: State, p: PodName)
    requires Inv(hw, s) && Enabled(s, Abort(p))
    ensures Inv(hw, Next(hw, s, Abort(p)))
  {
    CallFacts(hw, s, p);
    hide PersistOk, AnnotationOk, Covers, Inv;
    InvAdvance(hw, s, p, s.calls[p].(stage := Failing(None)));
  }

  lemma CheckStep(hw: Hardware, s: State, p: PodName)
    requires Inv(hw, s) && Enabled(s, CheckLock(p))
    ensures Inv(hw, Next(hw, s, CheckLock(p)))
  {
    CallFacts(hw, s, p);
    hide PersistOk, AnnotationOk, Inv;
    var call := s.calls[p];
    InvAdvance(hw, s, p, call.(stage := if s.lock == Some(p) then LockChecked(call.stage.list) else Failing(None)));
  }

  lemma ReadBackStep(hw: Hardware, s: State, p: PodName, readFails: bool)
    requires Inv(hw, s) && Enabled(s, ReadBack(p, readFails))
    ensures Inv(hw, Next(hw, s, ReadBack(p, readFails)))
  {
    CallFacts(hw, s, p);
    hide PersistOk, AnnotationOk, Inv;
    var call := s.calls[p];
    var list := call.stage.list;
    var stored := !readFails && s.pods[p].annotation == Entries(list);
    hide CallOk, Next;
    NextReadBack(hw, s, p, readFails);
    ReadBackOk(hw, s.pods, s.lock == Some(p), p, call, stored);
    InvAdvance(hw, s, p, call.(stage := if stored then Succeeded(Some(list)) else Failing(Some(list))));
  }

  lemma NextReadBack(hw: Hardware, s: State, p: PodName, readFails: bool)
    requires Possible(s, ReadBack(p, readFails))
    ensures var list := s.calls[p].stage.list;
      var stored := !readFails && s.pods[p].annotation == Entries(list);
      Next(hw, s, ReadBack(p, readFails)) == Advance(s, p, if stored then Succeeded(Some(list)) else Failing(Some(list)))
  {
  }

  lemma ReadBackOk(hw: Hardware, pods: map<PodName, Pod>, own: bool, p: PodName, call: Call, stored: bool)
    requires call.stage.Unconfirmed? && CallOk(hw, pods, own, p, call)
    requires stored ==> p in pods && pods[p].annotation == Entries(call.stage.list)
    ensures var list := call.stage.list;
      CallOk(hw, pods, own, p, call.(stage := if stored then Succeeded(Some(list)) else Failing(Some(list))))
  {
  }

  // ---------- the commit ----------

  lemma PatchStep(hw: Hardware, s: State, p: PodName, applied: bool, reportsError: bool)
    requires Inv(hw, s) && Enabled(s, Patch(p, applied, reportsError))
    ensures Inv(hw, Next(hw, s, Patch(p, applied, reportsError)))
  {
    NextPatch(hw, s, p, applied, reportsError);
    hide Next, Inv;
    var list := s.calls[p].stage.list;
    var stage := if reportsError then Unconfirmed(list) else Succeeded(Some(list));
    if applied {
      OwnerChecked(hw, s, p);
      Commit(hw, s, p, stage);
    } else {
      LostStep(hw, s, p);
    }
  }

  lemma LostStep(hw: Hardware, s: State, p: PodName)
    requires Inv(hw, s) && p in s.calls && s.calls[p].stage.LockChecked?
    ensures Inv(hw, Advance(s, p, Unconfirmed(s.calls[p].stage.list)))
  {
    OwnerChecked(hw, s, p);
    CallFacts(hw, s, p);
    hide CallOk, AnnotationOk, Inv;
    UnpatchedOk(hw, s.pods, p, s.calls[p]);
    InvAdvance(hw, s, p, s.calls[p].(stage := Unconfirmed(s.calls[p].stage.list)));
  }

  /** The API server's state once p's patch is applied. */
  function Patched(s: State, p: PodName): State
    requires p in s.calls && s.calls[p].stage.LockChecked? && p in s.pods
  {
    WithPod(s, p, s.pods[p].(annotation := Entries(s.calls[p].stage.list)))
  }

  lemma NextPatch(hw: Hardware, s: State, p: PodName, applied: bool, reportsError: bool)
    requires Possible(s, Patch(p, applied, reportsError))
    ensures var list := s.calls[p].stage.list;
      Next(hw, s, Patch(p, applied, reportsError))
        == Advance(if applied then Patched(s, p) else s, p, if reportsError then Unconfirmed(list) else Succeeded(Some(list)))
  {
  }

  lemma PatchedOk(hw: Hardware, pods: map<PodName, Pod>, p: PodName, call: Call)
    requires call.stage.Unconfirmed? || (call.stage.Succeeded? && call.stage.stored.Some?)
    requires p in pods
    requires pods[p].annotation == Entries(if call.stage.Unconfirmed? then call.stage.list else call.stage.stored.value)
    ensures CallOk(hw, pods, true, p, call)
  {
  }

  lemma UnpatchedOk(hw: Hardware, pods: map<PodName, Pod>, p: PodName, call: Call)
    requires call.stage.LockChecked? && CallOk(hw, pods, true, p, call)
    ensures CallOk(hw, pods, true, p, call.(stage := Unconfirmed(call.stage.list)))
  {
  }

  /** The stage of a call once its patch is applied. */
  predicate Stored(stage: Stage, list: map<string, string>) {
    stage == Unconfirmed(list) || stage == Succeeded(Some(list))
  }

  /** Storing the annotation of a checked call keeps the invariant. */
  lemma Commit(hw: Hardware, s: State, p: PodName, stage: Stage)
    requires Inv(hw, s) && p in s.calls && s.calls[p].stage.LockChecked? && p in s.pods && s.lock == Some(p)
    requires Stored(stage, s.calls[p].stage.list)
    ensures Inv(hw, Advance(Patched(s, p), p, stage))
  {
    CallFacts(hw, s, p);
    CheckedListOk(hw, s.pods, p, s.calls[p]);
    PatchIsolated(hw, s.pods, p, s.calls[p].stage.list);
    CommitCalls(hw, s, p, stage);
    CommitRest(hw, s, p, stage);
    hide PersistOk, Isolated, Decodable, CallOk, AnnotationOk, ServedOk;
  }

  lemma CommitCalls(hw: Hardware, s: State, p: PodName, stage: Stage)
    requires Inv(hw, s) && p in s.calls && s.calls[p].stage.LockChecked? && p in s.pods && s.lock == Some(p)
    requires Stored(stage, s.calls[p].stage.list)
    ensures var s' := Advance(Patched(s, p), p, stage);
      forall r :: r in s'.calls ==> CallOk(hw, s'.pods, s'.lock == Some(r), r, s'.calls[r])
  {
    hide CallOk, Inv, Held, Decodable;
    var s' := Advance(Patched(s, p), p, stage);
    PatchedOk(hw, s'.pods, p, s'.calls[p]);
    forall r | r in s'.calls && r != p ensures CallOk(hw, s'.pods, s'.lock == Some(r), r, s'.calls[r]) {
      CallFacts(hw, s, r);
      OtherCallFrame(hw, s.pods, s'.pods, r, s.calls[r]);
    }
  }

  lemma ServedOnStored(hw: Hardware, s: State, p: PodName, stage: Stage)
    requires Inv(hw, s) && p in s.calls && s.calls[p].stage.LockChecked? && Stored(stage, s.calls[p].stage.list)
    ensures ServedOk(hw, s.calls[p].(stage := stage))
  {
    hide Inv, Keeps, SoundGrant, IsSlice;
    CallFacts(hw, s, p);
  }

  lemma CommitRest(hw: Hardware, s: State, p: PodName, stage: Stage)
    requires Inv(hw, s) && p in s.calls && s.calls[p].stage.LockChecked? && p in s.pods
    requires Decodable(hw.cache, s.calls[p].stage.list) && Stored(stage, s.calls[p].stage.list)
    ensures var s' := Advance(Patched(s, p), p, stage);
      && (forall r :: r in s'.pods ==> AnnotationOk(hw, s'.pods[r].annotation))
      && (forall r :: r in s'.calls ==> AnnotationOk(hw, s'.calls[r].initial) || s'.calls[r].stage.Failing?)
      && (forall r :: r in s'.calls ==> ServedOk(hw, s'.calls[r]))
  {
    ServedOnStored(hw, s, p, stage);
    hide CallOk, Isolated, Held, Decodable, ServedOk;
  }

  lemma CheckedListOk(hw: Hardware, pods: map<PodName, Pod>, p: PodName, call: Call)
    requires call.stage.LockChecked? && CallOk(hw, pods, true, p, call)
    ensures PersistOk(hw, pods, true, p, call.stage.list) && Decodable(hw.cache, call.stage.list)
  {
    hide MeetsNoOther;
  }

  lemma PatchIsolated(hw: Hardware, pods: map<PodName, Pod>, p: PodName, list: map<string, string>)
    requires p in pods && Isolated(hw, pods) && PersistOk(hw, pods, true, p, list)
    ensures Isolated(hw, pods[p := pods[p].(annotation := Entries(list))])
  {
    hide EntryCus, At;
    var pods' := pods[p := pods[p].(annotation := Entries(list))];
    assert Held(hw, pods'[p]) == ListCus(hw.cache, list);
    forall q, r | q in pods' && r in pods' && q != r && !pods'[q].terminated && !pods'[r].terminated
      ensures Apart(Held(hw, pods'[q]), Held(hw, pods'[r]))
    {
      if q != p && r != p {
        assert pods'[q] == pods[q] && pods'[r] == pods[r];
      }
    }
  }

  /** A call whose Pod does not own the lock relies on its own annotation only. */
  lemma OtherCallFrame(hw: Hardware, pods: map<PodName, Pod>, pods': map<PodName, Pod>, r: PodName, call: Call)
    requires CallOk(hw, pods, false, r, call)
    requires r in pods' <==> r in pods
    requires r in pods ==> pods'[r] == pods[r]
    ensures CallOk(hw, pods', false, r, call)
  {
    hide Decodable;
  }

  lemma Step(hw: Hardware, s: State, a: Action)
    requires Inv(hw, s) && NamedDevices(hw) && Enabled(s, a)
    ensures Inv(hw, Next(hw, s, a))
  {
    hide Inv, Next;
    match a
    case StartCall(p) => StartStep(hw, s, p);
    case TakeSnapshot(p, listing) => SnapshotStep(hw, s, p, listing);
    case TakeDevices(p, devreq) => TakeStep(hw, s, p, devreq);
    case Abort(p) => AbortStep(hw, s, p);
    case CheckLock(p) => CheckStep(hw, s, p);
    case Patch(p, applied, reportsError) => PatchStep(hw, s, p, applied, reportsError);
    case ReadBack(p, readFails) => ReadBackStep(hw, s, p, readFails);
    case Finish(_, _, _, _) => FinishStep(hw, s, a);
    case Lock(_) => LockStep(hw, s, a);
    case Expire => LockStep(hw, s, a);
    case Restart => LockStep(hw, s, a);
    case _ => PodStep(hw, s, a);
  }

  // ---------- over all runs ----------

  lemma {:induction false} InvAlways(hw: Hardware, run: seq<Action>)
    requires NamedDevices(hw) && Legal(hw, run)
    ensures Inv(hw, StateAfter(hw, run))
  {
    if run != [] {
      hide Inv, Next, Possible;
      InvAlways(hw, run[..|run| - 1]);
      Step(hw, StateAfter(hw, run[..|run| - 1]), run[|run| - 1]);
    }
  }

  /**
   * CU isolation: in every reachable state the persisted CU sets of live Pods are pairwise disjoint, device by
   * device, and name only CUs the device has.
   */
  lemma Isolation(hw: Hardware, run: seq<Action>, p: PodName, q: PodName, uuid: string)
    requires NamedDevices(hw) && Legal(hw, run)
    requires var s := StateAfter(hw, run); p in s.pods && q in s.pods
    ensures var s := StateAfter(hw, run);
      && (p != q && !s.pods[p].terminated && !s.pods[q].terminated ==>
            At(Held(hw, s.pods[p]), uuid) !! At(Held(hw, s.pods[q]), uuid))
      && (forall c: nat :: c in At(Held(hw, s.pods[p]), uuid) ==>
            Lookup(hw.cache, uuid, 0).Some? && c < Lookup(hw.cache, uuid, 0).value.devcore)
  {
    InvAlways(hw, run);
    var s := StateAfter(hw, run);
    hide StateAfter, Legal, CallOk, AnnotationOk, EntryCus, Lookup;
    if p != q && !s.pods[p].terminated && !s.pods[q].terminated {
      assert Apart(Held(hw, s.pods[p]), Held(hw, s.pods[q]));
    }
    HeldInRange(hw, s.pods[p]);
  }

  lemma HeldInRange(hw: Hardware, pod: Pod)
    ensures forall uuid, c: nat :: c in At(Held(hw, pod), uuid) ==>
      TotalCUs(hw.cache, uuid).Some? && c < TotalCUs(hw.cache, uuid).value
  {
    hide Lookup;
    if pod.annotation.Entries? && Readable(hw.cache, pod.annotation.lists) {
      var lists := pod.annotation.lists;
      forall uuid, c: nat | c in At(Held(hw, pod), uuid)
        ensures TotalCUs(hw.cache, uuid).Some? && c < TotalCUs(hw.cache, uuid).value
      {
        EntryInRange(hw.cache, lists, uuid);
      }
    }
  }

  /** The rebuild never fails and never reports an overlap, in no reachable state and under no listing order. */
  lemma RebuildNeverFails(hw: Hardware, run: seq<Action>, listing: seq<PodName>)
    requires NamedDevices(hw) && Legal(hw, run) && ListsPods(StateAfter(hw, run), listing)
    ensures RebuildSucceeds(hw, Records(StateAfter(hw, run), listing))
  {
    hide Inv, RebuildSucceeds, Records, ListsPods;
    InvAlways(hw, run);
    RebuildAlwaysSucceeds(hw, StateAfter(hw, run), listing);
  }

  /** While a Pod owns the lock, the occupancy its call works from still covers every live Pod. */
  lemma SnapshotStaysCurrent(hw: Hardware, run: seq<Action>, p: PodName, q: PodName)
    requires NamedDevices(hw) && Legal(hw, run)
    requires var s := StateAfter(hw, run);
      && p in s.calls && s.calls[p].stage.Snapshotted? && s.lock == Some(p)
      && q in s.pods && !s.pods[q].terminated
    ensures var s := StateAfter(hw, run); Included(Held(hw, s.pods[q]), s.calls[p].stage.view)
  {
    InvAlways(hw, run);
    CallFacts(hw, StateAfter(hw, run), p);
    hide StateAfter, Legal, Inv, Held;
  }

  // ---------- what the bind phase says ----------

  /** Step k ends a call of p: its last container's, with success, or a failing one. */
  ghost predicate EndsCall(hw: Hardware, run: seq<Action>, k: nat, p: PodName, success: bool)
    requires Feasible(hw, run)
  {
    && k < |run| && run[k].Finish? && run[k].p == p
    && Feasible(hw, run[..k])
    && var s := StateAfter(hw, run[..k]);
    && p in s.calls && (if success then s.calls[p].stage.Succeeded? && run[k].last else s.calls[p].stage.Failing?)
  }

  /** A step changes a Pod's phase to success or failure only by ending its call that way. */
  lemma PhaseStep(hw: Hardware, s: State, a: Action, p: PodName)
    requires Possible(s, a) && p in Next(hw, s, a).pods
    ensures var phase := Next(hw, s, a).pods[p].phase;
      || phase.Unbound? || phase.Allocating?
      || (p in s.pods && s.pods[p].phase == phase)
      || (a.Finish? && a.p == p && p in s.calls &&
           (if phase.BindSuccess? then s.calls[p].stage.Succeeded? && a.last else s.calls[p].stage.Failing?))
  {
    hide Process, Sliced, RebuildSucceeds, Union, AllCus, Serving;
  }

  /** A Pod is marked as bound only if the last of its calls succeeded, and as failed only if a call of it failed. */
  lemma {:induction false} PhaseIsTrue(hw: Hardware, run: seq<Action>, p: PodName)
    requires Feasible(hw, run) && p in StateAfter(hw, run).pods
    ensures StateAfter(hw, run).pods[p].phase.BindSuccess? ==> exists k: nat :: EndsCall(hw, run, k, p, true)
    ensures StateAfter(hw, run).pods[p].phase.BindFailed? ==> exists k: nat :: EndsCall(hw, run, k, p, false)
  {
    hide Next, Possible;
    if run != [] {
      var front, last := run[..|run| - 1], run[|run| - 1];
      var s := StateAfter(hw, front);
      PhaseStep(hw, s, last, p);
      assert run[..|front|] == front;
      if last.Finish? && last.p == p && p in s.calls {
        assert EndsCall(hw, run, |front|, p, true) <==> s.calls[p].stage.Succeeded? && last.last;
        assert EndsCall(hw, run, |front|, p, false) <==> s.calls[p].stage.Failing?;
      }
      if p in s.pods {
        PhaseIsTrue(hw, front, p);
        forall k: nat, success | EndsCall(hw, front, k, p, success) ensures EndsCall(hw, run, k, p, success) {
          assert front[..k] == run[..k];
        }
      }
    }
  }

  /** A call handed out CUs of its own on a device it cuts in cores or in memory. */
  ghost predicate HasSlice(hw: Hardware, call: Call) {
    exists i :: IsSlice(hw, call.request, call.grants, i)
  }

  /** p's stored annotation is list and holds all CUs of grants. */
  ghost predicate StoredAs(hw: Hardware, pod: Pod, grants: seq<Grant>, list: map<string, string>) {
    pod.annotation == Entries(list) && forall uuid :: GrantedTo(grants, uuid) <= At(Held(hw, pod), uuid)
  }

  lemma StoredFacts(hw: Hardware, s: State, p: PodName)
    requires Inv(hw, s) && p in s.calls && p in s.pods && s.calls[p].stage.Succeeded?
    ensures var call := s.calls[p];
      if call.stage.stored.Some? then StoredAs(hw, s.pods[p], call.grants, call.stage.stored.value) && CutsSome(hw, call.request)
      else !HasSlice(hw, call)
  {
    hide Inv, EntryCus, At, GrantedTo, SoundGrant, CutsDevice;
    CallFacts(hw, s, p);
  }

  /**
   * A call that handed out a slice succeeds only with its annotation stored, patch error or not, and the Pod's stored
   * annotation then holds all CUs the call handed out. A call that fails leaves the Pod with the annotation it had or
   * the one it tried to store; one that cuts no device stores nothing.
   */
  lemma SuccessIsDurable(hw: Hardware, run: seq<Action>, p: PodName)
    requires NamedDevices(hw) && Legal(hw, run)
    requires var s := StateAfter(hw, run); p in s.calls && p in s.pods
    ensures var s := StateAfter(hw, run);
      var call := s.calls[p];
      && (call.stage.Succeeded? && HasSlice(hw, call) ==>
            call.stage.stored.Some? && StoredAs(hw, s.pods[p], call.grants, call.stage.stored.value))
      && (call.stage.Succeeded? && (call.stage.stored.None? || !CutsSome(hw, call.request)) ==>
            s.pods[p].annotation == call.initial)
      && (call.stage.Failing? ==>
            s.pods[p].annotation == call.initial
            || (call.stage.tried.Some? && s.pods[p].annotation == Entries(call.stage.tried.value)))
  {
    hide StateAfter, Breaches, Inv, StoredAs, HasSlice, CutsSome;
    InvAlways(hw, run);
    var s := StateAfter(hw, run);
    CallFacts(hw, s, p);
    if s.calls[p].stage.Succeeded? { StoredFacts(hw, s, p); }
  }

  /** Part i of the mask p's call answers denotes the CUs of its grant i, and q holds none of them. */
  ghost predicate MaskApart(hw: Hardware, s: State, p: PodName, q: PodName, i: nat)
    requires p in s.calls && q in s.pods && i < |s.calls[p].grants|
  {
    var g, mask := s.calls[p].grants[i], MaskValue(hw.cache, s.calls[p].grants);
    && mask.Some?
    && var parts := Split(mask.value, ';');
    && |parts| == |s.calls[p].request|
    && i < |parts| && Denotes(hw.cache, parts[i], i, g.uuid, GrantCus(g))
    && GrantCus(g) !! At(Held(hw, s.pods[q]), g.uuid)
  }

  lemma MaskOfCall(hw: Hardware, call: Call, i: nat)
    requires ServedOk(hw, call) && i < |call.grants| && call.grants[i].Exclusive?
    ensures |call.grants| == |call.request|
    ensures var g, mask := call.grants[i], MaskValue(hw.cache, call.grants);
      && mask.Some?
      && var parts := Split(mask.value, ';');
      && |parts| == |call.request|
      && Denotes(hw.cache, parts[i], i, g.uuid, GrantCus(g))
  {
    hide Keeps, IsSlice, SoundGrant, Denotes, MaskText, Split, Join;
    MaskDenotesGrant(hw.cache, call.grants[i], i);
    MaskSplits(hw.cache, call.grants);
  }

  /**
   * End to end: after any legal run, every exclusive part of the mask that a successful slice call answers for a live
   * Pod denotes exactly the CUs the Pod got on that device, and no other live Pod holds one of them.
   */
  lemma MaskIsIsolated(hw: Hardware, run: seq<Action>, p: PodName, q: PodName, i: nat)
    requires NamedDevices(hw) && Legal(hw, run)
    requires var s := StateAfter(hw, run);
      && p in s.calls && s.calls[p].stage.Succeeded? && HasSlice(hw, s.calls[p])
      && i < |s.calls[p].grants| && s.calls[p].grants[i].Exclusive?
      && p in s.pods && q in s.pods && p != q && !s.pods[p].terminated && !s.pods[q].terminated
    ensures MaskApart(hw, StateAfter(hw, run), p, q, i)
  {
    hide StateAfter, Breaches, Inv, Held, HasSlice, GrantedTo, At, ServedOk, Split, Denotes, MaskValue;
    var s := StateAfter(hw, run);
    InvAlways(hw, run);
    CallFacts(hw, s, p);
    StoredFacts(hw, s, p);
    MaskOfCall(hw, s.calls[p], i);
    Isolation(hw, run, p, q, s.calls[p].grants[i].uuid);
    GrantedContains(s.calls[p].grants, i);
  }
}
