/**
 * The node-wide protocol as a state machine over the API server's state: the scheduler locks the node for a Pod, the
 * plugin snapshots the occupancy, takes CUs, checks the lock, patches the Pod's annotation and releases the lock,
 * while Pods come and go, calls of several Pods overlap, patches fail ambiguously and the plugin restarts. Every
 * step uses the functions the plugin's methods are proved to compute.
 */
module CommitProtocol {
  import opened AllocateCall
  import opened CallSafety
  import opened CuSnapshot
  import opened DeviceAnnotation
  import opened DeviceCache
  import opened NodeLock
  import opened Occupancy
  import opened Wrappers

  datatype BindPhase = Unbound | Allocating | BindSuccess | BindFailed

  datatype Pod = Pod(terminated: bool, phase: BindPhase, annotation: CuAnnotation)

  /** How far an Allocate call has come. */
  datatype Stage =
    | ListRead
    | Snapshotted(view: CuMap)
    | ToPersist(list: map<string, string>)
    | LockChecked(list: map<string, string>)
    | Unconfirmed(list: map<string, string>)
    | Succeeded(stored: Option<map<string, string>>)
    | Failing(tried: Option<map<string, string>>)

  /**
   * An Allocate call of a tracked Pod: the annotation it read at its start, the devices it was asked for, and what it
   * handed out for them; the latter two are empty until the call takes its devices.
   */
  datatype Call = Call(initial: CuAnnotation, request: Slot, grants: seq<Grant>, stage: Stage)

  datatype State = State(
    pods: map<PodName, Pod>,     // the Pods bound to the node, as the API server has them
    lock: Option<PodName>,       // the owner of the node lock
    calls: map<PodName, Call>)   // Allocate calls in flight, one per Pod

  /** The node's fixed hardware: its registered devices and their CU mask units. */
  datatype Hardware = Hardware(cache: Cache, unitOf: string -> int)

  datatype Action =
    | Arrive(p: PodName)
    | Terminate(p: PodName)
    | Delete(p: PodName)
    | Lock(p: PodName)
    | MarkAllocating(p: PodName)
    | Expire
    | Restart
    | StartCall(p: PodName)
    | TakeSnapshot(p: PodName, listing: seq<PodName>)
    | TakeDevices(p: PodName, devreq: Slot)
    | Abort(p: PodName)
    | CheckLock(p: PodName)
    | Patch(p: PodName, applied: bool, reportsError: bool)
    | ReadBack(p: PodName, readFails: bool)
    | Finish(p: PodName, last: bool, phasePatched: bool, lockReleased: bool)

  function ListOf(a: CuAnnotation): map<string, string> {
    if a.Entries? then a.lists else map[]
  }

  /** The Pods in the order a list request returned them. */
  ghost predicate ListsPods(s: State, listing: seq<PodName>) {
    && (forall p :: p in listing <==> p in s.pods)
    && (forall i, j :: 0 <= i < j < |listing| ==> listing[i] != listing[j])
  }

  ghost function Records(s: State, listing: seq<PodName>): seq<PodRecord>
    requires ListsPods(s, listing)
  {
    seq(|listing|, i requires 0 <= i < |listing| =>
      assert listing[i] in listing;
      PodRecord(s.pods[listing[i]].terminated, s.pods[listing[i]].annotation))
  }

  /** buildCUAllocations accepts the node. */
  ghost predicate RebuildSucceeds(hw: Hardware, records: seq<PodRecord>) {
    AllDecode(hw.cache, records) && PairwiseDisjoint(AllCus(hw.cache, records))
  }

  /** GetPendingPod: the Pod the lock names; without such a Pod, one whose bind phase is allocating. */
  predicate Pending(s: State, p: PodName) {
    p in s.pods && (s.lock == Some(p) || ((s.lock.None? || s.lock.value !in s.pods) && s.pods[p].phase.Allocating?))
  }

  /** What can happen in a state at all. */
  ghost predicate Possible(s: State, a: Action) {
    match a
    case Arrive(p) => p !in s.pods
    case Terminate(p) => p in s.pods
    case Delete(p) => p in s.pods
    case Lock(p) => s.lock.None?
    case MarkAllocating(p) => p in s.pods && s.lock == Some(p)
    case Expire => s.lock.Some?
    case Restart => true
    case StartCall(p) => p !in s.calls && Pending(s, p)
    case TakeSnapshot(p, listing) => p in s.calls && s.calls[p].stage.ListRead? && ListsPods(s, listing)
    case TakeDevices(p, _) => p in s.calls && s.calls[p].stage.Snapshotted?
    case Abort(p) => p in s.calls && (s.calls[p].stage.ListRead? || s.calls[p].stage.Snapshotted? || s.calls[p].stage.ToPersist?)
    case CheckLock(p) => p in s.calls && s.calls[p].stage.ToPersist?
    case Patch(p, applied, reportsError) =>
      p in s.calls && s.calls[p].stage.LockChecked? && (applied || reportsError) && (applied ==> p in s.pods)
    case ReadBack(p, readFails) => p in s.calls && s.calls[p].stage.Unconfirmed? && (p !in s.pods ==> readFails)
    case Finish(p, _, phasePatched, _) =>
      p in s.calls && (s.calls[p].stage.Succeeded? || s.calls[p].stage.Failing?) && (phasePatched ==> p in s.pods)
  }

  /**
   * What safety asks of the timing: the lock is not lost between a check and its patch, and while a call of p is in
   * flight no lock is granted to p and no new Pod of that name arrives.
   */
  predicate Timely(s: State, a: Action) {
    match a
    case Expire => s.lock.Some? && s.lock.value in s.calls ==> !s.calls[s.lock.value].stage.LockChecked?
    case Lock(p) => p !in s.calls
    case Arrive(p) => p !in s.calls
    case _ => true
  }

  ghost predicate Enabled(s: State, a: Action) {
    Possible(s, a) && Timely(s, a)
  }

  function Advance(s: State, p: PodName, stage: Stage): State
    requires p in s.calls
  {
    s.(calls := s.calls[p := s.calls[p].(stage := stage)])
  }

  function WithPod(s: State, p: PodName, pod: Pod): State {
    s.(pods := s.pods[p := pod])
  }

  /** The call after it has taken its devices, on the snapshot and the Pod's list it works with. */
  function Serving(hw: Hardware, call: Call, devreq: Slot): Call
    requires call.stage.Snapshotted?
  {
    var r := Process(hw.cache, hw.unitOf, call.stage.view, ListOf(call.initial), devreq);
    if r.None? then call.(stage := Failing(None))
    else
      call.(request := devreq, grants := r.value.0,
        stage := if r.value.1 != map[] && Sliced(hw.cache, devreq) then ToPersist(r.value.1) else Succeeded(None))
  }

  ghost function Next(hw: Hardware, s: State, a: Action): State
    requires Possible(s, a)
  {
    match a
    case Arrive(p) => WithPod(s, p, Pod(false, Unbound, Blank))
    case Terminate(p) => WithPod(s, p, s.pods[p].(terminated := true))
    case Delete(p) => s.(pods := s.pods - {p})
    case Lock(p) => s.(lock := Some(p))
    case MarkAllocating(p) => WithPod(s, p, s.pods[p].(phase := Allocating))
    case Expire => s.(lock := None)
    case Restart => s.(calls := map[])
    case StartCall(p) =>
      var initial := s.pods[p].annotation;
      s.(calls := s.calls[p := Call(initial, [], [], if initial.Malformed? then Failing(None) else ListRead)])
    case TakeSnapshot(p, listing) =>
      var records := Records(s, listing);
      Advance(s, p, if RebuildSucceeds(hw, records) then Snapshotted(Union(AllCus(hw.cache, records))) else Failing(None))
    case TakeDevices(p, devreq) => s.(calls := s.calls[p := Serving(hw, s.calls[p], devreq)])
    case Abort(p) => Advance(s, p, Failing(None))
    case CheckLock(p) =>
      Advance(s, p, if s.lock == Some(p) then LockChecked(s.calls[p].stage.list) else Failing(None))
    case Patch(p, applied, reportsError) =>
      var list := s.calls[p].stage.list;
      var patched := if applied then WithPod(s, p, s.pods[p].(annotation := Entries(list))) else s;
      Advance(patched, p, if reportsError then Unconfirmed(list) else Succeeded(Some(list)))
    case ReadBack(p, readFails) =>
      var list := s.calls[p].stage.list;
      Advance(s, p, if !readFails && s.pods[p].annotation == Entries(list) then Succeeded(Some(list)) else Failing(Some(list)))
    case Finish(p, last, phasePatched, lockReleased) =>
      var ended := s.(calls := s.calls - {p});
      if s.calls[p].stage.Succeeded? && !last then ended
      else
        var phase := if s.calls[p].stage.Succeeded? then BindSuccess else BindFailed;
        var marked := if phasePatched then WithPod(ended, p, ended.pods[p].(phase := phase)) else ended;
        if lockReleased && marked.lock == Some(p) then marked.(lock := None) else marked
  }

  const INITIAL := State(map[], None, map[])

  /** A run: every action is possible where it happens. */
  ghost predicate Feasible(hw: Hardware, run: seq<Action>)
    decreases |run|, 0
  {
    run == [] || (Feasible(hw, run[..|run| - 1]) && Possible(StateAfter(hw, run[..|run| - 1]), run[|run| - 1]))
  }

  ghost function StateAfter(hw: Hardware, run: seq<Action>): State
    requires Feasible(hw, run)
    decreases |run|, 1
  {
    if run == [] then INITIAL else Next(hw, StateAfter(hw, run[..|run| - 1]), run[|run| - 1])
  }

  /** The actions of a run that came at a bad time. */
  ghost function Breaches(hw: Hardware, run: seq<Action>): seq<Action>
    requires Feasible(hw, run)
  {
    if run == [] then [] else
    var front, last := run[..|run| - 1], run[|run| - 1];
    Breaches(hw, front) + if Timely(StateAfter(hw, front), last) then [] else [last]
  }

  ghost predicate Legal(hw: Hardware, run: seq<Action>) {
    Feasible(hw, run) && Breaches(hw, run) == []
  }

  // ---------- the invariant ----------

  /** The CUs a Pod's annotation claims. */
  function Held(hw: Hardware, pod: Pod): CuMap {
    if pod.annotation.Entries? && Readable(hw.cache, pod.annotation.lists) then ListCus(hw.cache, pod.annotation.lists) else map[]
  }

  ghost predicate Apart(a: CuMap, b: CuMap) {
    forall uuid :: At(a, uuid) !! At(b, uuid)
  }

  /** Live Pods never share a CU. */
  ghost predicate Isolated(hw: Hardware, pods: map<PodName, Pod>) {
    forall p, q :: p in pods && q in pods && p != q && !pods[p].terminated && !pods[q].terminated ==>
      Apart(Held(hw, pods[p]), Held(hw, pods[q]))
  }

  predicate AnnotationOk(hw: Hardware, a: CuAnnotation) {
    a.Blank? || (a.Entries? && Decodable(hw.cache, a.lists))
  }

  /** Every live Pod's CUs are part of view. */
  ghost predicate Covers(hw: Hardware, pods: map<PodName, Pod>, view: CuMap) {
    forall q :: q in pods && !pods[q].terminated ==> Included(Held(hw, pods[q]), view)
  }

  /** list meets no live Pod other than p. */
  ghost predicate MeetsNoOther(hw: Hardware, pods: map<PodName, Pod>, p: PodName, list: map<string, string>)
    requires Readable(hw.cache, list)
  {
    forall q :: q in pods && q != p && !pods[q].terminated ==> Apart(ListCus(hw.cache, list), Held(hw, pods[q]))
  }

  /** What a call of p still relies on; own says that p owns the lock. */
  ghost predicate CallOk(hw: Hardware, pods: map<PodName, Pod>, own: bool, p: PodName, call: Call) {
    var a := if p in pods then pods[p].annotation else call.initial;
    match call.stage
    case ListRead => a == call.initial
    case Snapshotted(view) => a == call.initial && (own ==> Covers(hw, pods, view))
    case ToPersist(list) => a == call.initial && PersistOk(hw, pods, own, p, list)
    case LockChecked(list) => a == call.initial && own && PersistOk(hw, pods, own, p, list)
    case Unconfirmed(list) => p in pods ==> a == call.initial || a == Entries(list)
    case Succeeded(stored) => p in pods ==> a == if stored.Some? then Entries(stored.value) else call.initial
    case Failing(tried) => p in pods ==> a == call.initial || (tried.Some? && a == Entries(tried.value))
  }

  ghost predicate PersistOk(hw: Hardware, pods: map<PodName, Pod>, own: bool, p: PodName, list: map<string, string>) {
    && Decodable(hw.cache, list)
    && (own && p in pods && !pods[p].terminated ==> MeetsNoOther(hw, pods, p, list))
  }

  /** Request i got CUs of its own on a device it cuts in cores or in memory. */
  predicate IsSlice(hw: Hardware, request: Slot, grants: seq<Grant>, i: nat) {
    i < |request| && i < |grants| && grants[i].Exclusive? && CutsDevice(hw.cache, request[i])
  }

  /** Some device is cut, and list records everything that was handed out. */
  ghost predicate Keeps(hw: Hardware, request: Slot, grants: seq<Grant>, list: map<string, string>) {
    && Readable(hw.cache, list) && CutsSome(hw, request)
    && forall uuid :: GrantedTo(grants, uuid) <= At(ListCus(hw.cache, list), uuid)
  }

  /** The request cuts some device in cores or in memory. */
  predicate CutsSome(hw: Hardware, request: Slot) {
    exists i :: 0 <= i < |request| && CutsDevice(hw.cache, request[i])
  }

  /** What is known of the CUs a call has handed out. */
  ghost predicate ServedOk(hw: Hardware, call: Call) {
    && |call.grants| == |call.request|
    && (forall i :: 0 <= i < |call.grants| ==> SoundGrant(hw.cache, call.grants[i]))
    && match call.stage
       case ToPersist(list) => Keeps(hw, call.request, call.grants, list)
       case LockChecked(list) => Keeps(hw, call.request, call.grants, list)
       case Unconfirmed(list) => Keeps(hw, call.request, call.grants, list)
       case Succeeded(stored) => if stored.Some? then Keeps(hw, call.request, call.grants, stored.value) else forall i :: !IsSlice(hw, call.request, call.grants, i)
       case _ => true
  }

  ghost predicate Inv(hw: Hardware, s: State) {
    && (forall p :: p in s.pods ==> AnnotationOk(hw, s.pods[p].annotation))
    && Isolated(hw, s.pods)
    && (forall p :: p in s.calls ==> CallOk(hw, s.pods, s.lock == Some(p), p, s.calls[p]))
    && (forall p :: p in s.calls ==> AnnotationOk(hw, s.calls[p].initial) || s.calls[p].stage.Failing?)
    && (forall p :: p in s.calls ==> ServedOk(hw, s.calls[p]))
  }

  /** No device is registered under the empty UUID, which the annotation reader refuses. */
  predicate NamedDevices(hw: Hardware) {
    TotalCUs(hw.cache, "").None?
  }
}
