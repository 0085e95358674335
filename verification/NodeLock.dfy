/** The node lock annotation: who owns it, and its release under interference from other writers of the node. */
module NodeLock {
  import opened Text
  import opened Wrappers

  /** A Pod's identity. */
  datatype PodName = PodName(namespace: string, name: string)

  const NODE_LOCK_KEY := "hami.io/mutex.lock"

  function GeneratePodNamespaceName(pod: PodName, sep: string): string {
    pod.namespace + sep + pod.name
  }

  /** The owner a lock value names: "time,namespace,name", or a bare time without owner. timeOk is time.Parse succeeding. */
  function ParseNodeLock(timeOk: string -> bool, value: string): Option<PodName> {
    if ',' !in value then
      if timeOk(value) then Some(PodName("", "")) else None
    else
      var s := Split(value, ',');
      if |s| != 3 || !timeOk(s[0]) then None else Some(PodName(s[1], s[2]))
  }

  /**
   * Which values are locks: one part, a bare time without owner, or three, of which the first is a time and the others
   * name the owner. Every value is such a join of its comma-free parts.
   */
  lemma LockForms(timeOk: string -> bool, parts: seq<string>)
    requires |parts| > 0 && forall i :: 0 <= i < |parts| ==> ',' !in parts[i]
    ensures |parts| == 1 ==> ParseNodeLock(timeOk, Join(parts, ',')) == if timeOk(parts[0]) then Some(PodName("", "")) else None
    ensures |parts| == 3 ==>
      ParseNodeLock(timeOk, Join(parts, ',')) == if timeOk(parts[0]) then Some(PodName(parts[1], parts[2])) else None
    ensures |parts| != 1 && |parts| != 3 ==> ParseNodeLock(timeOk, Join(parts, ',')).None?
  {
    hide Split;
    SplitJoin(parts, ',');
    SplitFindsSeparator(Join(parts, ','), ',');
  }

  /** validateNodeLockOwner on the value of the lock annotation, None when the node carries no lock. */
  predicate ValidateNodeLockOwner(timeOk: string -> bool, lock: Option<string>, pod: PodName) {
    lock.Some? && ParseNodeLock(timeOk, lock.value) == Some(pod)
  }

  /** The owner test of ReleaseNodeLock. */
  predicate OwnedBySuffix(value: string, pod: PodName) {
    HasSuffix(value, "," + GeneratePodNamespaceName(pod, ","))
  }

  /** A Kubernetes name: not empty, no comma. */
  predicate ProperName(pod: PodName) {
    pod.name != "" && ',' !in pod.namespace && ',' !in pod.name
  }

  lemma {:induction false} SplitTail(s: string, sep: char, t: string)
    requires sep !in t
    ensures Split(s + [sep] + t, sep) == Split(s, sep) + [t]
  {
    var all := s + [sep] + t;
    if s == "" {
      SplitHead("", sep, t);
      SplitPlain(t, sep);
      assert all == "" + [sep] + t;
    } else {
      SplitTail(s[1..], sep, t);
      assert all[1..] == s[1..] + [sep] + t;
      var rest := Split(s[1..], sep);
      assert all[0] == s[0];
      if s[0] != sep { assert (rest + [t])[1..] == rest[1..] + [t]; }
    }
  }

  lemma SplitSuffixed(head: string, pod: PodName)
    requires ProperName(pod)
    ensures Split(head + ("," + GeneratePodNamespaceName(pod, ",")), ',') == Split(head, ',') + [pod.namespace, pod.name]
  {
    hide Split;
    SplitTail(head + [','] + pod.namespace, ',', pod.name);
    SplitTail(head, ',', pod.namespace);
    assert head + ("," + GeneratePodNamespaceName(pod, ",")) == (head + [','] + pod.namespace) + [','] + pod.name;
  }

  /** The suffix test looks at the last two comma-separated parts. */
  lemma SuffixIsLastTwoParts(value: string, pod: PodName)
    requires ProperName(pod)
    ensures OwnedBySuffix(value, pod) <==>
      var s := Split(value, ',');
      |s| >= 3 && s[|s| - 2] == pod.namespace && s[|s| - 1] == pod.name
  {
    hide Split, Join;
    var suffix := "," + GeneratePodNamespaceName(pod, ",");
    if OwnedBySuffix(value, pod) {
      SplitSuffixed(value[..|value| - |suffix|], pod);
      assert value == value[..|value| - |suffix|] + suffix;
    }
    var s := Split(value, ',');
    if |s| >= 3 && s[|s| - 2] == pod.namespace && s[|s| - 1] == pod.name {
      LastTwoParts(s);
      JoinSplit(value, ',');
      assert value == Join(s[..|s| - 2], ',') + suffix;
    }
  }

  lemma {:induction false} LastTwoParts(parts: seq<string>)
    requires |parts| >= 3
    ensures Join(parts, ',') == Join(parts[..|parts| - 2], ',') + "," + parts[|parts| - 2] + "," + parts[|parts| - 1]
  {
    if |parts| == 3 {
      assert parts[..1][0] == parts[0];
      assert Join(parts[1..], ',') == parts[1] + "," + Join(parts[1..][1..], ',');
      assert parts[1..][1..] == [parts[2]];
    } else {
      LastTwoParts(parts[1..]);
      assert parts[1..][..|parts| - 3] == parts[..|parts| - 2][1..];
    }
  }

  /**
   * On every lock value, the commit-time owner check accepts exactly when the release-time suffix test accepts and
   * the value has three parts with a readable time. So the two agree on every well-formed lock.
   */
  lemma OwnerTestsAgree(timeOk: string -> bool, value: string, pod: PodName)
    requires ProperName(pod)
    ensures ValidateNodeLockOwner(timeOk, Some(value), pod) <==>
      OwnedBySuffix(value, pod) && |Split(value, ',')| == 3 && timeOk(Split(value, ',')[0])
  {
    SuffixIsLastTwoParts(value, pod);
    SplitFindsSeparator(value, ',');
  }

  /** On "time,namespace,name" with comma-free parts both tests say whether the lock names this Pod. */
  lemma WellFormedLock(timeOk: string -> bool, time: string, owner: PodName, pod: PodName)
    requires ProperName(pod) && ',' !in time && timeOk(time) && ',' !in owner.namespace && ',' !in owner.name
    ensures var value := time + "," + owner.namespace + "," + owner.name;
      && (OwnedBySuffix(value, pod) <==> owner == pod)
      && (ValidateNodeLockOwner(timeOk, Some(value), pod) <==> owner == pod)
  {
    var value := time + "," + GeneratePodNamespaceName(owner, ",");
    hide Split;
    SplitPlain(owner.name, ',');
    SplitHead(owner.namespace, ',', owner.name);
    SplitHead(time, ',', owner.namespace + [','] + owner.name);
    assert value == time + [','] + (owner.namespace + [','] + owner.name);
    assert value == time + "," + owner.namespace + "," + owner.name;
    SuffixIsLastTwoParts(value, pod);
    OwnerTestsAgree(timeOk, value, pod);
  }

  /** A value with extra leading parts passes the release test of its last two, while no commit is accepted under it. */
  lemma TestsDifferOnExtraParts(timeOk: string -> bool, head: string, pod: PodName)
    requires ProperName(pod) && ',' in head
    ensures var value := head + ("," + pod.namespace + "," + pod.name);
      OwnedBySuffix(value, pod) && !ValidateNodeLockOwner(timeOk, Some(value), pod)
  {
    hide Split;
    var value := head + ("," + GeneratePodNamespaceName(pod, ","));
    assert value == head + ("," + pod.namespace + "," + pod.name);
    SplitSuffixed(head, pod);
    SplitFindsSeparator(head, ',');
    OwnerTestsAgree(timeOk, value, pod);
  }

  // ---------- the API server ----------

  /** One change of the node object: any other writer's update, or a lock removed by this plugin. */
  datatype Event = Overwritten(annotations: map<string, string>) | Unlocked(value: string)

  /** The annotations after a history of events. */
  function After(start: map<string, string>, events: seq<Event>): map<string, string> {
    if events == [] then start else
    var before := After(start, events[..|events| - 1]);
    match events[|events| - 1]
    case Overwritten(a) => a
    case Unlocked(_) => before - {NODE_LOCK_KEY}
  }

  /** Every lock this plugin removed was there with that value at that moment, and passed the owner test for pod. */
  predicate OnlyOwnLocks(start: map<string, string>, events: seq<Event>, pod: PodName) {
    events == [] ||
    var before := After(start, events[..|events| - 1]);
    && OnlyOwnLocks(start, events[..|events| - 1], pod)
    && (events[|events| - 1].Unlocked? ==>
          && NODE_LOCK_KEY in before
          && before[NODE_LOCK_KEY] == events[|events| - 1].value
          && OwnedBySuffix(before[NODE_LOCK_KEY], pod))
  }

  /** The stored node. Every write gives it a new resource version. */
  class NodeObject {
    var annotations: map<string, string>
    var version: nat
    ghost const start: map<string, string>
    ghost var history: seq<Event>

    ghost predicate Valid()
      reads this
    {
      annotations == After(start, history)
    }

    constructor (annotations: map<string, string>)
      ensures Valid() && this.annotations == annotations && start == annotations && history == []
    {
      this.annotations := annotations;
      this.version := 0;
      this.start := annotations;
      this.history := [];
    }

    /** Other clients' updates, in order. */
    method OtherWrites(writes: seq<map<string, string>>)
      requires Valid()
      modifies this
      ensures Valid()
      ensures version == old(version) + |writes|
      ensures writes == [] ==> annotations == old(annotations) && history == old(history)
      ensures forall pod :: OnlyOwnLocks(start, old(history), pod) ==> OnlyOwnLocks(start, history, pod)
    {
      for i := 0 to |writes|
        invariant Valid()
        invariant version == old(version) + i
        invariant i == 0 ==> annotations == old(annotations) && history == old(history)
        invariant forall pod :: OnlyOwnLocks(start, old(history), pod) ==> OnlyOwnLocks(start, history, pod)
      {
        annotations := writes[i];
        version := version + 1;
        ghost var was := history;
        history := history + [Overwritten(writes[i])];
        assert history[..|history| - 1] == was;
      }
    }

    /** A merge patch that sets the lock key to null and carries a resource version: refused on a version mismatch. */
    method PatchLockAway(resourceVersion: nat) returns (applied: bool)
      requires Valid()
      requires version == resourceVersion ==> NODE_LOCK_KEY in annotations
      modifies this
      ensures Valid()
      ensures applied <==> old(version) == resourceVersion
      ensures !applied ==> annotations == old(annotations) && history == old(history) && version == old(version)
      ensures applied ==> annotations == old(annotations) - {NODE_LOCK_KEY}
      ensures applied ==> history == old(history) + [Unlocked(old(annotations)[NODE_LOCK_KEY])]
    {
      if version != resourceVersion { return false; }
      ghost var was := history;
      history := history + [Unlocked(annotations[NODE_LOCK_KEY])];
      assert history[..|history| - 1] == was;
      annotations := annotations - {NODE_LOCK_KEY};
      version := version + 1;
      return true;
    }
  }

  /**
   * What the world does during one attempt: writes before the read, a failing read, writes between the read and the
   * patch, a patch that is lost on the way, a patch whose reply is lost after the server applied it.
   */
  datatype Attempt = Attempt(
    beforeRead: seq<map<string, string>>,
    readFails: bool,
    betweenReadAndPatch: seq<map<string, string>>,
    patchLost: bool,
    replyLost: bool)
  {
    predicate Quiet() {
      !readFails && betweenReadAndPatch == [] && !patchLost && !replyLost
    }
  }

  /** The retry budget of DefaultStrategy. */
  const RETRY_STEPS: nat := 5

  /** The node holds no lock, or, with the owner check on, one that is not of pod. */
  predicate Released(annotations: map<string, string>, pod: PodName, skipOwnerCheck: bool) {
    NODE_LOCK_KEY in annotations ==> !skipOwnerCheck && !OwnedBySuffix(annotations[NODE_LOCK_KEY], pod)
  }

  /** One attempt; true when it ends without error. */
  method TryRelease(node: NodeObject, pod: PodName, skipOwnerCheck: bool, world: Attempt) returns (done: bool)
    requires node.Valid()
    modifies node
    ensures node.Valid()
    ensures !skipOwnerCheck && old(OnlyOwnLocks(node.start, node.history, pod)) ==> OnlyOwnLocks(node.start, node.history, pod)
    ensures !done ==> !world.Quiet()
    ensures done ==> Released(node.annotations, pod, skipOwnerCheck)
  {
    node.OtherWrites(world.beforeRead);
    if world.readFails { return false; }
    var read, resourceVersion := node.annotations, node.version;
    if NODE_LOCK_KEY !in read { return true; }
    if !skipOwnerCheck && !OwnedBySuffix(read[NODE_LOCK_KEY], pod) { return true; }
    node.OtherWrites(world.betweenReadAndPatch);
    if world.patchLost { return false; }
    ghost var was := node.history;
    var applied := node.PatchLockAway(resourceVersion);
    assert applied ==> node.history[..|node.history| - 1] == was;
    return applied && !world.replyLost;
  }

  /**
   * Up to five attempts, each checking the owner on what it just read. Whatever other writers do, only locks owned
   * by pod are ever removed; on success the node holds no lock of pod at that moment; and it fails only when every
   * attempt was disturbed.
   */
  method ReleaseNodeLock(node: NodeObject, pod: PodName, skipOwnerCheck: bool, world: nat -> Attempt) returns (ok: bool)
    requires node.Valid()
    modifies node
    ensures node.Valid()
    ensures !skipOwnerCheck && old(OnlyOwnLocks(node.start, node.history, pod)) ==> OnlyOwnLocks(node.start, node.history, pod)
    ensures ok ==> Released(node.annotations, pod, skipOwnerCheck)
    ensures ok && skipOwnerCheck ==> "hami.io/mutex.lock" !in node.annotations
    ensures !ok ==> forall i: nat :: i < 5 ==> !world(i).Quiet()
  {
    for i := 0 to RETRY_STEPS
      invariant node.Valid()
      invariant !skipOwnerCheck && old(OnlyOwnLocks(node.start, node.history, pod)) ==> OnlyOwnLocks(node.start, node.history, pod)
      invariant forall j: nat :: j < i ==> !world(j).Quiet()
    {
      var done := TryRelease(node, pod, skipOwnerCheck, world(i));
      if done { return true; }
    }
    return false;
  }

  /** Whatever the history, a lock that names another Pod is only ever taken away by another writer. */
  lemma {:induction false} ForeignLockSurvives(start: map<string, string>, events: seq<Event>, pod: PodName, i: nat)
    requires OnlyOwnLocks(start, events, pod) && i < |events|
    requires var before := After(start, events[..i]);
      NODE_LOCK_KEY in before && !OwnedBySuffix(before[NODE_LOCK_KEY], pod)
    ensures events[i].Overwritten?
  {
    var n := |events| - 1;
    if i < n {
      assert events[..n][..i] == events[..i];
      ForeignLockSurvives(start, events[..n], pod, i);
    }
  }
}
