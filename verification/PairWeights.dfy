/** Pair weights between GPU nodes: filled from topology links and, where no link was found, from the host path. */
module PairWeights {
  import opened Wrappers

  datatype Device = Device(id: string, nodeId: int, numaNode: int, devId: string)

  /** One io_links or p2p_links entry, in scan order. */
  datatype Link = Link(a: nat, b: nat, linkType: int)

  /** Weights by node pair, smaller node first. */
  type Weights = map<(int, int), int>

  const MIN_WEIGHT := 30
  const MAX_WEIGHT := 90

  function CalculatePairWeight(a: Device, b: Device, linkType: int): (w: int)
    ensures MIN_WEIGHT <= w <= MAX_WEIGHT
  {
    (if a.devId == b.devId then 10 else 20)
    + (if linkType == 11 then 10 else if linkType == 2 then 40 else 50)
    + (if a.numaNode == b.numaNode then 10 else 20)
  }

  /**
   * A weight is the least for partitions of one GPU on one NUMA node with an XGMI link, and grows by a fixed step for
   * each thing that sets the two further apart, whatever the others are.
   */
  lemma PairWeightSteps(a: Device, b: Device, linkType: int)
    ensures a.devId == b.devId && a.numaNode == b.numaNode ==> CalculatePairWeight(a, b, 11) == 30
    ensures CalculatePairWeight(a, b, 2) == CalculatePairWeight(a, b, 11) + 30
    ensures linkType != 11 && linkType != 2 ==> CalculatePairWeight(a, b, linkType) == CalculatePairWeight(a, b, 2) + 10
    ensures a.devId != b.devId ==>
      CalculatePairWeight(a, b, linkType) == CalculatePairWeight(a, b.(devId := a.devId), linkType) + 10
    ensures a.numaNode != b.numaNode ==>
      CalculatePairWeight(a, b, linkType) == CalculatePairWeight(a, b.(numaNode := a.numaNode), linkType) + 10
    ensures CalculatePairWeight(a, b, linkType) == CalculatePairWeight(b, a, linkType)
  {
  }

  function Key(a: int, b: int): (int, int) {
    if a < b then (a, b) else (b, a)
  }

  /** The weight of a pair; a missing entry reads as zero. */
  function Weight(weights: Weights, a: int, b: int): int {
    if Key(a, b) in weights then weights[Key(a, b)] else 0
  }

  predicate HasNode(devices: seq<Device>, node: int) {
    exists i :: 0 <= i < |devices| && devices[i].nodeId == node
  }

  /** The devices a link joins: the scan of the device list stops as soon as both ends are known. */
  function Ends(devices: seq<Device>, lo: int, hi: int, i: nat, fromDev: Option<Device>, toDev: Option<Device>)
    : (r: Option<(Device, Device)>)
    requires fromDev.Some? ==> fromDev.value.nodeId == lo
    requires toDev.Some? ==> toDev.value.nodeId == hi
    ensures r.Some? ==> r.value.0.nodeId == lo && r.value.1.nodeId == hi
    decreases |devices| - i
  {
    if i >= |devices| then None else
    var f := if devices[i].nodeId == lo then Some(devices[i]) else fromDev;
    var t := if devices[i].nodeId == hi then Some(devices[i]) else toDev;
    if f.Some? && t.Some? then Some((f.value, t.value)) else Ends(devices, lo, hi, i + 1, f, t)
  }

  /** The table after one link: the link of two registered nodes sets their entry, any other is ignored. */
  function AfterLink(devices: seq<Device>, weights: Weights, link: Link): Weights {
    var key := Key(link.a, link.b);
    var ends := Ends(devices, key.0, key.1, 0, None, None);
    if ends.None? then weights else weights[key := CalculatePairWeight(ends.value.0, ends.value.1, link.linkType)]
  }

  function AfterLinks(devices: seq<Device>, weights: Weights, links: seq<Link>): Weights {
    if links == [] then weights
    else AfterLink(devices, AfterLinks(devices, weights, links[..|links| - 1]), links[|links| - 1])
  }

  lemma {:induction false} EndsFound(devices: seq<Device>, lo: int, hi: int, i: nat, fromDev: Option<Device>, toDev: Option<Device>)
    requires fromDev.Some? ==> fromDev.value.nodeId == lo
    requires toDev.Some? ==> toDev.value.nodeId == hi
    requires i < |devices| || fromDev.None? || toDev.None?
    ensures Ends(devices, lo, hi, i, fromDev, toDev).Some? <==>
      && i < |devices|
      && (fromDev.Some? || exists k :: i <= k < |devices| && devices[k].nodeId == lo)
      && (toDev.Some? || exists k :: i <= k < |devices| && devices[k].nodeId == hi)
    decreases |devices| - i
  {
    if i < |devices| {
      var f := if devices[i].nodeId == lo then Some(devices[i]) else fromDev;
      var t := if devices[i].nodeId == hi then Some(devices[i]) else toDev;
      if f.None? || t.None? { EndsFound(devices, lo, hi, i + 1, f, t); }
    }
  }

  /** n is the shortest prefix of the devices that has both nodes, and x and y are its last devices on them. */
  predicate EndsAt(devices: seq<Device>, lo: int, hi: int, n: nat, x: nat, y: nat) {
    && x < n && y < n <= |devices| && devices[x].nodeId == lo && devices[y].nodeId == hi
    && (forall k :: x < k < n ==> devices[k].nodeId != lo)
    && (forall k :: y < k < n ==> devices[k].nodeId != hi)
    && !(HasNode(devices[..n - 1], lo) && HasNode(devices[..n - 1], hi))
  }

  /** What the search for the ends has found in the devices before i. */
  predicate FoundIn(devices: seq<Device>, node: int, i: nat, found: Option<Device>, x: nat) {
    && i <= |devices|
    && (found.None? ==> forall k :: 0 <= k < i ==> devices[k].nodeId != node)
    && (found.Some? ==> x < i && devices[x] == found.value && found.value.nodeId == node)
    && (found.Some? ==> forall k :: x < k < i ==> devices[k].nodeId != node)
  }

  lemma FoundNext(devices: seq<Device>, node: int, i: nat, found: Option<Device>, x: nat) returns (x': nat)
    requires i < |devices| && FoundIn(devices, node, i, found, x)
    ensures FoundIn(devices, node, i + 1, if devices[i].nodeId == node then Some(devices[i]) else found, x')
  {
    x' := if devices[i].nodeId == node then i else x;
  }

  lemma {:induction false} EndsFrom(devices: seq<Device>, lo: int, hi: int, i: nat, fromDev: Option<Device>, toDev: Option<Device>,
                                     x: nat, y: nat) returns (n: nat, x': nat, y': nat)
    requires FoundIn(devices, lo, i, fromDev, x) && FoundIn(devices, hi, i, toDev, y)
    requires fromDev.None? || toDev.None?
    requires Ends(devices, lo, hi, i, fromDev, toDev).Some?
    ensures EndsAt(devices, lo, hi, n, x', y')
    ensures Ends(devices, lo, hi, i, fromDev, toDev) == Some((devices[x'], devices[y']))
    decreases |devices| - i
  {
    var f := if devices[i].nodeId == lo then Some(devices[i]) else fromDev;
    var t := if devices[i].nodeId == hi then Some(devices[i]) else toDev;
    x' := FoundNext(devices, lo, i, fromDev, x);
    y' := FoundNext(devices, hi, i, toDev, y);
    if f.Some? && t.Some? {
      n := i + 1;
      var node := if fromDev.None? then lo else hi;
      forall k | 0 <= k < i ensures devices[..i][k].nodeId != node {}
    } else {
      n, x', y' := EndsFrom(devices, lo, hi, i + 1, f, t, x', y');
    }
  }

  /** The ends of a link are the last devices on its two nodes among the fewest devices that have both. */
  lemma EndsExact(devices: seq<Device>, lo: int, hi: int) returns (n: nat, x: nat, y: nat)
    requires HasNode(devices, lo) && HasNode(devices, hi)
    ensures EndsAt(devices, lo, hi, n, x, y)
    ensures Ends(devices, lo, hi, 0, None, None) == Some((devices[x], devices[y]))
  {
    EndsFound(devices, lo, hi, 0, None, None);
    n, x, y := EndsFrom(devices, lo, hi, 0, None, None, 0, 0);
  }

  /** An entry exists after the scan exactly for the old keys and the links between registered nodes. */
  lemma {:induction false} AfterLinksKeys(devices: seq<Device>, weights: Weights, links: seq<Link>, key: (int, int))
    ensures key in AfterLinks(devices, weights, links) <==>
      key in weights || exists k :: 0 <= k < |links| && Key(links[k].a, links[k].b) == key && HasNode(devices, key.0) && HasNode(devices, key.1)
  {
    if links != [] {
      var front, last := links[..|links| - 1], links[|links| - 1];
      AfterLinksKeys(devices, weights, front, key);
      var k := Key(last.a, last.b);
      EndsFound(devices, k.0, k.1, 0, None, None);
      assert Ends(devices, k.0, k.1, 0, None, None).Some? <==> HasNode(devices, k.0) && HasNode(devices, k.1);
    }
  }

  /** Of several links between the same two nodes the last one scanned gives the weight. */
  lemma {:induction false} LastLinkWins(devices: seq<Device>, weights: Weights, links: seq<Link>, k: nat)
    requires k < |links|
    requires forall l :: k < l < |links| ==> Key(links[l].a, links[l].b) != Key(links[k].a, links[k].b)
    requires Ends(devices, Key(links[k].a, links[k].b).0, Key(links[k].a, links[k].b).1, 0, None, None).Some?
    ensures var key := Key(links[k].a, links[k].b);
      var ends := Ends(devices, key.0, key.1, 0, None, None).value;
      && key in AfterLinks(devices, weights, links)
      && AfterLinks(devices, weights, links)[key] == CalculatePairWeight(ends.0, ends.1, links[k].linkType)
  {
    hide Ends, CalculatePairWeight;
    if k < |links| - 1 { LastLinkWins(devices, weights, links[..|links| - 1], k); }
  }

  ghost predicate InBounds(weights: Weights) {
    forall key :: key in weights ==> MIN_WEIGHT <= weights[key] <= MAX_WEIGHT
  }

  lemma {:induction false} AfterLinksInBounds(devices: seq<Device>, weights: Weights, links: seq<Link>)
    requires InBounds(weights)
    ensures InBounds(AfterLinks(devices, weights, links))
  {
    if links != [] { AfterLinksInBounds(devices, weights, links[..|links| - 1]); }
  }

  /** The device search of scanAndPopulatePeerWeights. */
  method FindEnds(devices: seq<Device>, lo: int, hi: int) returns (r: Option<(Device, Device)>)
    ensures r == Ends(devices, lo, hi, 0, None, None)
  {
    var fromDev: Option<Device>, toDev: Option<Device> := None, None;
    for idx := 0 to |devices|
      invariant fromDev.Some? ==> fromDev.value.nodeId == lo
      invariant toDev.Some? ==> toDev.value.nodeId == hi
      invariant Ends(devices, lo, hi, 0, None, None) == Ends(devices, lo, hi, idx, fromDev, toDev)
    {
      if devices[idx].nodeId == lo { fromDev := Some(devices[idx]); }
      if devices[idx].nodeId == hi { toDev := Some(devices[idx]); }
      if fromDev.Some? && toDev.Some? { return Some((fromDev.value, toDev.value)); }
    }
    return None;
  }

  method ScanAndPopulatePeerWeights(devices: seq<Device>, weights: Weights, links: seq<Link>) returns (out: Weights)
    ensures out == AfterLinks(devices, weights, links)
  {
    out := weights;
    assert links[..0] == [];
    for k := 0 to |links|
      invariant out == AfterLinks(devices, weights, links[..k])
    {
      assert links[..k + 1][..k] == links[..k];
      var link := links[k];
      var from_, to := if link.a < link.b then link.a else link.b, if link.a < link.b then link.b else link.a;
      var ends := FindEnds(devices, from_, to);
      if ends.Some? {
        out := out[(from_, to) := CalculatePairWeight(ends.value.0, ends.value.1, link.linkType)];
      }
    }
    assert links[..|links|] == links;
  }

  /** A pair of devices among the first i (and, with the i-th, among the first j) is on two nodes. */
  predicate SeenPair(devices: seq<Device>, i: nat, j: nat, key: (int, int)) {
    exists x, y :: 0 <= x < y < |devices| && (x < i || (x == i && y < j))
      && devices[x].nodeId != devices[y].nodeId && Key(devices[x].nodeId, devices[y].nodeId) == key
  }

  /** value is the host-path weight of two devices on the nodes of key. */
  ghost predicate HostPath(devices: seq<Device>, key: (int, int), value: int) {
    exists x, y :: 0 <= x < |devices| && 0 <= y < |devices| && devices[x].nodeId == key.0 && devices[y].nodeId == key.1
      && value == CalculatePairWeight(devices[x], devices[y], -1)
  }

  /**
   * An entry after the fill: a scanned weight is kept, another pair has an entry exactly when it is due, and that is
   * its host-path weight.
   */
  ghost predicate EntryOk(devices: seq<Device>, scanned: Weights, out: Weights, due: bool, key: (int, int)) {
    && (key in scanned ==> key in out && out[key] == scanned[key])
    && (key in out <==> key in scanned || due)
    && (key in out && key !in scanned ==> HostPath(devices, key, out[key]))
  }

  /** A pair of registered nodes, smaller first. */
  predicate NodePair(devices: seq<Device>, key: (int, int)) {
    key.0 < key.1 && HasNode(devices, key.0) && HasNode(devices, key.1)
  }

  /** What the whole initialisation leaves: link entries as scanned, host-path entries for all other node pairs, no more. */
  ghost predicate Complete(devices: seq<Device>, scanned: Weights, out: Weights) {
    forall key :: EntryOk(devices, scanned, out, NodePair(devices, key), key)
  }

  /** The host-path fill over all device pairs. */
  method FillHostPaths(devices: seq<Device>, scanned: Weights) returns (out: Weights)
    ensures Complete(devices, scanned, out)
  {
    out := scanned;
    NothingSeen(devices, scanned);
    hide FilledUpTo, CalculatePairWeight;
    for i := 0 to |devices|
      invariant FilledUpTo(devices, scanned, out, i, i + 1)
    {
      for j := i + 1 to |devices|
        invariant FilledUpTo(devices, scanned, out, i, j)
      {
        var from_, to := devices[i], devices[j];
        if from_.nodeId > to.nodeId { from_, to := to, from_; }
        if from_.nodeId == to.nodeId { FillSkip(devices, scanned, out, i, j); continue; }
        if (from_.nodeId, to.nodeId) in out { FillSkip(devices, scanned, out, i, j); continue; }
        FillNew(devices, scanned, out, i, j, from_, to);
        out := out[(from_.nodeId, to.nodeId) := CalculatePairWeight(from_, to, -1)];
      }
      NextRow(devices, scanned, out, i);
    }
    AllFilled(devices, scanned, out);
  }

  lemma NothingSeen(devices: seq<Device>, scanned: Weights)
    ensures FilledUpTo(devices, scanned, scanned, 0, 1)
  {
  }

  lemma AllFilled(devices: seq<Device>, scanned: Weights, out: Weights)
    requires FilledUpTo(devices, scanned, out, |devices|, |devices| + 1)
    ensures Complete(devices, scanned, out)
  {
    AllPairsSeen(devices);
    hide SeenPair, EntryOk, NodePair;
    forall k: (int, int) ensures EntryOk(devices, scanned, out, NodePair(devices, k), k) {
      assert EntryOk(devices, scanned, out, SeenPair(devices, |devices|, |devices| + 1, k), k);
    }
  }

  ghost predicate FilledUpTo(devices: seq<Device>, scanned: Weights, out: Weights, i: nat, j: nat) {
    forall key :: EntryOk(devices, scanned, out, SeenPair(devices, i, j, key), key)
  }

  lemma FillSkip(devices: seq<Device>, scanned: Weights, out: Weights, i: nat, j: nat)
    requires i < j < |devices| && FilledUpTo(devices, scanned, out, i, j)
    requires devices[i].nodeId == devices[j].nodeId || Key(devices[i].nodeId, devices[j].nodeId) in out
    ensures FilledUpTo(devices, scanned, out, i, j + 1)
  {
    hide HostPath, SeenPair;
    var next := j + 1;
    forall k: (int, int) ensures EntryOk(devices, scanned, out, SeenPair(devices, i, next, k), k) {
      SeenStep(devices, i, j, k);
      assert EntryOk(devices, scanned, out, SeenPair(devices, i, j, k), k);
    }
  }

  lemma FillNew(devices: seq<Device>, scanned: Weights, out: Weights, i: nat, j: nat, lo: Device, hi: Device)
    requires i < j < |devices| && FilledUpTo(devices, scanned, out, i, j)
    requires (lo, hi) == (devices[i], devices[j]) || (lo, hi) == (devices[j], devices[i])
    requires lo.nodeId < hi.nodeId && (lo.nodeId, hi.nodeId) !in out
    ensures FilledUpTo(devices, scanned, out[(lo.nodeId, hi.nodeId) := CalculatePairWeight(lo, hi, -1)], i, j + 1)
  {
    var key, w := (lo.nodeId, hi.nodeId), CalculatePairWeight(lo, hi, -1);
    assert HostPath(devices, key, w);
    hide HostPath, SeenPair, CalculatePairWeight;
    var next, filled := j + 1, out[key := w];
    forall k: (int, int) ensures EntryOk(devices, scanned, filled, SeenPair(devices, i, next, k), k) {
      SeenStep(devices, i, j, k);
      assert EntryOk(devices, scanned, out, SeenPair(devices, i, j, k), k);
    }
  }

  lemma SeenStep(devices: seq<Device>, i: nat, j: nat, k: (int, int))
    requires i < j < |devices|
    ensures SeenPair(devices, i, j + 1, k) <==>
      SeenPair(devices, i, j, k) || (devices[i].nodeId != devices[j].nodeId && k == Key(devices[i].nodeId, devices[j].nodeId))
  {
    if SeenPair(devices, i, j + 1, k) && !SeenPair(devices, i, j, k) {
      var a, b :| 0 <= a < b < |devices| && (a < i || (a == i && b < j + 1))
        && devices[a].nodeId != devices[b].nodeId && Key(devices[a].nodeId, devices[b].nodeId) == k;
      assert a == i && b == j;
    }
  }

  lemma NextRow(devices: seq<Device>, scanned: Weights, out: Weights, i: nat)
    requires i < |devices| && FilledUpTo(devices, scanned, out, i, |devices|)
    ensures FilledUpTo(devices, scanned, out, i + 1, i + 2)
  {
    hide EntryOk, SeenPair;
    var i', j' := i + 1, i + 2;
    forall k: (int, int) ensures EntryOk(devices, scanned, out, SeenPair(devices, i', j', k), k) {
      SeenRow(devices, i, k);
      assert EntryOk(devices, scanned, out, SeenPair(devices, i, |devices|, k), k);
    }
  }

  lemma SeenRow(devices: seq<Device>, i: nat, key: (int, int))
    requires i < |devices|
    ensures SeenPair(devices, i + 1, i + 2, key) <==> SeenPair(devices, i, |devices|, key)
  {
  }

  lemma AllPairsSeen(devices: seq<Device>)
    ensures forall key :: SeenPair(devices, |devices|, |devices| + 1, key) <==> NodePair(devices, key)
  {
    forall key: (int, int) ensures SeenPair(devices, |devices|, |devices| + 1, key) <==> NodePair(devices, key) {
      if NodePair(devices, key) {
        var x :| 0 <= x < |devices| && devices[x].nodeId == key.0;
        var y :| 0 <= y < |devices| && devices[y].nodeId == key.1;
        var a, b := if x < y then x else y, if x < y then y else x;
        assert Key(devices[a].nodeId, devices[b].nodeId) == key;
      }
    }
  }

  method FetchAllPairWeights(devices: seq<Device>, weights: Weights, links: seq<Link>) returns (r: Result<Weights>)
    ensures r.Failure? <==> devices == []
    ensures r.Success? ==> Complete(devices, AfterLinks(devices, weights, links), r.value)
  {
    if |devices| == 0 { return Failure("devices list is empty, unable to calculate pair wise weights"); }
    var scanned := ScanAndPopulatePeerWeights(devices, weights, links);
    var out := FillHostPaths(devices, scanned);
    return Success(out);
  }

  // ---------- what the finished table is ----------

  /** Every two distinct registered nodes have a weight, and every weight lies in 30..90. */
  lemma TotalAndBounded(devices: seq<Device>, links: seq<Link>, out: Weights)
    requires Complete(devices, AfterLinks(devices, map[], links), out)
    ensures forall a, b :: a != b && HasNode(devices, a) && HasNode(devices, b) ==> Key(a, b) in out
    ensures InBounds(out)
  {
    var scanned := AfterLinks(devices, map[], links);
    AfterLinksInBounds(devices, map[], links);
    forall key | key in out ensures MIN_WEIGHT <= out[key] <= MAX_WEIGHT {
      assert EntryOk(devices, scanned, out, NodePair(devices, key), key);
    }
    forall a, b | a != b && HasNode(devices, a) && HasNode(devices, b) ensures Key(a, b) in out {
      assert EntryOk(devices, scanned, out, NodePair(devices, Key(a, b)), Key(a, b));
    }
  }

  /** A pair no link joins weighs as much as the worst link between two such devices: the host is the costliest path. */
  lemma HostPathIsCostliest(devices: seq<Device>, links: seq<Link>, out: Weights, key: (int, int)) returns (x: nat, y: nat)
    requires Complete(devices, AfterLinks(devices, map[], links), out)
    requires key in out && key !in AfterLinks(devices, map[], links)
    ensures x < |devices| && y < |devices| && devices[x].nodeId == key.0 && devices[y].nodeId == key.1
    ensures forall linkType :: CalculatePairWeight(devices[x], devices[y], linkType) <= out[key]
    ensures exists linkType :: CalculatePairWeight(devices[x], devices[y], linkType) == out[key]
  {
    assert EntryOk(devices, AfterLinks(devices, map[], links), out, NodePair(devices, key), key);
    x, y :| x < |devices| && y < |devices| && devices[x].nodeId == key.0 && devices[y].nodeId == key.1
      && out[key] == CalculatePairWeight(devices[x], devices[y], -1);
  }

  /** Without links from a node to itself, the table is empty exactly when all devices are on one node. */
  lemma EmptyMeansOneNode(devices: seq<Device>, links: seq<Link>, out: Weights)
    requires Complete(devices, AfterLinks(devices, map[], links), out)
    requires forall k :: 0 <= k < |links| ==> links[k].a != links[k].b
    ensures out == map[] <==> forall i, j :: 0 <= i < |devices| && 0 <= j < |devices| ==> devices[i].nodeId == devices[j].nodeId
  {
    if out == map[] {
      forall i, j | 0 <= i < |devices| && 0 <= j < |devices| ensures devices[i].nodeId == devices[j].nodeId {
        var a, b := devices[i].nodeId, devices[j].nodeId;
        assert HasNode(devices, a) && HasNode(devices, b);
        assert EntryOk(devices, AfterLinks(devices, map[], links), out, NodePair(devices, Key(a, b)), Key(a, b));
      }
    } else {
      var key :| key in out;
      AfterLinksKeys(devices, map[], links, key);
      assert EntryOk(devices, AfterLinks(devices, map[], links), out, NodePair(devices, key), key);
      var x :| 0 <= x < |devices| && devices[x].nodeId == key.0;
      var y :| 0 <= y < |devices| && devices[y].nodeId == key.1;
    }
  }
}
