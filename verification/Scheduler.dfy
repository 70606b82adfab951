/** Placement of a machine on the node with the best weighted headroom. Scores are exact reals
    rounded to two decimals. */
module Scheduler {
  import opened Sizes
  import opened Wrappers
  import Nodes

  datatype VmRow = VmRow(id: nat, running: bool, vcpu: nat)

  datatype DiskRow = DiskRow(vm: nat, createdAt: int, bytes: nat)

  datatype Node = Node(
    admin: Nodes.AdminState,
    lastSeen: Option<int>,
    agentActive: Option<bool>,
    cpuThreads: nat,
    memoryTotalMb: nat,
    memoryAvailableMb: nat,
    storageTotalGb: nat,
    storageAvailableGb: nat,
    vms: seq<VmRow>,
    disks: seq<DiskRow>)

  datatype Request = Request(vcpu: nat, memoryMb: nat, diskGb: nat)

  const OVERCOMMIT := 4

  function AtLeastOne(n: nat): nat {
    if n < 1 then 1 else n
  }

  function UsedVcpu(vms: seq<VmRow>): nat {
    if vms == [] then 0
    else UsedVcpu(vms[..|vms| - 1]) + (if vms[|vms| - 1].running then vms[|vms| - 1].vcpu else 0)
  }

  /** The bytes of the disks created at or after a time. */
  function BytesSince(disks: seq<DiskRow>, since: int): nat {
    if disks == [] then 0
    else
      var last := disks[|disks| - 1];
      BytesSince(disks[..|disks| - 1], since) + (if last.createdAt >= since then last.bytes else 0)
  }

  function PendingBytes(n: Node): nat {
    if n.lastSeen.None? then 0 else BytesSince(n.disks, n.lastSeen.value)
  }

  function MaxVcpu(n: Node): nat {
    AtLeastOne(n.cpuThreads) * OVERCOMMIT
  }

  function FreeStorageGb(n: Node): int {
    n.storageAvailableGb - CeilingGb(PendingBytes(n))
  }

  predicate Feasible(n: Node, r: Request, threshold: int, now: int) {
    && Nodes.IsSchedulable(n.admin, n.lastSeen, n.agentActive, threshold, now)
    && MaxVcpu(n) - UsedVcpu(n.vms) >= r.vcpu
    && n.memoryAvailableMb >= r.memoryMb
    && FreeStorageGb(n) >= r.diskGb
  }

  function ExactScore(n: Node, r: Request): real {
    var cpu := (MaxVcpu(n) - UsedVcpu(n.vms) - r.vcpu) as real / MaxVcpu(n) as real;
    var memory := (n.memoryAvailableMb - r.memoryMb) as real / AtLeastOne(n.memoryTotalMb) as real;
    var storage := (FreeStorageGb(n) - r.diskGb) as real / AtLeastOne(n.storageTotalGb) as real;
    100.0 * (0.4 * cpu + 0.4 * memory + 0.2 * storage)
  }

  /** To the nearest integer, halves to the even one. */
  // ---- What is compared ----

  lemma {:induction false} SumSnoc(s: seq<nat>, x: nat)
    ensures Sum(s + [x]) == Sum(s) + x
  {
    assert (s + [x])[..|s|] == s;
  }

  /** The vCPUs of the machines that run. */
  function RunningVcpus(vms: seq<VmRow>): nat {
    Sum(seq(|vms|, i requires 0 <= i < |vms| => if vms[i].running then vms[i].vcpu else 0))
  }

  /** The bytes of the disks created since a time. */
  function BytesCreated(disks: seq<DiskRow>, since: int): nat {
    Sum(seq(|disks|, i requires 0 <= i < |disks| => if since <= disks[i].createdAt then disks[i].bytes else 0))
  }

  lemma {:induction false} UsedVcpuIsTheSum(vms: seq<VmRow>)
    ensures UsedVcpu(vms) == RunningVcpus(vms)
    decreases |vms|
  {
    if vms != [] {
      var init, last := vms[..|vms| - 1], vms[|vms| - 1];
      UsedVcpuIsTheSum(init);
      var share := if last.running then last.vcpu else 0;
      var shares := seq(|init|, i requires 0 <= i < |init| => if init[i].running then init[i].vcpu else 0);
      assert seq(|vms|, i requires 0 <= i < |vms| => if vms[i].running then vms[i].vcpu else 0) == shares + [share];
      SumSnoc(shares, share);
    }
  }

  lemma {:induction false} BytesSinceIsTheSum(disks: seq<DiskRow>, since: int)
    ensures BytesSince(disks, since) == BytesCreated(disks, since)
    decreases |disks|
  {
    if disks != [] {
      var init, last := disks[..|disks| - 1], disks[|disks| - 1];
      BytesSinceIsTheSum(init, since);
      var share := if since <= last.createdAt then last.bytes else 0;
      var shares := seq(|init|, i requires 0 <= i < |init| => if since <= init[i].createdAt then init[i].bytes else 0);
      assert seq(|disks|, i requires 0 <= i < |disks| => if since <= disks[i].createdAt then disks[i].bytes else 0) == shares + [share];
      SumSnoc(shares, share);
    }
  }

  lemma {:induction false} CeilingFits(available: int, bytes: nat, gb: nat)
    ensures available - CeilingGb(bytes) >= gb <==> bytes <= (available - gb) * 0x4000_0000
  {
  }

  /** A node is refused exactly for not being ONLINE and active, for too few vCPUs at four to a thread,
      for too little memory, or for too little storage after what was placed since the heartbeat. */
  lemma {:induction false} FeasibleExactly(n: Node, r: Request, threshold: int, now: int)
    ensures Feasible(n, r, threshold, now) <==>
      && n.admin == Nodes.Active && n.lastSeen.Some? && n.agentActive != Some(false)
      && now - n.lastSeen.value <= threshold && 2 * (now - n.lastSeen.value) <= threshold
      && RunningVcpus(n.vms) + r.vcpu <= 4 * (if n.cpuThreads == 0 then 1 else n.cpuThreads)
      && r.memoryMb <= n.memoryAvailableMb
      && BytesCreated(n.disks, n.lastSeen.value) <= (n.storageAvailableGb - r.diskGb) * 0x4000_0000
  {
    Nodes.StatusExactly(n.admin, n.lastSeen, n.agentActive, threshold, now);
    UsedVcpuIsTheSum(n.vms);
    if n.lastSeen.Some? {
      BytesSinceIsTheSum(n.disks, n.lastSeen.value);
      CeilingFits(n.storageAvailableGb, PendingBytes(n), r.diskGb);
    }
  }

  /** The score weighs what is left of vCPUs, memory and storage with 40, 40 and 20. */
  lemma {:induction false} ScoreExactly(n: Node, r: Request, pendingGb: nat)
    requires n.lastSeen.Some?
    requires (pendingGb - 1) * 0x4000_0000 < BytesCreated(n.disks, n.lastSeen.value) <= pendingGb * 0x4000_0000
    ensures var vcpus: nat := 4 * (if n.cpuThreads == 0 then 1 else n.cpuThreads);
      var memory: nat := if n.memoryTotalMb == 0 then 1 else n.memoryTotalMb;
      var storage: nat := if n.storageTotalGb == 0 then 1 else n.storageTotalGb;
      ExactScore(n, r) ==
        40.0 * ((vcpus - RunningVcpus(n.vms) - r.vcpu) as real / vcpus as real)
        + 40.0 * ((n.memoryAvailableMb - r.memoryMb) as real / memory as real)
        + 20.0 * ((n.storageAvailableGb - pendingGb - r.diskGb) as real / storage as real)
  {
    UsedVcpuIsTheSum(n.vms);
    BytesSinceIsTheSum(n.disks, n.lastSeen.value);
    assert CeilingGb(PendingBytes(n)) == pendingGb;
  }

  function RoundHalfEven(x: real): int {
    var below := x.Floor;
    var rest := x - below as real;
    if rest < 0.5 then below
    else if rest > 0.5 then below + 1
    else if below % 2 == 0 then below else below + 1
  }

  /** `round(x, 2)`. */
  function RoundCents(x: real): real {
    RoundHalfEven(100.0 * x) as real / 100.0
  }

  lemma {:induction false} RoundingErrorIsSmall(x: real)
    ensures -0.005 <= RoundCents(x) - x <= 0.005
  {
    var y := 100.0 * x;
    var cents := RoundHalfEven(y);
    assert -0.5 <= cents as real - y <= 0.5;
  }

  /** A rounded score has two decimals, the second of them even when two were equally near. */
  lemma {:induction false} RoundsToCents(x: real) returns (cents: int)
    ensures 100.0 * RoundCents(x) == cents as real
    ensures RoundCents(x) - x == 0.005 || x - RoundCents(x) == 0.005 ==> cents % 2 == 0
  {
    cents := RoundHalfEven(100.0 * x);
    assert RoundCents(x) - x == (cents as real - 100.0 * x) / 100.0;
  }

  /** A scored candidate: its place in the node list and its rounded score. */
  datatype Scored = Scored(index: nat, score: real)

  /** Python's stable sort by score, reversed: equal scores keep their order. */
  function SortDescending(s: seq<Scored>): (r: seq<Scored>)
    ensures |r| == |s|
  {
    if s == [] then [] else Insert(s[0], SortDescending(s[1..]))
  }

  function Insert(x: Scored, sorted: seq<Scored>): (r: seq<Scored>)
    ensures |r| == |sorted| + 1
  {
    if sorted == [] || sorted[0].score <= x.score then [x] + sorted
    else [sorted[0]] + Insert(x, sorted[1..])
  }

  predicate Before(a: Scored, b: Scored) {
    a.score > b.score || (a.score == b.score && a.index < b.index)
  }

  ghost predicate Ordered(s: seq<Scored>) {
    forall i, j :: 0 <= i < j < |s| ==> Before(s[i], s[j])
  }

  lemma {:induction false} InsertKeeps(x: Scored, sorted: seq<Scored>)
    ensures multiset(Insert(x, sorted)) == multiset([x]) + multiset(sorted)
    ensures forall y :: y in Insert(x, sorted) ==> y == x || y in sorted
    decreases |sorted|
  {
    if sorted != [] && sorted[0].score > x.score {
      InsertKeeps(x, sorted[1..]);
      assert sorted == [sorted[0]] + sorted[1..];
    }
  }

  lemma {:induction false} InsertSorts(x: Scored, sorted: seq<Scored>)
    requires Ordered(sorted) && forall k :: 0 <= k < |sorted| ==> x.index < sorted[k].index
    ensures Ordered(Insert(x, sorted))
    decreases |sorted|
  {
    if sorted != [] && sorted[0].score > x.score {
      var tail := Insert(x, sorted[1..]);
      InsertSorts(x, sorted[1..]);
      InsertKeeps(x, sorted[1..]);
      forall k | 0 <= k < |tail| ensures Before(sorted[0], tail[k]) {
        assert tail[k] in tail;
        if tail[k] != x {
          var j :| 0 <= j < |sorted[1..]| && sorted[1..][j] == tail[k];
          assert tail[k] == sorted[j + 1];
        }
      }
    }
  }

  /** The sort orders by falling score and then by place in the list, and loses nothing. */
  lemma {:induction false} SortIsStable(s: seq<Scored>)
    requires forall i, j :: 0 <= i < j < |s| ==> s[i].index < s[j].index
    ensures Ordered(SortDescending(s))
    ensures multiset(SortDescending(s)) == multiset(s)
    decreases |s|
  {
    if s != [] {
      var rest := SortDescending(s[1..]);
      SortIsStable(s[1..]);
      assert s == [s[0]] + s[1..];
      forall k | 0 <= k < |rest| ensures s[0].index < rest[k].index {
        assert rest[k] in multiset(rest);
        assert rest[k] in s[1..];
      }
      InsertSorts(s[0], rest);
      InsertKeeps(s[0], rest);
    }
  }

  /** `choice` is feasible, no feasible node's exact score beats it by more than a cent, and among
      equal rounded scores it is the earliest. */
  ghost predicate BestChoice(nodes: seq<Node>, r: Request, threshold: int, now: int, choice: nat) {
    && choice < |nodes|
    && Feasible(nodes[choice], r, threshold, now)
    && (forall k :: 0 <= k < |nodes| && Feasible(nodes[k], r, threshold, now) ==>
          && ExactScore(nodes[k], r) <= ExactScore(nodes[choice], r) + 0.01
          && RoundCents(ExactScore(nodes[k], r)) <= RoundCents(ExactScore(nodes[choice], r))
          && (k < choice ==> RoundCents(ExactScore(nodes[k], r)) < RoundCents(ExactScore(nodes[choice], r))))
  }

  ghost predicate Candidate(nodes: seq<Node>, r: Request, threshold: int, now: int, s: Scored) {
    && s.index < |nodes|
    && Feasible(nodes[s.index], r, threshold, now)
    && s.score == RoundCents(ExactScore(nodes[s.index], r))
  }

  method SelectNode(nodes: seq<Node>, r: Request, threshold: int, now: int) returns (choice: Option<nat>)
    ensures choice.None? <==> forall k :: 0 <= k < |nodes| ==> !Feasible(nodes[k], r, threshold, now)
    ensures choice.Some? ==> BestChoice(nodes, r, threshold, now, choice.value)
  {
    var scored: seq<Scored> := [];
    for i := 0 to |nodes|
      invariant forall s :: s in scored ==> s.index < i && Candidate(nodes, r, threshold, now, s)
      invariant forall j, k :: 0 <= j < k < |scored| ==> scored[j].index < scored[k].index
      invariant forall k :: 0 <= k < i && Feasible(nodes[k], r, threshold, now) ==>
        Scored(k, RoundCents(ExactScore(nodes[k], r))) in scored
    {
      if Feasible(nodes[i], r, threshold, now) {
        scored := scored + [Scored(i, RoundCents(ExactScore(nodes[i], r)))];
      }
    }
    if scored == [] {
      return None;
    }
    var sorted := SortDescending(scored);
    FirstIsBest(nodes, r, threshold, now, scored);
    return Some(sorted[0].index);
  }

  lemma {:induction false} FirstIsBest(nodes: seq<Node>, r: Request, threshold: int, now: int, scored: seq<Scored>)
    requires scored != []
    requires forall s :: s in scored ==> Candidate(nodes, r, threshold, now, s)
    requires forall j, k :: 0 <= j < k < |scored| ==> scored[j].index < scored[k].index
    requires forall k :: 0 <= k < |nodes| && Feasible(nodes[k], r, threshold, now) ==>
      Scored(k, RoundCents(ExactScore(nodes[k], r))) in scored
    ensures BestChoice(nodes, r, threshold, now, SortDescending(scored)[0].index)
  {
    var sorted := SortDescending(scored);
    SortIsStable(scored);
    assert sorted[0] in multiset(sorted);
    assert sorted[0] in scored;
    var best := sorted[0].index;
    RoundingErrorIsSmall(ExactScore(nodes[best], r));
    forall k | 0 <= k < |nodes| && Feasible(nodes[k], r, threshold, now)
      ensures RoundCents(ExactScore(nodes[k], r)) <= sorted[0].score
      ensures k < best ==> RoundCents(ExactScore(nodes[k], r)) < sorted[0].score
      ensures ExactScore(nodes[k], r) <= ExactScore(nodes[best], r) + 0.01
    {
      RoundingErrorIsSmall(ExactScore(nodes[k], r));
      var s := Scored(k, RoundCents(ExactScore(nodes[k], r)));
      assert s in multiset(sorted);
      var i :| 0 <= i < |sorted| && sorted[i] == s;
    }
  }

  // Storage between two heartbeats.

  /** A `create_vm` that has chosen the node and not committed yet. `overtaken` says that another one
      has committed to the node since. */
  datatype Placement = Placement(vm: nat, vcpu: nat, sizes: seq<nat>, overtaken: bool)

  datatype World = World(node: Node, open: map<nat, Placement>)

  /** What happens to a node's rows between two heartbeats: machines the scheduler puts there,
      starts and stops, and deletions, which take the disks along. Transactions under different
      quota rows overlap freely. */
  datatype Event =
    | Choose(txn: nat, vm: nat, vcpu: nat, memoryMb: nat, sizes: seq<nat>, now: int)
    | Commit(txn: nat, now: int)
    | Abandon(txn: nat)
    | SetRunning(vm: nat, running: bool)
    | Delete(vm: nat)

  function RequestOf(e: Event): Request
    requires e.Choose?
  {
    Request(e.vcpu, e.memoryMb, Sum(e.sizes) / GIB)
  }

  function NewDisks(vm: nat, sizes: seq<nat>, now: int): seq<DiskRow> {
    seq(|sizes|, i requires 0 <= i < |sizes| => DiskRow(vm, now, sizes[i]))
  }

  function DisksOfOthers(disks: seq<DiskRow>, vm: nat): seq<DiskRow> {
    if disks == [] then []
    else
      var last := disks[|disks| - 1];
      DisksOfOthers(disks[..|disks| - 1], vm) + (if last.vm == vm then [] else [last])
  }

  function OtherVms(vms: seq<VmRow>, vm: nat): seq<VmRow> {
    if vms == [] then []
    else OtherVms(vms[..|vms| - 1], vm) + (if vms[|vms| - 1].id == vm then [] else [vms[|vms| - 1]])
  }

  function VmsSet(vms: seq<VmRow>, vm: nat, running: bool): seq<VmRow> {
    seq(|vms|, i requires 0 <= i < |vms| => if vms[i].id == vm then vms[i].(running := running) else vms[i])
  }

  function Placed(n: Node, p: Placement, now: int): Node {
    n.(vms := n.vms + [VmRow(p.vm, false, p.vcpu)], disks := n.disks + NewDisks(p.vm, p.sizes, now))
  }

  /** The transactions that another one's commit leaves open. */
  function Overtaken(open: map<nat, Placement>, t: nat): map<nat, Placement> {
    map u | u in open && u != t :: open[u].(overtaken := true)
  }

  function Step(w: World, e: Event, threshold: int): World {
    match e
    case Choose(t, vm, vcpu, _, sizes, now) =>
      if t !in w.open && Feasible(w.node, RequestOf(e), threshold, now)
      then w.(open := w.open[t := Placement(vm, vcpu, sizes, false)]) else w
    case Commit(t, now) =>
      if t in w.open && w.node.lastSeen.Some? && w.node.lastSeen.value <= now
      then World(Placed(w.node, w.open[t], now), Overtaken(w.open, t)) else w
    case Abandon(t) => w.(open := w.open - {t})
    case SetRunning(vm, running) => w.(node := w.node.(vms := VmsSet(w.node.vms, vm, running)))
    case Delete(vm) =>
      w.(node := w.node.(vms := OtherVms(w.node.vms, vm), disks := DisksOfOthers(w.node.disks, vm)))
  }

  function Run(n: Node, es: seq<Event>, threshold: int): World {
    if es == [] then World(n, map[]) else Step(Run(n, es[..|es| - 1], threshold), es[|es| - 1], threshold)
  }

  lemma {:induction false} NewDisksCount(disks: seq<DiskRow>, vm: nat, sizes: seq<nat>, now: int, since: int)
    requires since <= now
    ensures BytesSince(disks + NewDisks(vm, sizes, now), since) == BytesSince(disks, since) + Sum(sizes)
    decreases |sizes|
  {
    if sizes == [] {
      assert disks + NewDisks(vm, sizes, now) == disks;
    } else {
      var n := |sizes| - 1;
      NewDisksCount(disks, vm, sizes[..n], now, since);
      var all := disks + NewDisks(vm, sizes, now);
      assert all[..|all| - 1] == disks + NewDisks(vm, sizes[..n], now);
    }
  }

  lemma {:induction false} DeletionFrees(disks: seq<DiskRow>, vm: nat, since: int)
    ensures BytesSince(DisksOfOthers(disks, vm), since) <= BytesSince(disks, since)
    decreases |disks|
  {
    if disks != [] {
      var n := |disks| - 1;
      DeletionFrees(disks[..n], vm, since);
      var kept := DisksOfOthers(disks[..n], vm);
      assert (kept + [disks[n]])[..|kept|] == kept;
      assert kept + [] == kept;
    }
  }

  /** A deletion takes exactly the machine's disks along. */
  lemma {:induction false} DeletionExactly(disks: seq<DiskRow>, vm: nat, d: DiskRow)
    ensures d in DisksOfOthers(disks, vm) <==> d in disks && d.vm != vm
    decreases |disks|
  {
    if disks != [] {
      DeletionExactly(disks[..|disks| - 1], vm, d);
      assert disks == disks[..|disks| - 1] + [disks[|disks| - 1]];
    }
  }

  /** No transaction commits that was overtaken. */
  predicate Orderly(n: Node, es: seq<Event>, threshold: int) {
    es == [] ||
    var init, e := es[..|es| - 1], es[|es| - 1];
    Orderly(n, init, threshold) &&
    (var open := Run(n, init, threshold).open; e.Commit? && e.txn in open ==> !open[e.txn].overtaken)
  }

  predicate AllWhole(sizes: seq<nat>) {
    forall k :: 0 <= k < |sizes| ==> sizes[k] % GIB == 0
  }

  predicate WholePlacements(es: seq<Event>) {
    forall i :: 0 <= i < |es| && es[i].Choose? ==> AllWhole(es[i].sizes)
  }

  lemma {:induction false} PlacedCounts(n: Node, p: Placement, now: int)
    requires n.lastSeen.Some? && n.lastSeen.value <= now
    ensures PendingBytes(Placed(n, p, now)) == PendingBytes(n) + Sum(p.sizes)
  {
    NewDisksCount(n.disks, p.vm, p.sizes, now, n.lastSeen.value);
  }

  lemma {:induction false} WholeSizes(sizes: seq<nat>)
    requires forall k :: 0 <= k < |sizes| ==> sizes[k] % GIB == 0
    ensures Sum(sizes) % GIB == 0
    decreases |sizes|
  {
    if sizes != [] {
      WholeSizes(sizes[..|sizes| - 1]);
    }
  }

  /** The node as its heartbeat left it, except for what was placed since; whoever chose it and was
      not overtaken still fits. */
  ghost predicate Inv(n: Node, w: World, whole: bool) {
    && w.node.lastSeen == n.lastSeen && w.node.storageAvailableGb == n.storageAvailableGb
    && PendingBytes(w.node) < (n.storageAvailableGb + 1) * GIB
    && (forall t :: t in w.open && !w.open[t].overtaken ==> FreeStorageGb(w.node) >= Sum(w.open[t].sizes) / GIB)
    && (whole ==> PendingBytes(w.node) <= n.storageAvailableGb * GIB && forall t :: t in w.open ==> AllWhole(w.open[t].sizes))
  }

  lemma {:induction false} CommitKeepsInv(n: Node, w: World, t: nat, now: int, threshold: int, whole: bool)
    requires Inv(n, w, whole) && t in w.open && !w.open[t].overtaken
    requires n.lastSeen.Some? && n.lastSeen.value <= now
    ensures Inv(n, Step(w, Commit(t, now), threshold), whole)
  {
    var p := w.open[t];
    PlacedCounts(w.node, p, now);
    PlacementFits(n.storageAvailableGb, PendingBytes(w.node), Sum(p.sizes));
    if whole {
      WholeSizes(p.sizes);
    }
  }

  lemma {:induction false} DeleteKeepsInv(n: Node, w: World, vm: nat, threshold: int, whole: bool)
    requires Inv(n, w, whole) && n.lastSeen.Some?
    ensures Inv(n, Step(w, Delete(vm), threshold), whole)
  {
    DeletionFrees(w.node.disks, vm, n.lastSeen.value);
    CeilingGrows(PendingBytes(Step(w, Delete(vm), threshold).node), PendingBytes(w.node));
  }

  lemma {:induction false} CeilingGrows(a: nat, b: nat)
    requires a <= b
    ensures CeilingGb(a) <= CeilingGb(b)
  {
  }

  lemma {:induction false} StepKeepsInv(n: Node, w: World, e: Event, threshold: int, whole: bool)
    requires Inv(n, w, whole) && n.lastSeen.Some?
    requires e.Commit? && e.txn in w.open ==> !w.open[e.txn].overtaken
    requires whole && e.Choose? ==> AllWhole(e.sizes)
    ensures Inv(n, Step(w, e, threshold), whole)
  {
    match e
    case Commit(t, now) =>
      if t in w.open && n.lastSeen.value <= now {
        CommitKeepsInv(n, w, t, now, threshold, whole);
      }
    case Delete(vm) => DeleteKeepsInv(n, w, vm, threshold, whole);
    case _ =>
  }

  lemma {:induction false} RunKeepsInv(n: Node, es: seq<Event>, threshold: int, whole: bool)
    requires n.lastSeen.Some? && PendingBytes(n) == 0 && Orderly(n, es, threshold) && (whole ==> WholePlacements(es))
    ensures Inv(n, Run(n, es, threshold), whole)
    decreases |es|
  {
    if es != [] {
      var init := es[..|es| - 1];
      assert forall i :: 0 <= i < |init| ==> init[i] == es[i];
      RunKeepsInv(n, init, threshold, whole);
      StepKeepsInv(n, Run(n, init, threshold), es[|es| - 1], threshold, whole);
    }
  }

  /** Between two heartbeats, whatever is placed and deleted without being overtaken, the bytes placed
      since the first stay under one GiB more than it reported free, and within it if all disks are
      whole GiB. */
  lemma {:induction false} StorageIsNotOvercommitted(n: Node, es: seq<Event>, threshold: int)
    requires n.lastSeen.Some? && PendingBytes(n) == 0 && Orderly(n, es, threshold)
    ensures var after := Run(n, es, threshold).node;
      && after.lastSeen == n.lastSeen && after.storageAvailableGb == n.storageAvailableGb
      && PendingBytes(after) < (n.storageAvailableGb + 1) * GIB
      && (WholePlacements(es) ==> PendingBytes(after) <= n.storageAvailableGb * GIB)
  {
    RunKeepsInv(n, es, threshold, false);
    if WholePlacements(es) {
      RunKeepsInv(n, es, threshold, true);
    }
  }

  /** Any commit, overtaken or not: with whole-GiB disks it stays within the reported space exactly if
      the check would still pass; with any sizes it stays under the extra GiB exactly if the GiB
      figures fit and, where they just fit, the remainders do not add up to a GiB. */
  lemma {:induction false} CommitFitsExactly(w: World, t: nat, now: int, threshold: int)
    requires t in w.open && w.node.lastSeen.Some? && w.node.lastSeen.value <= now
    ensures var after := PendingBytes(Step(w, Commit(t, now), threshold).node);
      var free, size := w.node.storageAvailableGb, Sum(w.open[t].sizes);
      && (AllWhole(w.open[t].sizes) ==> (after <= free * GIB <==> FreeStorageGb(w.node) >= size / GIB))
      && (after < (free + 1) * GIB <==>
            var gb := PendingBytes(w.node) / GIB + size / GIB;
            gb < free || (gb == free && PendingBytes(w.node) % GIB + size % GIB < GIB))
  {
    var p := w.open[t];
    PlacedCounts(w.node, p, now);
    if AllWhole(p.sizes) {
      WholeSizes(p.sizes);
      WholeFitsExactly(w.node.storageAvailableGb, PendingBytes(w.node), Sum(p.sizes));
    }
    UnderExactly(w.node.storageAvailableGb, PendingBytes(w.node), Sum(p.sizes));
  }

  lemma {:induction false} WholeFitsExactly(available: nat, pending: nat, size: nat)
    requires size % GIB == 0
    ensures pending + size <= available * GIB <==> available - CeilingGb(pending) >= size / GIB
  {
  }

  lemma {:induction false} UnderExactly(available: nat, pending: nat, size: nat)
    ensures var gb := pending / GIB + size / GIB;
      pending + size < (available + 1) * GIB <==>
        gb < available || (gb == available && pending % GIB + size % GIB < GIB)
  {
    assert pending + size == (pending / GIB + size / GIB) * GIB + (pending % GIB + size % GIB);
  }

  /** Two transactions that both choose a node before either commits fill it twice over, whatever
      space it has. */
  lemma {:induction false} OverlappingPlacementsOvercommit(n: Node, threshold: int, now: int)
    requires n.lastSeen.Some? && n.lastSeen.value <= now && PendingBytes(n) == 0 && n.storageAvailableGb > 0
    requires Feasible(n, Request(0, 0, n.storageAvailableGb), threshold, now)
    ensures var sizes := [n.storageAvailableGb * GIB];
      var chosen := Step(Step(World(n, map[]), Choose(1, 1, 0, 0, sizes, now), threshold), Choose(2, 2, 0, 0, sizes, now), threshold);
      var after := Step(Step(chosen, Commit(1, now), threshold), Commit(2, now), threshold);
      PendingBytes(after.node) == 2 * n.storageAvailableGb * GIB >= (n.storageAvailableGb + 1) * GIB
  {
    var sizes := [n.storageAvailableGb * GIB];
    assert sizes[..0] == [] && Sum(sizes) == n.storageAvailableGb * GIB;
    var p, q := Placement(1, 0, sizes, false), Placement(2, 0, sizes, false);
    var chosen := World(n, map[1 := p, 2 := q]);
    assert Step(World(n, map[]), Choose(1, 1, 0, 0, sizes, now), threshold) == World(n, map[1 := p]);
    assert Step(World(n, map[1 := p]), Choose(2, 2, 0, 0, sizes, now), threshold) == chosen;
    PlacedCounts(n, p, now);
    var once := Step(chosen, Commit(1, now), threshold);
    PlacedCounts(once.node, once.open[2], now);
  }

  /** One placement: pending bytes rounded up, the new ones rounded down. */
  lemma {:induction false} PlacementFits(available: nat, pending: nat, size: nat)
    requires available - CeilingGb(pending) >= size / GIB
    ensures pending + size < (available + 1) * GIB
    ensures size % GIB == 0 ==> pending + size <= available * GIB
  {
    assert size < (size / GIB + 1) * GIB;
  }
}
