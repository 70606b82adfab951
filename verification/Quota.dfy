/** Quotas. A transaction locks the effective quota row, compares the live usage plus what it
    asks for with the limits, and writes before it lets the row go at commit. Deletions take no
    quota lock and may commit in between. */
module Quota {
  import opened Sizes
  import opened Wrappers

  datatype Limits = Limits(vms: nat, vcpu: nat, memoryMb: nat, storageGb: nat, snapshots: nat)

  datatype VmStatus = Active | Deleting | Removed

  datatype Vm = Vm(org: nat, project: nat, vcpu: nat, memoryMb: nat, disks: seq<nat>, snapshots: nat, status: VmStatus)

  /** Keyed by organization and, for a scoped row, project. */
  type Quotas = map<(nat, Option<nat>), Limits>

  /** The row that governs a project: its own, or the organization's default. */
  function EffectiveKey(quotas: Quotas, org: nat, project: nat): Option<(nat, Option<nat>)> {
    if (org, Some(project)) in quotas then Some((org, Some(project)))
    else if (org, None) in quotas then Some((org, None))
    else None
  }

  datatype Totals = Totals(vms: nat, vcpu: nat, memoryMb: nat, bytes: nat, wholeGb: nat, snapshots: nat)

  const ZERO := Totals(0, 0, 0, 0, 0, 0)

  function Plus(a: Totals, b: Totals): Totals {
    Totals(a.vms + b.vms, a.vcpu + b.vcpu, a.memoryMb + b.memoryMb, a.bytes + b.bytes,
           a.wholeGb + b.wholeGb, a.snapshots + b.snapshots)
  }

  /** A size's GiB if it is a whole number of them. */
  function Whole(size: nat): (gb: nat)
    ensures gb * GIB <= size && (size % GIB == 0 ==> gb * GIB == size)
  {
    if size % GIB == 0 then size / GIB else 0
  }

  /** The GiB in disks that are a whole number of them. */
  function WholeGb(sizes: seq<nat>): nat {
    if sizes == [] then 0 else WholeGb(sizes[..|sizes| - 1]) + Whole(sizes[|sizes| - 1])
  }

  predicate Counts(vm: Vm, org: nat, project: nat) {
    vm.org == org && vm.project == project && vm.status == Active
  }

  function Share(vm: Vm, org: nat, project: nat): Totals {
    if Counts(vm, org, project)
    then Totals(1, vm.vcpu, vm.memoryMb, Sum(vm.disks), WholeGb(vm.disks), vm.snapshots)
    else ZERO
  }

  function Shares(vms: seq<Vm>, org: nat, project: nat): (r: seq<Totals>)
    ensures |r| == |vms| && forall i :: 0 <= i < |vms| ==> r[i] == Share(vms[i], org, project)
  {
    seq(|vms|, i requires 0 <= i < |vms| => Share(vms[i], org, project))
  }

  function TotalTo(shares: seq<Totals>, n: nat): Totals
    requires n <= |shares|
  {
    if n == 0 then ZERO else Plus(TotalTo(shares, n - 1), shares[n - 1])
  }

  function Usage(vms: seq<Vm>, org: nat, project: nat): Totals {
    TotalTo(Shares(vms, org, project), |vms|)
  }

  lemma {:induction false} TotalSame(a: seq<Totals>, b: seq<Totals>, n: nat)
    requires n <= |a| && n <= |b| && forall i :: 0 <= i < n ==> a[i] == b[i]
    ensures TotalTo(a, n) == TotalTo(b, n)
    decreases n
  {
    if n > 0 {
      TotalSame(a, b, n - 1);
    }
  }

  /** Replacing one share trades it for the new one. */
  lemma {:induction false} TotalReplaced(s: seq<Totals>, i: nat, t: Totals, n: nat)
    requires i < n <= |s|
    ensures Plus(TotalTo(s[i := t], n), s[i]) == Plus(TotalTo(s, n), t)
    decreases n
  {
    if i == n - 1 {
      TotalSame(s[i := t], s, n - 1);
      PlusSwaps(TotalTo(s, n - 1), s[i], t);
    } else {
      TotalReplaced(s, i, t, n - 1);
      PlusCarries(TotalTo(s[i := t], n - 1), s[i], TotalTo(s, n - 1), t, s[n - 1]);
    }
  }

  lemma {:induction false} PlusSwaps(a: Totals, b: Totals, c: Totals)
    ensures Plus(Plus(a, b), c) == Plus(Plus(a, c), b)
  {
  }

  lemma {:induction false} PlusCarries(a: Totals, b: Totals, c: Totals, d: Totals, e: Totals)
    requires Plus(a, b) == Plus(c, d)
    ensures Plus(Plus(a, e), b) == Plus(Plus(c, e), d)
  {
  }

  lemma {:induction false} UsageSnoc(vms: seq<Vm>, vm: Vm, org: nat, project: nat)
    ensures Usage(vms + [vm], org, project) == Plus(Usage(vms, org, project), Share(vm, org, project))
  {
    TotalSame(Shares(vms + [vm], org, project), Shares(vms, org, project), |vms|);
  }

  // ---- What the figures are ----

  /** The machines of a project that are not being deleted. */
  function Live(vms: seq<Vm>, org: nat, project: nat): seq<Vm> {
    if vms == [] then []
    else
      var last := vms[|vms| - 1];
      Live(vms[..|vms| - 1], org, project)
      + (if last.org == org && last.project == project && last.status == Active then [last] else [])
  }

  function Vcpus(vms: seq<Vm>): nat {
    Sum(seq(|vms|, i requires 0 <= i < |vms| => vms[i].vcpu))
  }

  function Memory(vms: seq<Vm>): nat {
    Sum(seq(|vms|, i requires 0 <= i < |vms| => vms[i].memoryMb))
  }

  function Bytes(vms: seq<Vm>): nat {
    Sum(seq(|vms|, i requires 0 <= i < |vms| => Sum(vms[i].disks)))
  }

  function Snapshots(vms: seq<Vm>): nat {
    Sum(seq(|vms|, i requires 0 <= i < |vms| => vms[i].snapshots))
  }

  lemma {:induction false} SumSnoc(s: seq<nat>, x: nat)
    ensures Sum(s + [x]) == Sum(s) + x
  {
    assert (s + [x])[..|s|] == s;
  }

  lemma {:induction false} OneMore(vms: seq<Vm>, vm: Vm)
    ensures Vcpus(vms + [vm]) == Vcpus(vms) + vm.vcpu && Memory(vms + [vm]) == Memory(vms) + vm.memoryMb
    ensures Bytes(vms + [vm]) == Bytes(vms) + Sum(vm.disks) && Snapshots(vms + [vm]) == Snapshots(vms) + vm.snapshots
  {
    var all := vms + [vm];
    var vcpus := seq(|vms|, i requires 0 <= i < |vms| => vms[i].vcpu);
    assert seq(|all|, i requires 0 <= i < |all| => all[i].vcpu) == vcpus + [vm.vcpu];
    SumSnoc(vcpus, vm.vcpu);
    var memory := seq(|vms|, i requires 0 <= i < |vms| => vms[i].memoryMb);
    assert seq(|all|, i requires 0 <= i < |all| => all[i].memoryMb) == memory + [vm.memoryMb];
    SumSnoc(memory, vm.memoryMb);
    var bytes := seq(|vms|, i requires 0 <= i < |vms| => Sum(vms[i].disks));
    assert seq(|all|, i requires 0 <= i < |all| => Sum(all[i].disks)) == bytes + [Sum(vm.disks)];
    SumSnoc(bytes, Sum(vm.disks));
    var snapshots := seq(|vms|, i requires 0 <= i < |vms| => vms[i].snapshots);
    assert seq(|all|, i requires 0 <= i < |all| => all[i].snapshots) == snapshots + [vm.snapshots];
    SumSnoc(snapshots, vm.snapshots);
  }

  ghost predicate AddsUp(u: Totals, live: seq<Vm>) {
    && u.vms == |live| && u.vcpu == Vcpus(live) && u.memoryMb == Memory(live)
    && u.bytes == Bytes(live) && u.snapshots == Snapshots(live)
  }

  lemma {:induction false} AddsUpWithOneMore(u: Totals, live: seq<Vm>, vm: Vm)
    requires AddsUp(u, live)
    ensures AddsUp(Plus(u, Totals(1, vm.vcpu, vm.memoryMb, Sum(vm.disks), WholeGb(vm.disks), vm.snapshots)), live + [vm])
  {
    OneMore(live, vm);
  }

  /** Usage is, figure by figure, the sum over the project's machines that are not being deleted. */
  lemma {:induction false} UsageIsTheSum(vms: seq<Vm>, org: nat, project: nat)
    ensures AddsUp(Usage(vms, org, project), Live(vms, org, project))
    decreases |vms|
  {
    if vms == [] {
      assert Vcpus([]) == 0 && Memory([]) == 0 && Bytes([]) == 0 && Snapshots([]) == 0;
    } else {
      var init, last := vms[..|vms| - 1], vms[|vms| - 1];
      UsageIsTheSum(init, org, project);
      UsageSnoc(init, last, org, project);
      assert vms == init + [last];
      if last.org == org && last.project == project && last.status == Active {
        AddsUpWithOneMore(Usage(init, org, project), Live(init, org, project), last);
      } else {
        PlusZero(Usage(init, org, project));
        assert Live(init, org, project) + [] == Live(init, org, project);
      }
    }
  }

  lemma {:induction false} LiveSnoc(vms: seq<Vm>, vm: Vm, org: nat, project: nat)
    ensures Live(vms + [vm], org, project)
         == Live(vms, org, project) + (if vm.org == org && vm.project == project && vm.status == Active then [vm] else [])
  {
    assert (vms + [vm])[..|vms|] == vms;
  }

  /** `current_usage`: storage is reported in whole GiB, rounded down once over the total. */
  method CurrentUsage(vms: seq<Vm>, org: nat, project: nat)
    returns (count: nat, vcpu: nat, memoryMb: nat, storageGb: nat, snapshots: nat)
    ensures var live := Live(vms, org, project);
      && count == |live| && vcpu == Vcpus(live) && memoryMb == Memory(live)
      && storageGb == Bytes(live) / GIB && snapshots == Snapshots(live)
  {
    count, vcpu, memoryMb, snapshots := 0, 0, 0, 0;
    var bytes: nat := 0;
    for i := 0 to |vms|
      invariant var live := Live(vms[..i], org, project);
        && count == |live| && vcpu == Vcpus(live) && memoryMb == Memory(live)
        && bytes == Bytes(live) && snapshots == Snapshots(live)
    {
      assert vms[..i + 1] == vms[..i] + [vms[i]];
      var vm := vms[i];
      LiveSnoc(vms[..i], vm, org, project);
      OneMore(Live(vms[..i], org, project), vm);
      assert Live(vms[..i], org, project) + [] == Live(vms[..i], org, project);
      if vm.org == org && vm.project == project && vm.status == Active {
        count, vcpu, memoryMb := count + 1, vcpu + vm.vcpu, memoryMb + vm.memoryMb;
        var size := SumSizes(vm.disks);
        bytes := bytes + size;
        snapshots := snapshots + vm.snapshots;
      }
    }
    assert vms[..|vms|] == vms;
    storageGb := bytes / GIB;
  }

  datatype Request =
    | CreateVm(org: nat, project: nat, vcpu: nat, memoryMb: nat, disks: seq<nat>)
    | AttachDisk(vm: nat, sizeGb: nat)
    | CreateSnapshot(vm: nat)

  /** What is asked for, storage as the caller rounds it. */
  datatype Demand = Demand(vms: nat, vcpu: nat, memoryMb: nat, storageGb: nat, snapshots: nat)

  function DemandOf(r: Request): Demand {
    match r
    case CreateVm(_, _, vcpu, memoryMb, disks) => Demand(1, vcpu, memoryMb, Sum(DisksOrDefault(disks)) / GIB, 0)
    case AttachDisk(_, sizeGb) => Demand(0, 0, 0, sizeGb, 0)
    case CreateSnapshot(_) => Demand(0, 0, 0, 0, 1)
  }

  function DisksOrDefault(disks: seq<nat>): seq<nat> {
    if disks == [] then [20 * GIB] else disks
  }

  /** `assert_quota_available`: all five limits are compared, whatever is asked for. */
  predicate Admits(l: Limits, u: Totals, d: Demand) {
    && u.vms + d.vms <= l.vms
    && u.vcpu + d.vcpu <= l.vcpu
    && u.memoryMb + d.memoryMb <= l.memoryMb
    && u.bytes / GIB + d.storageGb <= l.storageGb
    && u.snapshots + d.snapshots <= l.snapshots
  }

  /** A transaction between its check and its commit. */
  datatype Pending = Pending(org: nat, project: nat, request: Request)

  datatype World = World(vms: seq<Vm>, pending: map<nat, Pending>)

  datatype Event =
    | Check(txn: nat, request: Request)
    | Commit(txn: nat)
    | Rollback(txn: nat)
    | MarkDeleting(vm: nat)
    | Remove(vm: nat)
    | DeleteSnapshot(vm: nat)
    | DetachDisk(vm: nat, disk: nat)

  predicate Applicable(vms: seq<Vm>, r: Request) {
    r.CreateVm? || r.vm < |vms|
  }

  function Scope(vms: seq<Vm>, r: Request): (nat, nat)
    requires Applicable(vms, r)
  {
    if r.CreateVm? then (r.org, r.project) else (vms[r.vm].org, vms[r.vm].project)
  }

  function KeyOf(quotas: Quotas, p: Pending): Option<(nat, Option<nat>)> {
    EffectiveKey(quotas, p.org, p.project)
  }

  predicate RowTaken(quotas: Quotas, w: World, org: nat, project: nat) {
    && EffectiveKey(quotas, org, project).Some?
    && exists t :: t in w.pending && KeyOf(quotas, w.pending[t]) == EffectiveKey(quotas, org, project)
  }

  predicate Passes(quotas: Quotas, vms: seq<Vm>, r: Request)
    requires Applicable(vms, r)
  {
    var (org, project) := Scope(vms, r);
    var key := EffectiveKey(quotas, org, project);
    key.Some? ==> Admits(quotas[key.value], Usage(vms, org, project), DemandOf(r))
  }

  function Written(vms: seq<Vm>, r: Request): seq<Vm>
    requires Applicable(vms, r)
  {
    match r
    case CreateVm(org, project, vcpu, memoryMb, disks) =>
      vms + [Vm(org, project, vcpu, memoryMb, DisksOrDefault(disks), 0, Active)]
    case AttachDisk(i, sizeGb) => vms[i := vms[i].(disks := vms[i].disks + [sizeGb * GIB])]
    case CreateSnapshot(i) => vms[i := vms[i].(snapshots := vms[i].snapshots + 1)]
  }

  /** A check that would have to wait for the row, or that fails, does nothing. */
  function Step(quotas: Quotas, w: World, e: Event): World {
    match e
    case Check(t, r) =>
      if t !in w.pending && Applicable(w.vms, r) && !RowTaken(quotas, w, Scope(w.vms, r).0, Scope(w.vms, r).1)
        && Passes(quotas, w.vms, r)
      then w.(pending := w.pending[t := Pending(Scope(w.vms, r).0, Scope(w.vms, r).1, r)])
      else w
    case Commit(t) =>
      if t in w.pending && Applicable(w.vms, w.pending[t].request)
      then World(Written(w.vms, w.pending[t].request), w.pending - {t})
      else w
    case Rollback(t) => w.(pending := w.pending - {t})
    case MarkDeleting(i) =>
      if i < |w.vms| && w.vms[i].status == Active then w.(vms := w.vms[i := w.vms[i].(status := Deleting)]) else w
    case Remove(i) => if i < |w.vms| then w.(vms := w.vms[i := w.vms[i].(status := Removed)]) else w
    case DeleteSnapshot(i) =>
      if i < |w.vms| && w.vms[i].snapshots > 0
      then w.(vms := w.vms[i := w.vms[i].(snapshots := w.vms[i].snapshots - 1)]) else w
    case DetachDisk(i, k) =>
      if i < |w.vms| then w.(vms := w.vms[i := w.vms[i].(disks := Without(w.vms[i].disks, k))]) else w
  }

  function Run(quotas: Quotas, es: seq<Event>): World {
    if es == [] then World([], map[]) else Step(quotas, Run(quotas, es[..|es| - 1]), es[|es| - 1])
  }

  // Sums.

  lemma {:induction false} WithoutEarlier(s: seq<nat>, k: nat)
    requires k < |s| - 1
    ensures var r := Without(s, k); r != [] && r[|r| - 1] == s[|s| - 1] && r[..|r| - 1] == Without(s[..|s| - 1], k)
  {
  }

  lemma {:induction false} SumRemoved(s: seq<nat>, k: nat)
    requires k < |s|
    ensures Sum(s) == Sum(Without(s, k)) + s[k] && WholeGb(s) == WholeGb(Without(s, k)) + Whole(s[k])
    decreases |s|
  {
    var n := |s| - 1;
    if k == n {
      assert Without(s, k) == s[..n];
    } else {
      SumRemoved(s[..n], k);
      WithoutEarlier(s, k);
    }
  }

  lemma {:induction false} WholeIsPart(s: seq<nat>)
    ensures WholeGb(s) * GIB <= Sum(s)
    decreases |s|
  {
    if s != [] {
      WholeIsPart(s[..|s| - 1]);
    }
  }

  lemma {:induction false} TotalIsSound(shares: seq<Totals>, n: nat)
    requires n <= |shares| && forall i :: 0 <= i < n ==> shares[i].wholeGb * GIB <= shares[i].bytes
    ensures TotalTo(shares, n).wholeGb * GIB <= TotalTo(shares, n).bytes
    decreases n
  {
    if n > 0 {
      TotalIsSound(shares, n - 1);
    }
  }

  lemma {:induction false} UsageIsSound(vms: seq<Vm>, org: nat, project: nat)
    ensures Usage(vms, org, project).wholeGb * GIB <= Usage(vms, org, project).bytes
  {
    var shares := Shares(vms, org, project);
    forall i | 0 <= i < |vms| ensures shares[i].wholeGb * GIB <= shares[i].bytes {
      WholeIsPart(vms[i].disks);
    }
    TotalIsSound(shares, |vms|);
  }

  /** Replacing one machine trades its share for the new one's. */
  lemma {:induction false} UsageReplaced(vms: seq<Vm>, i: nat, vm: Vm, org: nat, project: nat)
    requires i < |vms|
    ensures Plus(Usage(vms[i := vm], org, project), Share(vms[i], org, project))
         == Plus(Usage(vms, org, project), Share(vm, org, project))
  {
    var shares := Shares(vms, org, project);
    assert Shares(vms[i := vm], org, project) == shares[i := Share(vm, org, project)];
    TotalReplaced(shares, i, Share(vm, org, project), |vms|);
  }

  predicate AtMost(a: Totals, b: Totals) {
    && a.vms <= b.vms && a.vcpu <= b.vcpu && a.memoryMb <= b.memoryMb
    && a.bytes <= b.bytes && a.wholeGb <= b.wholeGb && a.snapshots <= b.snapshots
  }

  // The invariant.

  /** Within the limits, except that the GiB figure may be one too high; what whole-GiB disks
      alone take is within the limit. */
  predicate Within(l: Limits, u: Totals) {
    && u.vms <= l.vms && u.vcpu <= l.vcpu && u.memoryMb <= l.memoryMb && u.snapshots <= l.snapshots
    && u.bytes / GIB <= l.storageGb + 1
    && u.wholeGb <= l.storageGb
  }

  ghost predicate ScopeInv(quotas: Quotas, w: World, org: nat, project: nat) {
    var key := EffectiveKey(quotas, org, project);
    key.Some? ==>
      && Within(quotas[key.value], Usage(w.vms, org, project))
      && (forall t :: t in w.pending && w.pending[t].org == org && w.pending[t].project == project ==>
            Admits(quotas[key.value], Usage(w.vms, org, project), DemandOf(w.pending[t].request)))
  }

  ghost predicate PendingInv(quotas: Quotas, w: World) {
    && (forall t :: t in w.pending ==>
          && Applicable(w.vms, w.pending[t].request)
          && Scope(w.vms, w.pending[t].request) == (w.pending[t].org, w.pending[t].project))
    && (forall t, u :: t in w.pending && u in w.pending && t != u && KeyOf(quotas, w.pending[t]).Some? ==>
          KeyOf(quotas, w.pending[t]) != KeyOf(quotas, w.pending[u]))
  }

  ghost predicate Inv(quotas: Quotas, w: World) {
    PendingInv(quotas, w) && forall org, project :: ScopeInv(quotas, w, org, project)
  }

  lemma {:induction false} WholeFits(whole: nat, bytes: nat)
    requires whole * GIB <= bytes
    ensures whole <= bytes / GIB
  {
  }

  /** A total that grew by no more than an admitted demand is within the limits. */
  lemma {:induction false} GrowthFits(l: Limits, u: Totals, u': Totals, d: Demand, extraWhole: nat, extra: nat)
    requires Admits(l, u, d) && u.wholeGb * GIB <= u.bytes
    requires extraWhole * GIB <= extra && extra / GIB <= d.storageGb
    requires u'.vms <= u.vms + d.vms && u'.vcpu <= u.vcpu + d.vcpu && u'.memoryMb <= u.memoryMb + d.memoryMb
    requires u'.snapshots <= u.snapshots + d.snapshots
    requires u'.bytes <= u.bytes + extra && u'.wholeGb <= u.wholeGb + extraWhole
    ensures Within(l, u')
  {
    FloorOfSum(u.bytes, extra);
    assert u'.bytes / GIB <= (u.bytes + extra) / GIB;
    WholeFits(u.wholeGb, u.bytes);
    WholeFits(extraWhole, extra);
  }

  lemma {:induction false} CreateAdds(vms: seq<Vm>, r: Request, l: Limits)
    requires r.CreateVm? && Admits(l, Usage(vms, r.org, r.project), DemandOf(r))
    ensures Within(l, Usage(Written(vms, r), r.org, r.project))
  {
    var all := DisksOrDefault(r.disks);
    var u := Usage(vms, r.org, r.project);
    UsageIsSound(vms, r.org, r.project);
    UsageSnoc(vms, Vm(r.org, r.project, r.vcpu, r.memoryMb, all, 0, Active), r.org, r.project);
    WholeIsPart(all);
    GrowthFits(l, u, Usage(Written(vms, r), r.org, r.project), DemandOf(r), WholeGb(all), Sum(all));
  }

  lemma {:induction false} AttachAdds(vms: seq<Vm>, r: Request, l: Limits, org: nat, project: nat)
    requires r.AttachDisk? && Applicable(vms, r) && Admits(l, Usage(vms, org, project), DemandOf(r))
    ensures Within(l, Usage(Written(vms, r), org, project))
  {
    var size := r.sizeGb * GIB;
    var vm := vms[r.vm].(disks := vms[r.vm].disks + [size]);
    assert vm.disks[..|vm.disks| - 1] == vms[r.vm].disks;
    UsageIsSound(vms, org, project);
    UsageReplaced(vms, r.vm, vm, org, project);
    GrowthFits(l, Usage(vms, org, project), Usage(Written(vms, r), org, project), DemandOf(r), r.sizeGb, size);
  }

  lemma {:induction false} SnapshotAdds(vms: seq<Vm>, r: Request, l: Limits, org: nat, project: nat)
    requires r.CreateSnapshot? && Applicable(vms, r) && Admits(l, Usage(vms, org, project), DemandOf(r))
    ensures Within(l, Usage(Written(vms, r), org, project))
  {
    var vm := vms[r.vm].(snapshots := vms[r.vm].snapshots + 1);
    var u, u' := Usage(vms, org, project), Usage(vms[r.vm := vm], org, project);
    UsageIsSound(vms, org, project);
    UsageReplaced(vms, r.vm, vm, org, project);
    assert u'.bytes == u.bytes && u'.wholeGb == u.wholeGb;
    GrowthFits(l, u, u', Demand(0, 0, 0, 0, 1), 0, 0);
  }

  /** An admitted request leaves its own project within the limits. */
  lemma {:induction false} RequestAdds(vms: seq<Vm>, r: Request, l: Limits)
    requires Applicable(vms, r)
    requires Admits(l, Usage(vms, Scope(vms, r).0, Scope(vms, r).1), DemandOf(r))
    ensures Within(l, Usage(Written(vms, r), Scope(vms, r).0, Scope(vms, r).1))
  {
    match r
    case CreateVm(_, _, _, _, _) => CreateAdds(vms, r, l);
    case AttachDisk(_, _) => AttachAdds(vms, r, l, Scope(vms, r).0, Scope(vms, r).1);
    case CreateSnapshot(_) => SnapshotAdds(vms, r, l, Scope(vms, r).0, Scope(vms, r).1);
  }

  lemma {:induction false} CreateIsLocal(vms: seq<Vm>, r: Request, org: nat, project: nat)
    requires r.CreateVm? && (r.org, r.project) != (org, project)
    ensures Usage(Written(vms, r), org, project) == Usage(vms, org, project)
  {
    var vm := Vm(r.org, r.project, r.vcpu, r.memoryMb, DisksOrDefault(r.disks), 0, Active);
    ForeignAppended(vms, vm, org, project);
  }

  lemma {:induction false} ForeignAppended(vms: seq<Vm>, vm: Vm, org: nat, project: nat)
    requires Share(vm, org, project) == ZERO
    ensures Usage(vms + [vm], org, project) == Usage(vms, org, project)
  {
    UsageSnoc(vms, vm, org, project);
    PlusZero(Usage(vms, org, project));
  }

  lemma {:induction false} PlusZero(u: Totals)
    ensures Plus(u, ZERO) == u && Plus(ZERO, u) == u
  {
  }

  lemma {:induction false} AttachIsLocal(vms: seq<Vm>, r: Request, org: nat, project: nat)
    requires r.AttachDisk? && Applicable(vms, r) && (vms[r.vm].org, vms[r.vm].project) != (org, project)
    ensures Usage(Written(vms, r), org, project) == Usage(vms, org, project)
  {
    var vm := vms[r.vm].(disks := vms[r.vm].disks + [r.sizeGb * GIB]);
    assert Share(vm, org, project) == ZERO && Share(vms[r.vm], org, project) == ZERO;
    ForeignReplaced(vms, r.vm, vm, org, project);
  }

  lemma {:induction false} SnapshotIsLocal(vms: seq<Vm>, r: Request, org: nat, project: nat)
    requires r.CreateSnapshot? && Applicable(vms, r) && (vms[r.vm].org, vms[r.vm].project) != (org, project)
    ensures Usage(Written(vms, r), org, project) == Usage(vms, org, project)
  {
    var vm := vms[r.vm].(snapshots := vms[r.vm].snapshots + 1);
    assert Share(vm, org, project) == ZERO && Share(vms[r.vm], org, project) == ZERO;
    ForeignReplaced(vms, r.vm, vm, org, project);
  }

  /** A request leaves every other project's usage alone. */
  lemma {:induction false} RequestIsLocal(vms: seq<Vm>, r: Request, org: nat, project: nat)
    requires Applicable(vms, r) && Scope(vms, r) != (org, project)
    ensures Usage(Written(vms, r), org, project) == Usage(vms, org, project)
  {
    match r
    case CreateVm(_, _, _, _, _) => CreateIsLocal(vms, r, org, project);
    case AttachDisk(_, _) => AttachIsLocal(vms, r, org, project);
    case CreateSnapshot(_) => SnapshotIsLocal(vms, r, org, project);
  }

  lemma {:induction false} ForeignReplaced(vms: seq<Vm>, i: nat, vm: Vm, org: nat, project: nat)
    requires i < |vms| && Share(vm, org, project) == ZERO && Share(vms[i], org, project) == ZERO
    ensures Usage(vms[i := vm], org, project) == Usage(vms, org, project)
  {
    UsageReplaced(vms, i, vm, org, project);
  }

  predicate Deletes(e: Event) {
    e.MarkDeleting? || e.Remove? || e.DeleteSnapshot? || e.DetachDisk?
  }

  /** What a deletion makes of its machine. */
  function Shrunk(vm: Vm, e: Event): Vm
    requires Deletes(e)
  {
    match e
    case MarkDeleting(_) => if vm.status == Active then vm.(status := Deleting) else vm
    case Remove(_) => vm.(status := Removed)
    case DeleteSnapshot(_) => if vm.snapshots > 0 then vm.(snapshots := vm.snapshots - 1) else vm
    case DetachDisk(_, k) => vm.(disks := Without(vm.disks, k))
  }

  lemma {:induction false} DeletionShrinks(quotas: Quotas, w: World, e: Event)
    requires Deletes(e)
    ensures var vms := if e.vm < |w.vms| then w.vms[e.vm := Shrunk(w.vms[e.vm], e)] else w.vms;
      Step(quotas, w, e) == World(vms, w.pending)
  {
    if e.vm < |w.vms| && Shrunk(w.vms[e.vm], e) == w.vms[e.vm] {
      assert w.vms[e.vm := w.vms[e.vm]] == w.vms;
    }
  }

  lemma {:induction false} ShrunkHasLess(vm: Vm, e: Event, org: nat, project: nat)
    requires Deletes(e)
    ensures AtMost(Share(Shrunk(vm, e), org, project), Share(vm, org, project))
    ensures Shrunk(vm, e).org == vm.org && Shrunk(vm, e).project == vm.project
  {
    if e.DetachDisk? && e.disk < |vm.disks| {
      SumRemoved(vm.disks, e.disk);
    }
  }

  /** Deletions only lower usage. */
  lemma {:induction false} DeletionLowersUsage(quotas: Quotas, w: World, e: Event, org: nat, project: nat)
    requires Deletes(e)
    ensures var w' := Step(quotas, w, e);
      && w'.pending == w.pending && |w'.vms| == |w.vms|
      && AtMost(Usage(w'.vms, org, project), Usage(w.vms, org, project))
      && forall i :: 0 <= i < |w.vms| ==> w'.vms[i].org == w.vms[i].org && w'.vms[i].project == w.vms[i].project
  {
    DeletionShrinks(quotas, w, e);
    if e.vm < |w.vms| {
      ShrunkHasLess(w.vms[e.vm], e, org, project);
      SmallerShare(w.vms, e.vm, Shrunk(w.vms[e.vm], e), org, project);
    }
  }

  /** A machine that is deleted or removed no longer counts, a detached disk and a deleted snapshot
      count no longer, and nothing else changes. */
  lemma {:induction false} DeletionExactly(quotas: Quotas, w: World, e: Event)
    requires Deletes(e) && e.vm < |w.vms|
    ensures var vm, w' := w.vms[e.vm], Step(quotas, w, e);
      && |w'.vms| == |w.vms| && w'.pending == w.pending
      && (forall i :: 0 <= i < |w.vms| && i != e.vm ==> w'.vms[i] == w.vms[i])
      && (e.MarkDeleting? && vm.status == Active ==> w'.vms[e.vm] == vm.(status := Deleting))
      && (e.Remove? ==> w'.vms[e.vm] == vm.(status := Removed))
      && (e.DeleteSnapshot? && vm.snapshots > 0 ==> w'.vms[e.vm] == vm.(snapshots := vm.snapshots - 1))
      && (e.DetachDisk? && e.disk < |vm.disks| ==>
            && w'.vms[e.vm] == vm.(disks := vm.disks[..e.disk] + vm.disks[e.disk + 1..])
            && Sum(w'.vms[e.vm].disks) == Sum(vm.disks) - vm.disks[e.disk])
  {
    DeletionShrinks(quotas, w, e);
    if e.DetachDisk? && e.disk < |w.vms[e.vm].disks| {
      SumRemoved(w.vms[e.vm].disks, e.disk);
    }
  }

  lemma {:induction false} SmallerShare(vms: seq<Vm>, i: nat, vm: Vm, org: nat, project: nat)
    requires i < |vms| && AtMost(Share(vm, org, project), Share(vms[i], org, project))
    ensures AtMost(Usage(vms[i := vm], org, project), Usage(vms, org, project))
  {
    UsageReplaced(vms, i, vm, org, project);
  }

  lemma {:induction false} LowerUsageKeepsScope(quotas: Quotas, w: World, w': World, org: nat, project: nat)
    requires ScopeInv(quotas, w, org, project) && w'.pending == w.pending
    requires AtMost(Usage(w'.vms, org, project), Usage(w.vms, org, project))
    ensures ScopeInv(quotas, w', org, project)
  {
    var u, u' := Usage(w.vms, org, project), Usage(w'.vms, org, project);
    assert u'.bytes / GIB <= u.bytes / GIB;
  }

  lemma {:induction false} CommitKeepsScope(quotas: Quotas, w: World, t: nat, org: nat, project: nat)
    requires Inv(quotas, w) && t in w.pending
    ensures ScopeInv(quotas, Step(quotas, w, Commit(t)), org, project)
  {
    var w' := Step(quotas, w, Commit(t));
    var p := w.pending[t];
    assert ScopeInv(quotas, w, org, project);
    if (org, project) == (p.org, p.project) {
      var key := EffectiveKey(quotas, org, project);
      if key.Some? {
        RequestAdds(w.vms, p.request, quotas[key.value]);
        forall u | u in w'.pending ensures w.pending[u].org != org || w.pending[u].project != project {
          assert u != t;
        }
      }
    } else {
      RequestIsLocal(w.vms, p.request, org, project);
    }
  }

  lemma {:induction false} WrittenKeepsOwners(vms: seq<Vm>, r: Request)
    requires Applicable(vms, r)
    ensures |vms| <= |Written(vms, r)|
    ensures forall i :: 0 <= i < |vms| ==> Written(vms, r)[i].org == vms[i].org && Written(vms, r)[i].project == vms[i].project
  {
  }

  /** Machines keep their owners. */
  ghost predicate SameOwners(vms: seq<Vm>, vms': seq<Vm>) {
    |vms| <= |vms'| && forall i :: 0 <= i < |vms| ==> vms'[i].org == vms[i].org && vms'[i].project == vms[i].project
  }

  lemma {:induction false} StepKeepsOwners(quotas: Quotas, w: World, e: Event)
    ensures SameOwners(w.vms, Step(quotas, w, e).vms)
  {
    if Deletes(e) {
      DeletionLowersUsage(quotas, w, e, 0, 0);
    } else if e.Commit? && e.txn in w.pending && Applicable(w.vms, w.pending[e.txn].request) {
      WrittenKeepsOwners(w.vms, w.pending[e.txn].request);
    }
  }

  /** Only a check that passed the lock adds to the open transactions. */
  lemma {:induction false} StepOpens(quotas: Quotas, w: World, e: Event)
    ensures var w' := Step(quotas, w, e);
      forall t :: t in w'.pending && !(t in w.pending && w'.pending[t] == w.pending[t]) ==>
        && e == Check(t, w'.pending[t].request) && t !in w.pending
        && Applicable(w.vms, w'.pending[t].request)
        && Scope(w.vms, w'.pending[t].request) == (w'.pending[t].org, w'.pending[t].project)
        && !RowTaken(quotas, w, w'.pending[t].org, w'.pending[t].project)
    ensures var w' := Step(quotas, w, e);
      forall t :: t in w.pending && t in w'.pending ==> w'.pending[t] == w.pending[t]
  {
    if Deletes(e) {
      DeletionShrinks(quotas, w, e);
    }
  }

  lemma {:induction false} StepKeepsPending(quotas: Quotas, w: World, e: Event)
    requires PendingInv(quotas, w)
    ensures PendingInv(quotas, Step(quotas, w, e))
  {
    StepKeepsOwners(quotas, w, e);
    StepOpens(quotas, w, e);
  }

  lemma {:induction false} StepKeepsInv(quotas: Quotas, w: World, e: Event)
    requires Inv(quotas, w)
    ensures Inv(quotas, Step(quotas, w, e))
  {
    StepKeepsPending(quotas, w, e);
    var w' := Step(quotas, w, e);
    forall org, project ensures ScopeInv(quotas, w', org, project) {
      assert ScopeInv(quotas, w, org, project);
      if e.Commit? {
        if e.txn in w.pending {
          CommitKeepsScope(quotas, w, e.txn, org, project);
        }
      } else if e.Check? || e.Rollback? {
        assert w'.vms == w.vms;
      } else {
        DeletionLowersUsage(quotas, w, e, org, project);
        LowerUsageKeepsScope(quotas, w, w', org, project);
      }
    }
  }

  lemma {:induction false} RunKeepsInv(quotas: Quotas, es: seq<Event>)
    ensures Inv(quotas, Run(quotas, es))
    decreases |es|
  {
    if es == [] {
      forall org, project ensures ScopeInv(quotas, World([], map[]), org, project) {
        assert Usage([], org, project) == ZERO;
      }
    } else {
      RunKeepsInv(quotas, es[..|es| - 1]);
      StepKeepsInv(quotas, Run(quotas, es[..|es| - 1]), es[|es| - 1]);
    }
  }

  ghost predicate AllWhole(vms: seq<Vm>, org: nat, project: nat) {
    forall i, k :: 0 <= i < |vms| && Counts(vms[i], org, project) && 0 <= k < |vms[i].disks| ==>
      vms[i].disks[k] % GIB == 0
  }

  lemma {:induction false} TotalIsWhole(shares: seq<Totals>, n: nat)
    requires n <= |shares| && forall i :: 0 <= i < n ==> shares[i].wholeGb * GIB == shares[i].bytes
    ensures TotalTo(shares, n).wholeGb * GIB == TotalTo(shares, n).bytes
    decreases n
  {
    if n > 0 {
      TotalIsWhole(shares, n - 1);
    }
  }

  lemma {:induction false} AllWholeBytes(vms: seq<Vm>, org: nat, project: nat)
    requires AllWhole(vms, org, project)
    ensures Usage(vms, org, project).bytes == Usage(vms, org, project).wholeGb * GIB
  {
    var shares := Shares(vms, org, project);
    forall i | 0 <= i < |vms| ensures shares[i].wholeGb * GIB == shares[i].bytes {
      if Counts(vms[i], org, project) {
        AllWholeDisks(vms[i].disks);
      }
    }
    TotalIsWhole(shares, |vms|);
  }

  lemma {:induction false} AllWholeDisks(disks: seq<nat>)
    requires forall k :: 0 <= k < |disks| ==> disks[k] % GIB == 0
    ensures Sum(disks) == WholeGb(disks) * GIB
    decreases |disks|
  {
    if disks != [] {
      AllWholeDisks(disks[..|disks| - 1]);
    }
  }

  /** In every run under fixed quota rows, every project stays within its effective quota; the
      GiB figure may exceed it by one, and not at all if all its disks are whole GiB. */
  lemma {:induction false} QuotaHolds(quotas: Quotas, es: seq<Event>, org: nat, project: nat)
    requires (org, Some(project)) in quotas || (org, None) in quotas
    ensures var l := if (org, Some(project)) in quotas then quotas[(org, Some(project))] else quotas[(org, None)];
      var live := Live(Run(quotas, es).vms, org, project);
      && |live| <= l.vms && Vcpus(live) <= l.vcpu && Memory(live) <= l.memoryMb && Snapshots(live) <= l.snapshots
      && Bytes(live) / GIB <= l.storageGb + 1
      && ((forall vm :: vm in live ==> WholeDisks(vm)) ==> Bytes(live) / GIB <= l.storageGb)
  {
    RunKeepsInv(quotas, es);
    var w := Run(quotas, es);
    assert ScopeInv(quotas, w, org, project);
    UsageIsTheSum(w.vms, org, project);
    if forall vm :: vm in Live(w.vms, org, project) ==> WholeDisks(vm) {
      WholeLive(w.vms, org, project);
      AllWholeBytes(w.vms, org, project);
    }
  }

  ghost predicate WholeDisks(vm: Vm) {
    forall k :: 0 <= k < |vm.disks| ==> vm.disks[k] % GIB == 0
  }

  lemma {:induction false} WholeLive(vms: seq<Vm>, org: nat, project: nat)
    requires forall vm :: vm in Live(vms, org, project) ==> WholeDisks(vm)
    ensures AllWhole(vms, org, project)
  {
    forall i, k | 0 <= i < |vms| && Counts(vms[i], org, project) && 0 <= k < |vms[i].disks| ensures vms[i].disks[k] % GIB == 0 {
      LiveHolds(vms, i, org, project);
      assert WholeDisks(vms[i]);
    }
  }

  /** Every machine of the project that is not being deleted is among the live ones, and no other. */
  lemma {:induction false} LiveHolds(vms: seq<Vm>, i: nat, org: nat, project: nat)
    requires i < |vms|
    ensures vms[i].org == org && vms[i].project == project && vms[i].status == Active ==> vms[i] in Live(vms, org, project)
    ensures forall vm :: vm in Live(vms, org, project) ==> vm in vms && vm.org == org && vm.project == project && vm.status == Active
    decreases |vms|
  {
    var init := vms[..|vms| - 1];
    if init != [] {
      LiveHolds(init, if i < |init| then i else 0, org, project);
    }
  }

  /** A request is admitted exactly if no quota row applies or all five sums stay within it. */
  lemma {:induction false} AdmittedExactly(quotas: Quotas, vms: seq<Vm>, r: Request)
    requires Applicable(vms, r)
    ensures var org := if r.CreateVm? then r.org else vms[r.vm].org;
      var project := if r.CreateVm? then r.project else vms[r.vm].project;
      var live := Live(vms, org, project);
      var gb := match r
        case CreateVm(_, _, _, _, disks) => (if disks == [] then 20 else Sum(disks) / 0x4000_0000)
        case AttachDisk(_, sizeGb) => sizeGb
        case CreateSnapshot(_) => 0;
      Passes(quotas, vms, r) <==>
        || ((org, Some(project)) !in quotas && (org, None) !in quotas)
        || (var l := if (org, Some(project)) in quotas then quotas[(org, Some(project))] else quotas[(org, None)];
            && |live| + (if r.CreateVm? then 1 else 0) <= l.vms
            && Vcpus(live) + (if r.CreateVm? then r.vcpu else 0) <= l.vcpu
            && Memory(live) + (if r.CreateVm? then r.memoryMb else 0) <= l.memoryMb
            && Bytes(live) / 0x4000_0000 + gb <= l.storageGb
            && Snapshots(live) + (if r.CreateSnapshot? then 1 else 0) <= l.snapshots)
  {
    var (org, project) := Scope(vms, r);
    UsageIsTheSum(vms, org, project);
    DefaultDisk();
  }

  lemma {:induction false} DefaultDisk()
    ensures Sum([20 * GIB]) / 0x4000_0000 == 20
  {
    assert [20 * GIB][..0] == [];
  }

  /** The bytes a request adds to its project's usage; a machine being deleted is not counted. */
  function AddedBytes(vms: seq<Vm>, r: Request): nat
    requires Applicable(vms, r)
  {
    match r
    case CreateVm(_, _, _, _, disks) => Sum(DisksOrDefault(disks))
    case AttachDisk(i, sizeGb) => if vms[i].status == Active then sizeGb * GIB else 0
    case CreateSnapshot(_) => 0
  }

  lemma {:induction false} TotalsAdded(vms: seq<Vm>, r: Request)
    requires Applicable(vms, r)
    ensures var (org, project) := Scope(vms, r);
      var before, after := Usage(vms, org, project), Usage(Written(vms, r), org, project);
      && after.vms == before.vms + (if r.CreateVm? then 1 else 0)
      && after.vcpu == before.vcpu + (if r.CreateVm? then r.vcpu else 0)
      && after.memoryMb == before.memoryMb + (if r.CreateVm? then r.memoryMb else 0)
      && after.snapshots == before.snapshots + (if r.CreateSnapshot? && vms[r.vm].status == Active then 1 else 0)
  {
    var (org, project) := Scope(vms, r);
    match r
    case CreateVm(_, _, vcpu, memoryMb, disks) =>
      UsageSnoc(vms, Vm(org, project, vcpu, memoryMb, DisksOrDefault(disks), 0, Active), org, project);
    case AttachDisk(i, sizeGb) =>
      UsageReplaced(vms, i, vms[i].(disks := vms[i].disks + [sizeGb * GIB]), org, project);
    case CreateSnapshot(i) =>
      UsageReplaced(vms, i, vms[i].(snapshots := vms[i].snapshots + 1), org, project);
  }

  /** What a write adds to the project's figures other than bytes. */
  lemma {:induction false} FiguresAdded(vms: seq<Vm>, r: Request)
    requires Applicable(vms, r)
    ensures var (org, project) := Scope(vms, r);
      var before, after := Live(vms, org, project), Live(Written(vms, r), org, project);
      && |after| == |before| + (if r.CreateVm? then 1 else 0)
      && Vcpus(after) == Vcpus(before) + (if r.CreateVm? then r.vcpu else 0)
      && Memory(after) == Memory(before) + (if r.CreateVm? then r.memoryMb else 0)
      && Snapshots(after) == Snapshots(before) + (if r.CreateSnapshot? && vms[r.vm].status == Active then 1 else 0)
  {
    var (org, project) := Scope(vms, r);
    TotalsAdded(vms, r);
    UsageIsTheSum(vms, org, project);
    UsageIsTheSum(Written(vms, r), org, project);
  }

  lemma {:induction false} BytesAdded(vms: seq<Vm>, r: Request)
    requires Applicable(vms, r)
    ensures var (org, project) := Scope(vms, r);
      Usage(Written(vms, r), org, project).bytes == Usage(vms, org, project).bytes + AddedBytes(vms, r)
  {
    var (org, project) := Scope(vms, r);
    match r
    case CreateVm(_, _, vcpu, memoryMb, disks) =>
      UsageSnoc(vms, Vm(org, project, vcpu, memoryMb, DisksOrDefault(disks), 0, Active), org, project);
    case AttachDisk(i, sizeGb) =>
      var vm := vms[i].(disks := vms[i].disks + [sizeGb * GIB]);
      assert vm.disks[..|vm.disks| - 1] == vms[i].disks;
      UsageReplaced(vms, i, vm, org, project);
    case CreateSnapshot(i) =>
      UsageReplaced(vms, i, vms[i].(snapshots := vms[i].snapshots + 1), org, project);
  }

  lemma {:induction false} CarryDecides(u: nat, x: nat, limit: nat)
    requires u / GIB + x / GIB <= limit
    ensures (u + x) / GIB > limit <==> u / GIB + x / GIB == limit && u % GIB + x % GIB >= GIB
  {
    var carry := (u % GIB + x % GIB) / GIB;
    assert u + x == (u / GIB + x / GIB) * GIB + (u % GIB + x % GIB);
    assert (u + x) / GIB == u / GIB + x / GIB + carry;
  }

  /** In every run: a commit takes its project's GiB figure over the limit exactly if the figures
      before add up to the limit and the remainders to a GiB or more. */
  lemma {:induction false} StorageExceedsExactly(quotas: Quotas, es: seq<Event>, t: nat)
    requires var w := Run(quotas, es);
      t in w.pending && Applicable(w.vms, w.pending[t].request) && KeyOf(quotas, w.pending[t]).Some?
    ensures var w := Run(quotas, es);
      var p := w.pending[t];
      var l := quotas[KeyOf(quotas, p).value];
      var before, added := Usage(w.vms, p.org, p.project).bytes, AddedBytes(w.vms, p.request);
      Usage(Run(quotas, es + [Commit(t)]).vms, p.org, p.project).bytes / GIB > l.storageGb
      <==> before / GIB + added / GIB == l.storageGb && before % GIB + added % GIB >= GIB
  {
    var w := Run(quotas, es);
    var p := w.pending[t];
    RunKeepsInv(quotas, es);
    assert ScopeInv(quotas, w, p.org, p.project);
    RunSnoc(quotas, es, Commit(t));
    BytesAdded(w.vms, p.request);
    DemandCovers(w.vms, p.request);
    CarryDecides(Usage(w.vms, p.org, p.project).bytes, AddedBytes(w.vms, p.request), quotas[KeyOf(quotas, p).value].storageGb);
  }

  lemma {:induction false} DemandCovers(vms: seq<Vm>, r: Request)
    requires Applicable(vms, r)
    ensures AddedBytes(vms, r) / GIB <= DemandOf(r).storageGb
  {
  }

  lemma {:induction false} RunSnoc(quotas: Quotas, es: seq<Event>, e: Event)
    ensures Run(quotas, es + [e]) == Step(quotas, Run(quotas, es), e)
  {
    assert (es + [e])[..|es + [e]| - 1] == es;
  }

  lemma {:induction false} CheckAlone(quotas: Quotas, vms: seq<Vm>, r: Request)
    requires r.CreateVm? && Passes(quotas, vms, r)
    ensures Step(quotas, World(vms, map[]), Check(1, r)) == World(vms, map[1 := Pending(r.org, r.project, r)])
  {
  }

  lemma {:induction false} CommitAlone(quotas: Quotas, vms: seq<Vm>, r: Request)
    requires r.CreateVm?
    ensures Step(quotas, World(vms, map[1 := Pending(r.org, r.project, r)]), Commit(1)) == World(Written(vms, r), map[])
  {
    assert map[1 := Pending(r.org, r.project, r)] - {1} == map[];
  }

  /** A check and a commit by one transaction when nothing else is open. */
  lemma {:induction false} CheckThenCommit(quotas: Quotas, es: seq<Event>, r: Request)
    requires r.CreateVm? && Run(quotas, es).pending == map[] && Passes(quotas, Run(quotas, es).vms, r)
    ensures Run(quotas, es + [Check(1, r)] + [Commit(1)]) == World(Written(Run(quotas, es).vms, r), map[])
  {
    RunSnoc(quotas, es, Check(1, r));
    RunSnoc(quotas, es + [Check(1, r)], Commit(1));
    CheckAlone(quotas, Run(quotas, es).vms, r);
    CommitAlone(quotas, Run(quotas, es).vms, r);
  }

  lemma {:induction false} TwoMachines(quotas: Quotas, r: Request, vm: Vm) returns (es: seq<Event>)
    requires r.CreateVm? && Passes(quotas, [], r) && Passes(quotas, [vm], r)
    requires Written([], r) == [vm] && Written([vm], r) == [vm, vm]
    ensures Run(quotas, es) == World([vm, vm], map[])
  {
    var none: seq<Event> := [];
    CheckThenCommit(quotas, none, r);
    var once := none + [Check(1, r)] + [Commit(1)];
    CheckThenCommit(quotas, once, r);
    es := once + [Check(1, r)] + [Commit(1)];
  }

  lemma {:induction false} UsageOfTwo(vm: Vm)
    requires Counts(vm, vm.org, vm.project)
    ensures Usage([vm], vm.org, vm.project) == Share(vm, vm.org, vm.project)
    ensures Usage([vm, vm], vm.org, vm.project).bytes == 2 * Sum(vm.disks)
  {
    UsageSnoc([], vm, vm.org, vm.project);
    UsageSnoc([vm], vm, vm.org, vm.project);
    PlusZero(Share(vm, vm.org, vm.project));
    assert [] + [vm] == [vm] && [vm] + [vm] == [vm, vm];
  }

  /** The one extra GiB does occur: two machines of a GiB and a half each under a limit of two. */
  lemma {:induction false} StorageCanExceedByOne()
    ensures exists quotas: Quotas, es ::
      (0, None) in quotas && Usage(Run(quotas, es).vms, 0, 0).bytes / GIB == quotas[(0, None)].storageGb + 1
  {
    var quotas: Quotas := map[(0, None) := Limits(9, 9, 9, 2, 9)];
    var size := 0x6000_0000;
    var r := CreateVm(0, 0, 1, 1, [size]);
    var vm := Vm(0, 0, 1, 1, [size], 0, Active);
    assert [size][..0] == [] && Sum([size]) == size;
    UsageOfTwo(vm);
    var es := TwoMachines(quotas, r, vm);
    assert Usage(Run(quotas, es).vms, 0, 0).bytes == 3 * GIB;
  }
}
