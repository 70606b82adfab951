/** The provisioning saga: allocate, create the disks, define the domain, attach cloud-init,
    start; on any failure delete what was created. The agent keeps one record per VM. A call
    that reports failure either did nothing or was carried out and its reply was lost; a save that
    raises either wrote the row or did not; the lock's release may raise. What was created without
    the controller having it in its rows is a stray. */
module Provisioning {
  import opened Wrappers
  import Jobs
  import opened TaskRuns

  datatype VmStatus = Creating | Stopped | Running | Error

  datatype Phase =
    | Requested | Allocating | DiskCreated | NetworkCreated | DomainCreated
    | CloudInitAttached | Started | Ready | Errored

  /** The agent names a volume after the disk's UUID inside the pool of the disk. */
  datatype Volume = Volume(storagePath: string, name: string)

  datatype Disk = Disk(uuid: string, storagePath: string, volume: Option<Volume>)

  function VolumeOf(d: Disk): Volume {
    Volume(d.storagePath, d.uuid)
  }

  ghost function Planned(disks: seq<Disk>): set<Volume> {
    set d | d in disks :: VolumeOf(d)
  }

  /** The volumes the controller has recorded. */
  ghost function Recorded(disks: seq<Disk>): set<Volume> {
    set d | d in disks && d.volume.Some? :: d.volume.value
  }

  ghost predicate WellFormed(disks: seq<Disk>) {
    && (forall i, j :: 0 <= i < j < |disks| ==> disks[i].uuid != disks[j].uuid)
    && (forall i :: 0 <= i < |disks| && disks[i].volume.Some? ==> disks[i].volume.value == VolumeOf(disks[i]))
  }

  ghost predicate SamePlan(a: seq<Disk>, b: seq<Disk>) {
    && |a| == |b|
    && (forall i :: 0 <= i < |a| ==> a[i].uuid == b[i].uuid && a[i].storagePath == b[i].storagePath)
  }

  lemma {:induction false} SamePlanSamePlanned(a: seq<Disk>, b: seq<Disk>)
    requires SamePlan(a, b)
    ensures Planned(a) == Planned(b)
  {
    forall v | v in Planned(a) ensures v in Planned(b) {
      var i :| 0 <= i < |a| && VolumeOf(a[i]) == v;
      assert b[i] in b && VolumeOf(b[i]) == v;
    }
    forall v | v in Planned(b) ensures v in Planned(a) {
      var i :| 0 <= i < |b| && VolumeOf(b[i]) == v;
      assert a[i] in a && VolumeOf(a[i]) == v;
    }
  }

  /** `disks` are the rows, which the cleanup reads again; `phase` and `status` belong to the task's
      object, and the row has what was saved of them. */
  class Vm {
    var disks: seq<Disk>
    var phase: Phase
    var status: VmStatus
    var rowPhase: Phase
    var rowStatus: VmStatus
    const cloudInit: bool
    const autostart: bool
    const calm: bool

    constructor (disks: seq<Disk>, cloudInit: bool, autostart: bool, calm: bool)
      ensures this.disks == disks && this.cloudInit == cloudInit && this.autostart == autostart && this.calm == calm
      ensures phase == rowPhase == Requested && status == rowStatus == Creating
    {
      this.disks, this.cloudInit, this.autostart, this.calm := disks, cloudInit, autostart, calm;
      phase, status, rowPhase, rowStatus := Requested, Creating, Requested, Creating;
    }

    method SavePhase() returns (ok: bool)
      modifies this`rowPhase
      ensures calm ==> ok
      ensures ok ==> rowPhase == phase
      ensures rowPhase in {old(rowPhase), phase}
    {
      var failed := Trouble(calm);
      ok := !failed;
      var written: bool := *;
      if ok || written {
        rowPhase := phase;
      }
    }

    method SaveAll() returns (ok: bool)
      modifies this`rowPhase, this`rowStatus
      ensures calm ==> ok
      ensures ok ==> rowPhase == phase && rowStatus == status
    {
      var failed := Trouble(calm);
      ok := !failed;
      var written: bool := *;
      if ok || written {
        rowPhase, rowStatus := phase, status;
      }
    }
  }

  /** The hypervisor's side. Every call below is all-or-nothing; none fails while all is `calm`. */
  class Agent {
    const calm: bool
    var volumes: set<Volume>
    var domain: bool
    var running: bool
    var seed: bool    // the cloud-init ISO
    ghost var strayVolumes: set<Volume>
    ghost var strayDomain: bool

    constructor (volumes: set<Volume>, calm: bool)
      ensures this.volumes == volumes && !domain && !running && !seed && strayVolumes == {} && !strayDomain && this.calm == calm
    {
      this.calm := calm;
      this.volumes, domain, running, seed := volumes, false, false, false;
      strayVolumes, strayDomain := {}, false;
    }

    method CreateDisk(v: Volume) returns (ok: bool)
      modifies this`volumes, this`strayVolumes
      ensures calm ==> ok
      ensures ok ==> volumes == old(volumes) + {v} && strayVolumes == old(strayVolumes)
      ensures !ok ==>
        || (volumes == old(volumes) && strayVolumes == old(strayVolumes))
        || (volumes == old(volumes) + {v} && strayVolumes == old(strayVolumes) + {v})
    {
      var failed := Trouble(calm);
      ok := !failed;
      var carriedOut: bool := *;
      if ok || carriedOut {
        volumes := volumes + {v};
      }
      if !ok && carriedOut {
        strayVolumes := strayVolumes + {v};
      }
    }

    method DeleteDisk(v: Volume) returns (ok: bool)
      modifies this`volumes
      ensures calm ==> ok
      ensures ok ==> volumes == old(volumes) - {v}
      ensures volumes == old(volumes) || volumes == old(volumes) - {v}
    {
      var failed := Trouble(calm);
      ok := !failed;
      var carriedOut: bool := *;
      if ok || carriedOut {
        volumes := volumes - {v};
      }
    }

    method CreateDomain() returns (ok: bool)
      modifies this`domain, this`strayDomain
      ensures calm ==> ok
      ensures ok ==> domain && strayDomain == old(strayDomain)
      ensures !ok ==> (domain == old(domain) && strayDomain == old(strayDomain)) || (domain && strayDomain)
    {
      var failed := Trouble(calm);
      ok := !failed;
      var carriedOut: bool := *;
      if ok || carriedOut {
        domain := true;
      }
      if !ok && carriedOut {
        strayDomain := true;
      }
    }

    /** Does not touch the seed: nothing ever deletes it. */
    method DeleteDomain() returns (ok: bool)
      modifies this`domain, this`running
      ensures calm ==> ok
      ensures ok ==> !domain && !running
      ensures (domain == old(domain) && running == old(running)) || (!domain && !running)
    {
      var failed := Trouble(calm);
      ok := !failed;
      var carriedOut: bool := *;
      if ok || carriedOut {
        domain, running := false, false;
      }
    }

    method AttachCloudInit() returns (ok: bool)
      modifies this`seed
      ensures calm ==> ok
      ensures ok ==> seed
      ensures seed == old(seed) || seed
    {
      var failed := Trouble(calm);
      ok := !failed;
      var carriedOut: bool := *;
      seed := seed || ok || carriedOut;
    }

    method Start() returns (ok: bool)
      requires domain
      modifies this`running
      ensures calm ==> ok
      ensures ok ==> running
    {
      var failed := Trouble(calm);
      ok := !failed;
      var carriedOut: bool := *;
      running := running || ok || carriedOut;
    }
  }

  predicate DomainPhase(p: Phase) {
    p in {DomainCreated, CloudInitAttached, Started}
  }

  /** What is on the agent, in terms of what the controller has written down. `others` are
      the volumes of other machines. */
  ghost predicate Accounted(phase: Phase, disks: seq<Disk>, others: set<Volume>, volumes: set<Volume>, strays: set<Volume>,
    domain: bool, strayDomain: bool)
  {
    && WellFormed(disks)
    && others !! Planned(disks)
    && strays <= Planned(disks)
    && strays !! Recorded(disks)
    && volumes == others + Recorded(disks) + strays
    && domain == (DomainPhase(phase) || phase == Ready || strayDomain)
    && (strayDomain ==> !DomainPhase(phase) && phase != Ready)
  }

  predicate DefinedOnce(p: Phase) {
    DomainPhase(p) || p == Ready
  }

  ghost predicate Ledger(vm: Vm, agent: Agent, others: set<Volume>)
    reads vm, agent
  {
    && Accounted(vm.phase, vm.disks, others, agent.volumes, agent.strayVolumes, agent.domain, agent.strayDomain)
    && (agent.running ==> DomainPhase(vm.phase) || vm.phase == Ready)
  }

  /** One round of the disk loop: the call, then the row. */
  method CreateOneDisk(vm: Vm, agent: Agent, i: nat, ghost others: set<Volume>) returns (ok: bool)
    requires Ledger(vm, agent, others) && agent.strayVolumes == {} && i < |vm.disks| && vm.disks[i].volume.None?
    modifies vm`disks, agent`volumes, agent`strayVolumes
    ensures Ledger(vm, agent, others) && SamePlan(vm.disks, old(vm.disks))
    ensures forall k :: 0 <= k < |vm.disks| && k != i ==> vm.disks[k] == old(vm.disks)[k]
    ensures ok ==> agent.strayVolumes == {} && vm.disks[i].volume.Some?
    ensures agent.calm && vm.calm ==> ok
  {
    var disk := vm.disks[i];
    var v := VolumeOf(disk);
    assert v in Planned(vm.disks) && v !in Recorded(vm.disks) by {
      assert disk in vm.disks;
      RecordedElsewhere(vm.disks, i);
    }
    ok := agent.CreateDisk(v);
    if !ok {
      return;
    }
    var failed := Trouble(vm.calm);
    ok := !failed;
    var written: bool := *;
    if ok || written {
      ghost var before := vm.disks;
      vm.disks := vm.disks[i := disk.(volume := Some(v))];
      SamePlanSamePlanned(before, vm.disks);
      RecordOne(before, i);
    } else {
      agent.strayVolumes := {v};
    }
  }

  method CreateDisks(vm: Vm, agent: Agent, ghost others: set<Volume>) returns (ok: bool)
    requires Ledger(vm, agent, others) && agent.strayVolumes == {}
    requires forall i :: 0 <= i < |vm.disks| ==> vm.disks[i].volume.None?
    modifies vm`disks, agent`volumes, agent`strayVolumes
    ensures Ledger(vm, agent, others) && SamePlan(vm.disks, old(vm.disks))
    ensures ok ==> agent.strayVolumes == {} && forall i :: 0 <= i < |vm.disks| ==> vm.disks[i].volume.Some?
    ensures agent.calm && vm.calm ==> ok
  {
    var n := |vm.disks|;
    for i := 0 to n
      invariant Ledger(vm, agent, others) && agent.strayVolumes == {}
      invariant SamePlan(vm.disks, old(vm.disks))
      invariant forall k :: 0 <= k < n ==> (vm.disks[k].volume.Some? <==> k < i)
    {
      ok := CreateOneDisk(vm, agent, i, others);
      if !ok {
        return;
      }
    }
    return true;
  }

  /** A disk with no recorded volume has no other disk recording its volume either. */
  lemma {:induction false} RecordedElsewhere(disks: seq<Disk>, i: nat)
    requires WellFormed(disks) && i < |disks| && disks[i].volume.None?
    ensures VolumeOf(disks[i]) !in Recorded(disks)
  {
    forall j | 0 <= j < |disks| && disks[j].volume.Some?
      ensures disks[j].volume.value != VolumeOf(disks[i])
    {
      assert disks[j].uuid != disks[i].uuid;
    }
  }

  lemma {:induction false} RecordOne(disks: seq<Disk>, i: nat)
    requires i < |disks| && disks[i].volume.None?
    ensures var after := disks[i := disks[i].(volume := Some(VolumeOf(disks[i])))];
      Recorded(after) == Recorded(disks) + {VolumeOf(disks[i])}
  {
    var d := disks[i].(volume := Some(VolumeOf(disks[i])));
    var after := disks[i := d];
    forall v | v in Recorded(disks) ensures v in Recorded(after) {
      var j :| 0 <= j < |disks| && disks[j].volume.Some? && disks[j].volume.value == v;
      assert after[j] == disks[j] && after[j] in after;
    }
    forall v | v in Recorded(after) ensures v in Recorded(disks) + {VolumeOf(disks[i])} {
      var j :| 0 <= j < |after| && after[j].volume.Some? && after[j].volume.value == v;
      if j != i {
        assert disks[j] == after[j] && disks[j] in disks;
      }
    }
    assert after[i] == d && d in after;
  }

  datatype Problem = DomainCleanup | DiskCleanup(volume: Volume)

  // ---- What the compensation can undo ----

  /** The agent's volumes and domain once every request of the cleanup is confirmed: it asks for the
      domain only in the phases that say there is one, and for every recorded volume. */
  ghost function Undone(phase: Phase, disks: seq<Disk>, volumes: set<Volume>, domain: bool): (set<Volume>, bool) {
    (volumes - Recorded(disks), domain && !DomainPhase(phase))
  }

  /** A confirmed cleanup leaves nothing of the machine exactly if nothing was created unrecorded and
      the failure came before READY was set. */
  lemma {:induction false} CleanupIsCompleteExactly(phase: Phase, disks: seq<Disk>, others: set<Volume>, volumes: set<Volume>,
    strays: set<Volume>, domain: bool, strayDomain: bool)
    requires Accounted(phase, disks, others, volumes, strays, domain, strayDomain)
    ensures Undone(phase, disks, volumes, domain) == (others, false) <==> strays == {} && !strayDomain && phase != Ready
  {
    RecordedIsPlanned(disks);
    assert volumes - Recorded(disks) == others + strays;
    if strays == {} {
      assert others + strays == others;
    } else {
      var v :| v in strays;
      assert v in others + strays && v !in others;
    }
  }

  lemma {:induction false} RecordedIsPlanned(disks: seq<Disk>)
    requires WellFormed(disks)
    ensures Recorded(disks) <= Planned(disks)
  {
    forall v | v in Recorded(disks) ensures v in Planned(disks) {
      var i :| 0 <= i < |disks| && disks[i].volume == Some(v);
      assert disks[i] in disks;
    }
  }

  /** A machine that was ready when the save or the lock's release failed loses its disk and keeps its
      domain, and nobody is told. */
  lemma {:induction false} ReadyMachineLosesItsDisk(disk: Disk)
    requires disk.volume == Some(VolumeOf(disk))
    ensures Accounted(Ready, [disk], {}, {VolumeOf(disk)}, {}, true, false)
    ensures Undone(Ready, [disk], {VolumeOf(disk)}, true) == ({}, true)
  {
    assert disk in [disk];
    assert Recorded([disk]) == {VolumeOf(disk)};
    assert {VolumeOf(disk)} - Recorded([disk]) == {};
  }

  /** A volume whose row could not be saved stays behind. */
  lemma {:induction false} UnsavedVolumeStaysBehind(disk: Disk)
    requires disk.volume.None?
    ensures Accounted(Allocating, [disk], {}, {VolumeOf(disk)}, {VolumeOf(disk)}, false, false)
    ensures Undone(Allocating, [disk], {VolumeOf(disk)}, false) == ({VolumeOf(disk)}, false)
  {
    assert disk in [disk];
    assert Recorded([disk]) == {};
    assert {VolumeOf(disk)} - Recorded([disk]) == {VolumeOf(disk)};
  }

  /** Nothing of other machines is touched; what the controller had recorded and is still there
      is named in a problem, unless it is the domain of a machine that was `ready`, which is kept and
      never named; without problems only strays and that domain are left. */
  ghost predicate LeftoversReported(agent: Agent, others: set<Volume>, problems: seq<Problem>, ready: bool)
    reads agent
  {
    && others + agent.strayVolumes <= agent.volumes && others !! agent.strayVolumes
    && (forall v :: v in agent.volumes - others - agent.strayVolumes ==> DiskCleanup(v) in problems)
    && (ready ==> agent.domain && DomainCleanup !in problems)
    && (!ready && ((agent.domain && !agent.strayDomain) || agent.running) ==> DomainCleanup in problems)
    && (problems == [] ==>
          && agent.volumes == others + agent.strayVolumes
          && agent.domain == (ready || agent.strayDomain) && (agent.running ==> ready))
  }

  method CleanupDomain(vm: Vm, agent: Agent, ghost others: set<Volume>) returns (problems: seq<Problem>)
    requires Ledger(vm, agent, others)
    modifies agent`domain, agent`running
    ensures problems == [] || problems == [DomainCleanup]
    ensures vm.phase == Ready ==> problems == [] && agent.domain && agent.running == old(agent.running)
    ensures vm.phase != Ready && problems == [] ==> agent.domain == agent.strayDomain && !agent.running
    ensures agent.calm ==> problems == []
  {
    problems := [];
    if DomainPhase(vm.phase) {
      var ok := agent.DeleteDomain();
      if !ok {
        problems := [DomainCleanup];
      }
    }
  }

  /** Best effort: every recorded resource is asked to go away, and every request that was
      not confirmed is kept as a problem, which the caller turns into an event. */
  method CleanupPartialVm(vm: Vm, agent: Agent, ghost others: set<Volume>) returns (problems: seq<Problem>)
    requires Ledger(vm, agent, others)
    modifies agent`volumes, agent`domain, agent`running
    ensures LeftoversReported(agent, others, problems, vm.phase == Ready)
    ensures vm.phase == Ready ==> agent.running == old(agent.running)
    ensures problems == [] ==> (agent.volumes, agent.domain) == old(Undone(vm.phase, vm.disks, agent.volumes, agent.domain))
    ensures agent.calm ==> problems == []
  {
    RecordedIsPlanned(vm.disks);
    var first := CleanupDomain(vm, agent, others);
    problems := CleanupDisks(vm, agent, others, first);
    assert DomainCleanup in first <==> DomainCleanup in problems by {
      assert first != [] ==> problems[0] == first[0];
    }
    assert others + Recorded(vm.disks) + agent.strayVolumes - Recorded(vm.disks) == others + agent.strayVolumes;
  }

  method CleanupDisks(vm: Vm, agent: Agent, ghost others: set<Volume>, earlier: seq<Problem>) returns (problems: seq<Problem>)
    requires WellFormed(vm.disks) && others !! Planned(vm.disks) && agent.strayVolumes !! Recorded(vm.disks)
    requires agent.volumes == others + Recorded(vm.disks) + agent.strayVolumes
    modifies agent`volumes
    ensures earlier <= problems && forall p :: p in problems && p !in earlier ==> p.DiskCleanup?
    ensures others + agent.strayVolumes <= agent.volumes <= others + Recorded(vm.disks) + agent.strayVolumes
    ensures forall v :: v in agent.volumes - others - agent.strayVolumes ==> DiskCleanup(v) in problems
    ensures problems == [] ==> agent.volumes == others + agent.strayVolumes
    ensures agent.calm && earlier == [] ==> problems == []
  {
    problems := earlier;
    ghost var left := Recorded(vm.disks);
    for i := 0 to |vm.disks|
      invariant left <= Recorded(vm.disks) && agent.volumes == others + left + agent.strayVolumes
      invariant agent.calm ==> problems == earlier
      invariant earlier <= problems && forall p :: p in problems && p !in earlier ==> p.DiskCleanup?
      invariant forall v :: v in left ==>
        DiskCleanup(v) in problems || exists k :: i <= k < |vm.disks| && vm.disks[k].volume == Some(v)
    {
      var disk := vm.disks[i];
      if disk.volume.Some? {
        var v := disk.volume.value;
        assert v in Planned(vm.disks) && v in Recorded(vm.disks) by {
          assert disk in vm.disks;
        }
        ghost var before := problems;
        var ok := agent.DeleteDisk(v);
        if !ok {
          problems := problems + [DiskCleanup(v)];
        }
        assert forall p :: p in before ==> p in problems;
        if v !in agent.volumes {
          left := left - {v};
        }
      }
    }
  }

  // ---- The steps ----

  ghost predicate AllCalm(vm: Vm, agent: Agent, calm: bool) {
    calm && vm.calm && agent.calm
  }

  /** A section under `job_run` that only moves on to a phase and saves it. */
  method MarkPhase(job: Jobs.Job, copy: JobCopy, vm: Vm, step: string, phase: Phase, calm: bool) returns (ok: bool)
    requires Open(job, copy)
    modifies job, copy, vm`phase, vm`rowPhase
    ensures vm.phase in {old(vm.phase), phase}
    ensures old(job.status) == Jobs.Canceling ==> !ok
    ensures if ok then Open(job, copy) && vm.phase == phase else Open(job, copy) || job.status == Jobs.Failed
    ensures calm && vm.calm && old(job.status) != Jobs.Canceling ==> ok && job.status == Jobs.Running
  {
    var exit := EnterJobRun(job, copy, step, calm);
    if exit.Raised? {
      return false;
    }
    vm.phase := phase;
    ok := SaveInBlock(job, copy, vm, calm);
  }

  /** A save inside a `job_run` block. */
  method SaveInBlock(job: Jobs.Job, copy: JobCopy, vm: Vm, calm: bool) returns (ok: bool)
    requires Open(job, copy)
    modifies job, vm`rowPhase
    ensures if ok then Open(job, copy) && job.Value() == old(job.Value()) else job.status == Jobs.Failed
    ensures vm.calm ==> ok
  {
    ok := vm.SavePhase();
    if !ok {
      var _ := LeaveJobRunFailed(job, copy, calm);
    }
  }

  /** Up to the point where the domain can be defined. */
  method PrepareResources(job: Jobs.Job, copy: JobCopy, vm: Vm, agent: Agent, ghost others: set<Volume>, calm: bool) returns (ok: bool)
    requires Open(job, copy)
    requires Ledger(vm, agent, others) && Fresh(vm, agent)
    modifies job, copy, vm, agent`volumes, agent`strayVolumes
    ensures Ledger(vm, agent, others) && SamePlan(vm.disks, old(vm.disks))
    ensures vm.phase in {Requested, Allocating, DiskCreated, NetworkCreated}
    ensures !ok ==> Open(job, copy) || job.status == Jobs.Failed
    ensures old(job.status) == Jobs.Canceling ==> !ok
    ensures ok ==> Open(job, copy) && vm.phase == NetworkCreated && agent.strayVolumes == {}
    ensures ok ==> forall i :: 0 <= i < |vm.disks| ==> vm.disks[i].volume.Some?
    ensures AllCalm(vm, agent, calm) && old(job.status) != Jobs.Canceling ==> ok && job.status == Jobs.Running
  {
    ok := MarkPhase(job, copy, vm, "Allocating resources", Allocating, calm);
    if !ok {
      return;
    }
    var exit := EnterJobRun(job, copy, "Creating disks", calm);
    if exit.Raised? {
      return false;
    }
    ok := CreateDisks(vm, agent, others);
    if !ok {
      var _ := LeaveJobRunFailed(job, copy, calm);
      return;
    }
    vm.phase := DiskCreated;
    ok := SaveInBlock(job, copy, vm, calm);
    if !ok {
      return;
    }
    ok := MarkPhase(job, copy, vm, "Configuring network", NetworkCreated, calm);
  }

  /** The steps under the lifecycle lock. */
  method Provision(job: Jobs.Job, copy: JobCopy, vm: Vm, agent: Agent, ghost others: set<Volume>, calm: bool) returns (ok: bool)
    requires Open(job, copy)
    requires Ledger(vm, agent, others) && Fresh(vm, agent)
    modifies job, copy, vm, agent
    ensures Ledger(vm, agent, others) && SamePlan(vm.disks, old(vm.disks))
    ensures Open(job, copy) || job.status == Jobs.Failed
    ensures old(job.status) == Jobs.Canceling ==> !ok && vm.phase != Ready
    ensures vm.phase == Ready ==> Open(job, copy) && job.status in {Jobs.Running, Jobs.Canceling} && Complete(vm, agent)
    ensures ok ==> vm.phase == Ready && vm.rowPhase == Ready && vm.rowStatus == vm.status
    ensures agent.seed ==> vm.cloudInit && DefinedOnce(vm.phase)
    ensures AllCalm(vm, agent, calm) && old(job.status) != Jobs.Canceling ==> ok
  {
    ok := PrepareResources(job, copy, vm, agent, others, calm);
    if !ok {
      return;
    }
    ok := DefineDomain(job, copy, vm, agent, others, calm);
    if !ok {
      return;
    }
    ok := AttachSeed(job, copy, vm, agent, calm);
    if !ok {
      return;
    }
    ok := FinishDomain(job, copy, vm, agent, calm);
  }

  method DefineDomain(job: Jobs.Job, copy: JobCopy, vm: Vm, agent: Agent, ghost others: set<Volume>, calm: bool) returns (ok: bool)
    requires Open(job, copy) && Ledger(vm, agent, others)
    requires vm.phase == NetworkCreated && !agent.strayDomain
    modifies job, copy, vm`phase, vm`rowPhase, agent`domain, agent`strayDomain
    ensures Ledger(vm, agent, others) && vm.phase in {NetworkCreated, DomainCreated}
    ensures Open(job, copy) || job.status == Jobs.Failed
    ensures ok ==> Open(job, copy) && job.status in {Jobs.Running, Jobs.Canceling}
    ensures ok ==> vm.phase == DomainCreated && !agent.strayDomain
    ensures AllCalm(vm, agent, calm) && old(job.status) != Jobs.Canceling ==> ok && job.status == Jobs.Running
  {
    var exit := EnterJobRun(job, copy, "Creating domain", calm);
    if exit.Raised? {
      return false;
    }
    ok := agent.CreateDomain();
    if !ok {
      var _ := LeaveJobRunFailed(job, copy, calm);
      return;
    }
    vm.phase := DomainCreated;
    ok := SaveInBlock(job, copy, vm, calm);
  }

  /** Cloud-init, and the phase after it. */
  method AttachSeed(job: Jobs.Job, copy: JobCopy, vm: Vm, agent: Agent, calm: bool) returns (ok: bool)
    requires Open(job, copy) && job.status in {Jobs.Running, Jobs.Canceling} && vm.phase == DomainCreated && !agent.seed
    modifies job, copy, vm`phase, vm`rowPhase, agent`seed
    ensures DomainPhase(vm.phase) && (agent.seed ==> vm.cloudInit)
    ensures ok ==> agent.seed == vm.cloudInit
    ensures AllCalm(vm, agent, calm) && old(job.status) != Jobs.Canceling ==> ok && job.status == Jobs.Running
    ensures if ok then Open(job, copy) && job.status in {Jobs.Running, Jobs.Canceling} else Open(job, copy) || job.status == Jobs.Failed
  {
    if vm.cloudInit {
      var exit := EnterJobRun(job, copy, "Attaching cloud-init", calm);
      if exit.Raised? {
        return false;
      }
      ok := agent.AttachCloudInit();
      if !ok {
        var _ := LeaveJobRunFailed(job, copy, calm);
        return;
      }
    }
    vm.phase := CloudInitAttached;
    ok := vm.SavePhase();
  }

  /** Start, and the final status. */
  method FinishDomain(job: Jobs.Job, copy: JobCopy, vm: Vm, agent: Agent, calm: bool) returns (ok: bool)
    requires Open(job, copy) && job.status in {Jobs.Running, Jobs.Canceling}
    requires DomainPhase(vm.phase) && agent.domain && !agent.running
    modifies job, copy, vm`phase, vm`status, vm`rowPhase, vm`rowStatus, agent`running
    ensures Open(job, copy) || job.status == Jobs.Failed
    ensures DomainPhase(vm.phase) || vm.phase == Ready
    ensures ok ==> vm.phase == Ready && vm.rowPhase == Ready && vm.rowStatus == vm.status
    ensures vm.phase == Ready ==>
      && Open(job, copy) && job.status in {Jobs.Running, Jobs.Canceling}
      && vm.status == (if vm.autostart then Running else Stopped) && agent.running == vm.autostart
    ensures AllCalm(vm, agent, calm) && old(job.status) != Jobs.Canceling ==> ok
  {
    if vm.autostart {
      var exit := EnterJobRun(job, copy, "Starting VM", calm);
      if exit.Raised? {
        return false;
      }
      ok := agent.Start();
      if ok {
        vm.status, vm.phase := Running, Started;
        ok := vm.SaveAll();
      }
      if !ok {
        var _ := LeaveJobRunFailed(job, copy, calm);
        return;
      }
    } else {
      vm.status := Stopped;
    }
    vm.phase := Ready;
    ok := vm.SaveAll();
  }

  /** Every planned disk has its volume, recorded as such, and nothing else was created. */
  ghost predicate OneVolumeEach(vm: Vm, agent: Agent, others: set<Volume>, plan: seq<Disk>)
    reads vm, agent
  {
    && agent.volumes == others + Planned(plan)
    && |agent.volumes| == |others| + |plan|
    && |vm.disks| == |plan|
    && (forall i :: 0 <= i < |plan| ==> vm.disks[i].volume == Some(VolumeOf(plan[i])))
  }

  lemma {:induction false} CompletedExactly(vm: Vm, agent: Agent, others: set<Volume>, plan: seq<Disk>)
    requires Ledger(vm, agent, others) && SamePlan(vm.disks, plan) && agent.strayVolumes == {}
    requires forall i :: 0 <= i < |vm.disks| ==> vm.disks[i].volume.Some?
    ensures OneVolumeEach(vm, agent, others, plan)
  {
    AllRecorded(vm.disks);
    SamePlanSamePlanned(vm.disks, plan);
    OneVolumePerDisk(vm.disks);
  }

  ghost predicate Complete(vm: Vm, agent: Agent)
    reads vm, agent
  {
    && vm.phase == Ready && vm.status == (if vm.autostart then Running else Stopped)
    && agent.running == vm.autostart && agent.strayVolumes == {} && !agent.strayDomain
    && agent.seed == vm.cloudInit
    && (forall i :: 0 <= i < |vm.disks| ==> vm.disks[i].volume.Some?)
  }

  ghost predicate Fresh(vm: Vm, agent: Agent)
    reads vm, agent
  {
    && vm.phase == Requested && vm.status == Creating
    && (forall i :: 0 <= i < |vm.disks| ==> vm.disks[i].volume.None?)
    && !agent.domain && !agent.running && !agent.seed && agent.strayVolumes == {} && !agent.strayDomain
  }

  // ---- The whole task ----

  /** How a delivery ends. After a rollback, `ready` says that the failure came after READY was set,
      and `saved` that the handler could write the row. */
  datatype Outcome = Provisioned | LockTimeout | RolledBack(ready: bool, saved: bool)

  /** The general `except` clause of `provision_vm`, then `on_failure`. */
  method RollBack(job: Jobs.Job, copy: JobCopy, vm: Vm, agent: Agent, ghost others: set<Volume>, calm: bool)
    returns (problems: seq<Problem>, saved: bool)
    requires Ledger(vm, agent, others)
    requires Open(job, copy) || job.status == Jobs.Failed
    modifies job, vm, agent
    ensures job.status == Jobs.Failed && vm.status == Error && vm.phase == Errored
    ensures saved ==> vm.rowStatus == Error && vm.rowPhase == Errored
    ensures LeftoversReported(agent, others, problems, old(vm.phase) == Ready)
    ensures old(vm.phase) == Ready ==> agent.running == old(agent.running)
    ensures agent.strayVolumes == old(agent.strayVolumes) && agent.strayDomain == old(agent.strayDomain)
    ensures agent.seed == old(agent.seed)
    ensures (agent.calm ==> problems == []) && (vm.calm ==> saved)
  {
    problems := CleanupPartialVm(vm, agent, others);
    vm.status, vm.phase := Error, Errored;
    saved := vm.SaveAll();
    if saved {
      var _ := FailUnlessTerminal(job, copy, true, calm);
    }
    var _ := FailUnlessTerminal(job, copy, true, calm);
  }

  /** Nothing of the machine is left on the agent. */
  ghost predicate Clean(agent: Agent, others: set<Volume>)
    reads agent
  {
    agent.volumes == others && !agent.domain
  }

  /** A rollback whose requests were all confirmed leaves nothing exactly if nothing was created
      unrecorded and the failure came before READY; a later failure leaves the domain as it was. */
  ghost predicate RolledBackExactly(vm: Vm, agent: Agent, others: set<Volume>, problems: seq<Problem>, ready: bool)
    reads vm, agent
  {
    && LeftoversReported(agent, others, problems, ready)
    && (ready ==> agent.running == vm.autostart && agent.strayVolumes == {} && !agent.strayDomain)
    && (if ready then agent.seed == vm.cloudInit else agent.seed ==> vm.cloudInit)
    && (agent.calm ==> problems == [])
    && (problems == [] ==> (Clean(agent, others) <==> !ready && agent.strayVolumes == {} && !agent.strayDomain))
  }

  lemma {:induction false} ReportedMeansExact(agent: Agent, others: set<Volume>, problems: seq<Problem>, ready: bool)
    requires LeftoversReported(agent, others, problems, ready) && problems == []
    ensures Clean(agent, others) <==> !ready && agent.strayVolumes == {} && !agent.strayDomain
  {
    if agent.strayVolumes != {} {
      var v :| v in agent.strayVolumes;
      assert v in agent.volumes && v !in others;
    } else {
      assert others + agent.strayVolumes == others;
    }
  }

  /** The `try` part unless the lock is busy. Asking for the lock may raise, its release may, also on
      the way out of a failure, and so may the closing write of the job. */
  method TryUnderLock(job: Jobs.Job, copy: JobCopy, vm: Vm, agent: Agent, ghost others: set<Volume>, calm: bool) returns (ok: bool)
    requires Open(job, copy) && Ledger(vm, agent, others) && Fresh(vm, agent)
    modifies job, copy, vm, agent
    ensures Ledger(vm, agent, others) && SamePlan(vm.disks, old(vm.disks))
    ensures vm.phase == Ready ==> Complete(vm, agent)
    ensures agent.seed ==> vm.cloudInit
    ensures AllCalm(vm, agent, calm) && old(job.status) != Jobs.Canceling ==> ok
    ensures !ok ==> Open(job, copy) || job.status == Jobs.Failed
    ensures ok ==> job.status == Jobs.Success && vm.phase == vm.rowPhase == Ready && vm.rowStatus == vm.status
    ensures old(job.status) == Jobs.Canceling ==> !ok && vm.phase != Ready
  {
    var acquireRaises := Trouble(calm);
    if acquireRaises {
      return false;
    }
    ok := Provision(job, copy, vm, agent, others, calm);
    var releaseRaises := Trouble(calm);
    var closingRaises := Trouble(calm);
    if !ok || releaseRaises || closingRaises {
      return false;
    }
    var now: int := *;
    var _ := job.Transition(Jobs.Success, Some("VM created successfully"), None, now);
  }

  method ProvisionUnderLock(job: Jobs.Job, copy: JobCopy, vm: Vm, agent: Agent, ghost others: set<Volume>, calm: bool)
    returns (outcome: Outcome, problems: seq<Problem>)
    requires Open(job, copy) && Ledger(vm, agent, others) && Fresh(vm, agent)
    modifies job, copy, vm, agent
    ensures !outcome.LockTimeout?
    ensures outcome.Provisioned? ==>
      && job.status == Jobs.Success && Complete(vm, agent) && agent.domain && problems == []
      && vm.rowPhase == Ready && vm.rowStatus == vm.status
      && OneVolumeEach(vm, agent, others, old(vm.disks))
    ensures outcome.RolledBack? ==>
      && job.status == Jobs.Failed && RolledBackExactly(vm, agent, others, problems, outcome.ready)
      && (outcome.saved ==> vm.rowStatus == Error && vm.rowPhase == Errored)
    ensures old(job.status) == Jobs.Canceling ==> outcome.RolledBack? && !outcome.ready
    ensures AllCalm(vm, agent, calm) && old(job.status) != Jobs.Canceling ==> outcome.Provisioned?
    ensures vm.calm && outcome.RolledBack? ==> outcome.saved
  {
    ghost var plan := vm.disks;
    var ok := TryUnderLock(job, copy, vm, agent, others, calm);
    if ok {
      CompletedExactly(vm, agent, others, plan);
      return Provisioned, [];
    }
    var ready := vm.phase == Ready;
    var saved;
    problems, saved := RollBack(job, copy, vm, agent, others, calm);
    if problems == [] {
      ReportedMeansExact(agent, others, problems, ready);
    }
    return RolledBack(ready, saved), problems;
  }

  /** `provision_vm` from pick-up to `on_failure`, for any disks, any cloud-init and autostart
      choice, any failing call, save or lock release, and any cancellations. */
  method ProvisionVm(job: Jobs.Job, vm: Vm, agent: Agent, ghost others: set<Volume>, calm: bool)
    returns (outcome: Outcome, problems: seq<Problem>)
    requires job.status in {Jobs.Queued, Jobs.Canceling} && job.startedAt.None?
    requires Fresh(vm, agent) && WellFormed(vm.disks)
    requires agent.volumes == others && others !! Planned(vm.disks)
    modifies job, vm, agent
    ensures outcome.Provisioned? ==>
      && job.status == Jobs.Success && Complete(vm, agent) && agent.domain && problems == []
      && vm.rowPhase == Ready && vm.rowStatus == vm.status
      && OneVolumeEach(vm, agent, others, old(vm.disks))
    ensures outcome.LockTimeout? ==>
      job.status == Jobs.Failed && unchanged(vm) && unchanged(agent) && problems == []
    ensures outcome.RolledBack? ==>
      && job.status == Jobs.Failed && RolledBackExactly(vm, agent, others, problems, outcome.ready)
      && (outcome.saved ==> vm.rowStatus == Error && vm.rowPhase == Errored)
    ensures old(job.status) == Jobs.Canceling ==> !outcome.Provisioned? && (outcome.RolledBack? ==> !outcome.ready)
    ensures AllCalm(vm, agent, calm) && old(job.status) == Jobs.Queued ==> outcome.Provisioned?
    ensures vm.calm && outcome.RolledBack? ==> outcome.saved
  {
    problems := [];
    Interfere(job, calm);
    var copy := new JobCopy(job);
    assert Recorded(vm.disks) == {};
    var lockBusy := Trouble(calm);
    if lockBusy {
      var _ := FailUnlessTerminal(job, copy, false, calm);
      var _ := FailUnlessTerminal(job, copy, true, calm);
      return LockTimeout, [];
    }
    outcome, problems := ProvisionUnderLock(job, copy, vm, agent, others, calm);
  }

  lemma {:induction false} AllRecorded(disks: seq<Disk>)
    requires WellFormed(disks) && forall i :: 0 <= i < |disks| ==> disks[i].volume.Some?
    ensures Recorded(disks) == Planned(disks)
  {
    forall v | v in Planned(disks) ensures v in Recorded(disks) {
      var i :| 0 <= i < |disks| && VolumeOf(disks[i]) == v;
      assert disks[i] in disks && disks[i].volume.value == v;
    }
  }

  lemma {:induction false} OneVolumePerDisk(disks: seq<Disk>)
    requires WellFormed(disks)
    ensures |Planned(disks)| == |disks|
    decreases |disks|
  {
    if disks != [] {
      var n := |disks| - 1;
      var init, last := disks[..n], VolumeOf(disks[n]);
      OneVolumePerDisk(init);
      forall k | 0 <= k < n ensures VolumeOf(init[k]) != last {
        assert disks[k].uuid != disks[n].uuid;
      }
      assert disks == init + [disks[n]];
      assert Planned(disks) == Planned(init) + {last};
    }
  }
}
