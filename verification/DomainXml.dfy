/** The agent's libvirt documents: a whole domain from the payload of a CREATE_VM operation, and the
    elements of hot-plugged disks and NICs. */
module DomainXml {
  import opened Wrappers
  import opened Decimal
  import opened Strings
  import opened Xml
  import opened XmlTrees
  import opened XmlTemplates
  import opened DomainReader
  import VlanNames

  /** For a key missing from a disk the source uses what the empty string gives. */
  datatype Disk = Disk(volumeId: string, storageType: string, format: string, device: string, bus: string,
                       readonly: bool, discard: bool, iothread: bool)

  datatype Nic = Nic(bridge: string, vlan: Option<nat>, mac: string, model: string, rateMbps: Option<nat>)

  datatype Payload = Payload(name: string, uuid: string, memoryMb: nat, vcpus: nat, machineType: string,
                             firmware: string, bootOrder: seq<string>, ballooning: bool,
                             disks: seq<Disk>, nics: seq<Nic>)

  // ---- Values ----

  function BusName(bus: string): PlainText {
    if bus == "VIRTIO_SCSI" then "scsi" else if bus == "SATA" then "sata" else if bus == "IDE" then "ide" else "virtio"
  }

  function DevicePrefix(bus: string): string {
    if bus == "VIRTIO_SCSI" || bus == "SATA" then "sd" else if bus == "IDE" then "hd" else "vd"
  }

  predicate IsBlock(storageType: string) {
    storageType == "LVM" || storageType == "LVM_THIN" || storageType == "ZFS" || storageType == "CEPH_RBD"
  }

  function DriverFormat(d: Disk): string {
    if d.format != "" then d.format else if IsBlock(d.storageType) then "raw" else "qcow2"
  }

  /** Letters run on past 'z', to the end of Unicode; a surrogate is not a character. */
  function NextDeviceName(prefix: string, index: nat): Option<string> {
    var code := 'a' as int + index;
    if code < 0xD800 || 0xE000 <= code < 0x110000 then Some(prefix + [code as char]) else None
  }

  function DeviceName(d: Disk, index: nat): Option<string> {
    if d.device != "" then Some(d.device) else NextDeviceName(DevicePrefix(d.bus), index)
  }

  /** Mbit/s to the unit of libvirt's averages, as the source converts. */
  function Average(mbps: nat): (s: PlainText)
    ensures s == Digits(mbps * 1000 / 8)
  {
    Number(mbps * 1000 / 8)
  }

  function Number(n: nat): (s: PlainText)
    ensures s == Digits(n)
  {
    assert forall i :: 0 <= i < |Digits(n)| ==> IsDigit(Digits(n)[i]);
    Digits(n)
  }

  /** The source's comment promises KiB/s; the figure it writes is kB/s, so it is the promised one for
      no limit at all and too high for every limit. */
  lemma {:induction false} RateIsNotInKib(mbps: nat)
    ensures Average(mbps) == Digits(mbps * 1_000_000 / 8 / 1024) <==> mbps == 0
    ensures mbps > 0 ==> mbps * 1000 / 8 > mbps * 1_000_000 / 8 / 1024
  {
    if Average(mbps) == Digits(mbps * 1_000_000 / 8 / 1024) {
      DigitsInjective(mbps * 1000 / 8, mbps * 1_000_000 / 8 / 1024);
    }
  }

  function BootName(d: string): PlainText {
    if d == "cdrom" then "cdrom" else if d == "network" then "network" else if d == "floppy" then "fd" else "hd"
  }

  // ---- Templates ----

  function Fixed(name: Name, value: PlainText): Attr<Slot> {
    Attr(name, Word(value))
  }

  function FixedLeaf(name: Name, text: PlainText): Template {
    Leaf(name, [], Word(text))
  }

  function DriverBase(d: Disk): seq<Attr<Slot>> {
    [Fixed("name", "qemu"), Attr("type", Verbatim(DriverFormat(d)))]
  }

  function DiscardAttrs(d: Disk): seq<Attr<Slot>> {
    if d.discard then [Fixed("discard", "unmap")] else []
  }

  function IothreadAttrs(d: Disk): seq<Attr<Slot>> {
    if d.iothread then [Fixed("iothread", "1")] else []
  }

  function DriverAttrs(d: Disk): seq<Attr<Slot>> {
    DriverBase(d) + DiscardAttrs(d) + IothreadAttrs(d)
  }

  function DriverTemplate(d: Disk): Template {
    Empty("driver", DriverAttrs(d))
  }

  function SourceTemplate(d: Disk): Template {
    Empty("source", [Attr(if IsBlock(d.storageType) then "dev" else "file", Escaped(d.volumeId))])
  }

  function TargetTemplate(d: Disk, device: Slot): Template {
    Empty("target", [Attr("dev", device), Fixed("bus", BusName(d.bus))])
  }

  function ReadonlyTemplates(d: Disk): seq<Template> {
    if d.readonly then [Empty("readonly", [])] else []
  }

  function DiskTemplate(d: Disk, device: Slot): Template {
    Branch("disk", [Fixed("type", if IsBlock(d.storageType) then "block" else "file"), Fixed("device", "disk")],
           [DriverTemplate(d), SourceTemplate(d), TargetTemplate(d, device)] + ReadonlyTemplates(d))
  }

  function BandwidthTemplates(rate: Option<nat>): seq<Template> {
    if rate.None? || rate.value == 0 then []
    else
      var limit := Fixed("average", Average(rate.value));
      [Branch("bandwidth", [], [Empty("inbound", [limit]), Empty("outbound", [limit])])]
  }

  function BridgeTemplate(bridge: string): Template {
    Empty("source", [Attr("bridge", Escaped(bridge))])
  }

  function MacTemplate(mac: string): Template {
    Empty("mac", [Attr("address", Escaped(mac))])
  }

  function ModelTemplate(model: Slot): Template {
    Empty("model", [Attr("type", model)])
  }

  function NicTemplate(bridge: string, mac: string, model: Slot, rate: Option<nat>): Template {
    Branch("interface", [Fixed("type", "bridge")],
           [BridgeTemplate(bridge), MacTemplate(mac), ModelTemplate(model)] + BandwidthTemplates(rate))
  }

  function HeadTemplates(p: Payload): seq<Template> {
    var memory := Word(Number(p.memoryMb));
    [Leaf("name", [], Escaped(p.name)), Leaf("uuid", [], Verbatim(p.uuid)), Leaf("memory", [Fixed("unit", "MiB")], memory),
     Leaf("currentMemory", [Fixed("unit", "MiB")], memory), Leaf("vcpu", [Fixed("placement", "static")], Word(Number(p.vcpus)))]
  }

  predicate AnyIothread(disks: seq<Disk>) {
    exists i :: 0 <= i < |disks| && disks[i].iothread
  }

  function IothreadsTemplates(p: Payload): seq<Template> {
    if AnyIothread(p.disks) then [FixedLeaf("iothreads", "1")] else []
  }

  function BootTemplates(order: seq<string>): (r: seq<Template>)
    ensures |r| == |order|
    ensures forall i :: 0 <= i < |order| ==> r[i] == Empty("boot", [Fixed("dev", BootName(order[i]))])
  {
    if order == [] then [] else [Empty("boot", [Fixed("dev", BootName(order[0]))])] + BootTemplates(order[1..])
  }

  function TypeTemplate(machine: string): Template {
    Leaf("type", [Fixed("arch", "x86_64"), Attr("machine", Escaped(machine))], Word("hvm"))
  }

  function OsTemplate(p: Payload): Template {
    Branch("os", if p.firmware == "BIOS" then [] else [Fixed("firmware", "efi")],
           [TypeTemplate(p.machineType)] + BootTemplates(if p.bootOrder == [] then ["disk"] else p.bootOrder))
  }

  function PolicyTemplates(): seq<Template> {
    [Empty("cpu", [Fixed("mode", "host-passthrough")]), FixedLeaf("on_poweroff", "destroy"),
     FixedLeaf("on_reboot", "restart"), FixedLeaf("on_crash", "restart")]
  }

  function ConsoleTemplate(): Template {
    Branch("console", [Fixed("type", "pty")], [Empty("target", [Fixed("type", "serial"), Fixed("port", "0")])])
  }

  function GraphicsTemplate(): Template {
    Empty("graphics", [Fixed("type", "vnc"), Fixed("port", "-1"), Fixed("autoport", "yes"), Fixed("listen", "127.0.0.1")])
  }

  function BalloonTemplate(ballooning: bool): Template {
    Empty("memballoon", [Fixed("model", if ballooning then "virtio" else "none")])
  }

  function EmulatorTemplate(): Template {
    FixedLeaf("emulator", "/usr/bin/qemu-system-x86_64")
  }

  function DevicesTemplate(disks: seq<Template>, nics: seq<Template>, ballooning: bool): Template {
    Branch("devices", [], [EmulatorTemplate()] + disks + nics + [ConsoleTemplate(), GraphicsTemplate(), BalloonTemplate(ballooning)])
  }

  function DomainTemplate(p: Payload, disks: seq<Template>, nics: seq<Template>): Template {
    Branch("domain", [Fixed("type", "kvm")],
           HeadTemplates(p) + IothreadsTemplates(p) + [OsTemplate(p)] + PolicyTemplates()
           + [DevicesTemplate(disks, nics, p.ballooning)])
  }

  // ---- Disks ----

  function DiskViewOf(d: Disk, device: string): DiskView {
    DiskView(IsBlock(d.storageType), d.volumeId, DriverFormat(d), device, BusName(d.bus), d.discard, d.iothread, d.readonly)
  }

  ghost predicate AllClean(ts: seq<Template>) {
    forall i :: 0 <= i < |ts| ==> Clean(ts[i])
  }

  lemma {:induction false} DiskIsClean(d: Disk, device: Slot)
    requires Plain(DriverFormat(d)) && CleanSlot(device)
    ensures Clean(DiskTemplate(d, device))
  {
    assert Clean(DriverTemplate(d)) && Clean(SourceTemplate(d)) && Clean(TargetTemplate(d, device));
    assert AllClean(ReadonlyTemplates(d));
  }

  lemma {:induction false} DriverMeaning(d: Disk)
    ensures var attrs := AttrsMeaning(DriverAttrs(d));
      && Lookup(attrs, "type") == Some(DriverFormat(d))
      && (Lookup(attrs, "discard") == Some("unmap")) == d.discard
      && (Lookup(attrs, "iothread") == Some("1")) == d.iothread
  {
    var attrs := AttrsMeaning(DriverAttrs(d));
    assert "name"[0] == 'n' && "type"[0] == 't' && |"discard"| == 7 && |"iothread"| == 8;
    LookupAt(attrs, "type", 1);
    if d.discard {
      LookupAt(attrs, "discard", 2);
    } else {
      LookupAbsent(attrs, "discard");
    }
    if d.iothread {
      LookupAt(attrs, "iothread", |attrs| - 1);
    } else {
      LookupAbsent(attrs, "iothread");
    }
  }

  lemma {:induction false} SourceMeaning(d: Disk)
    ensures Lookup(Meaning(SourceTemplate(d)).attrs, if IsBlock(d.storageType) then "dev" else "file") == Some(d.volumeId)
  {
    var source := Meaning(SourceTemplate(d));
    LookupAt(source.attrs, source.attrs[0].name, 0);
  }

  lemma {:induction false} TargetMeaning(d: Disk, device: Slot)
    ensures var attrs := Meaning(TargetTemplate(d, device)).attrs;
      Lookup(attrs, "dev") == Some(ValueOf(device)) && Lookup(attrs, "bus") == Some(BusName(d.bus))
  {
    var attrs := Meaning(TargetTemplate(d, device)).attrs;
    LookupAt(attrs, "dev", 0);
    assert "dev"[0] == 'd' && "bus"[0] == 'b';
    LookupAt(attrs, "bus", 1);
  }

  lemma {:induction false} KindMeaning(d: Disk, device: Slot)
    ensures (Lookup(Meaning(DiskTemplate(d, device)).attrs, "type") == Some("block")) == IsBlock(d.storageType)
  {
    LookupAt(Meaning(DiskTemplate(d, device)).attrs, "type", 0);
    assert |"block"| == 5 && |"file"| == 4;
  }

  lemma {:induction false} DiskParts(d: Disk, device: Slot)
    ensures var t := Meaning(DiskTemplate(d, device));
      t == Branch("disk", t.attrs, [Meaning(DriverTemplate(d)), Meaning(SourceTemplate(d)), Meaning(TargetTemplate(d, device))]
                                   + MeaningOfAll(ReadonlyTemplates(d)))
  {
    assert Inside(Meaning(DiskTemplate(d, device)))
        == [Meaning(DriverTemplate(d)), Meaning(SourceTemplate(d)), Meaning(TargetTemplate(d, device))] + MeaningOfAll(ReadonlyTemplates(d));
  }

  lemma {:induction false} DiskMeaning(d: Disk, device: Slot)
    ensures ReadDisk(Meaning(DiskTemplate(d, device))) == Some(DiskViewOf(d, ValueOf(device)))
  {
    DiskParts(d, device);
    DriverMeaning(d);
    SourceMeaning(d);
    TargetMeaning(d, device);
    KindMeaning(d, device);
    DiskShapeReads(Meaning(DiskTemplate(d, device)).attrs, Meaning(DriverTemplate(d)), Meaning(SourceTemplate(d)),
                   Meaning(TargetTemplate(d, device)), MeaningOfAll(ReadonlyTemplates(d)), DiskViewOf(d, ValueOf(device)));
  }

  // ---- NICs ----

  function NicViewOf(bridge: string, mac: string, model: string, rate: Option<nat>): NicView {
    var limit := if rate.None? || rate.value == 0 then None else Some(Average(rate.value));
    NicView(bridge, mac, model, limit, limit)
  }

  lemma {:induction false} NicIsClean(bridge: string, mac: string, model: Slot, rate: Option<nat>)
    requires CleanSlot(model)
    ensures Clean(NicTemplate(bridge, mac, model, rate))
  {
    assert AllClean(BandwidthTemplates(rate));
  }

  lemma {:induction false} BandwidthMeaning(rate: Option<nat>)
    requires rate.Some? && rate.value != 0
    ensures var b := Meaning(BandwidthTemplates(rate)[0]);
      && ChildAttr(b, "inbound", "average") == Some(Average(rate.value))
      && ChildAttr(b, "outbound", "average") == Some(Average(rate.value))
  {
    var b := Meaning(BandwidthTemplates(rate)[0]);
    var ts := Inside(b);
    assert ts[0].name == "inbound" && ts[1].name == "outbound";
    assert |"inbound"| == 7 && |"outbound"| == 8;
    FirstAt(ts, "inbound", 0);
    FirstAt(ts, "outbound", 1);
    LookupAt(ts[0].attrs, "average", 0);
    LookupAt(ts[1].attrs, "average", 0);
  }

  lemma {:induction false} NicMeaning(bridge: string, mac: string, model: Slot, rate: Option<nat>)
    ensures ReadNic(Meaning(NicTemplate(bridge, mac, model, rate))) == Some(NicViewOf(bridge, mac, ValueOf(model), rate))
  {
    var t := Meaning(NicTemplate(bridge, mac, model, rate));
    var a, b, c := Meaning(BridgeTemplate(bridge)), Meaning(MacTemplate(mac)), Meaning(ModelTemplate(model));
    var rest := MeaningOfAll(BandwidthTemplates(rate));
    assert Inside(t) == [a, b, c] + rest;
    LookupAt(a.attrs, "bridge", 0);
    LookupAt(b.attrs, "address", 0);
    LookupAt(c.attrs, "type", 0);
    if rate.Some? && rate.value != 0 {
      BandwidthMeaning(rate);
    }
    NicShapeReads(t.attrs, a, b, c, rest, NicViewOf(bridge, mac, ValueOf(model), rate));
  }

  // ---- The whole document ----

  lemma {:induction false} PolicyIsClean()
    ensures AllClean(PolicyTemplates())
  {
    var ts := PolicyTemplates();
    assert Clean(ts[0]) && Clean(ts[1]) && Clean(ts[2]) && Clean(ts[3]);
  }

  lemma {:induction false} HeadIsClean(p: Payload)
    requires Plain(p.uuid)
    ensures AllClean(HeadTemplates(p))
  {
    var ts := HeadTemplates(p);
    assert Clean(ts[0]) && Clean(ts[1]) && Clean(ts[2]) && Clean(ts[3]) && Clean(ts[4]);
  }

  lemma {:induction false} BootIsClean(order: seq<string>)
    ensures AllClean(BootTemplates(order))
  {
  }

  lemma {:induction false} OsIsClean(p: Payload)
    ensures Clean(OsTemplate(p))
  {
    BootIsClean(if p.bootOrder == [] then ["disk"] else p.bootOrder);
    assert Clean(TypeTemplate(p.machineType));
  }

  lemma {:induction false} DevicesAreClean(disks: seq<Template>, nics: seq<Template>, ballooning: bool)
    requires AllClean(disks) && AllClean(nics)
    ensures Clean(DevicesTemplate(disks, nics, ballooning))
  {
    assert Clean(EmulatorTemplate()) && Clean(ConsoleTemplate()) && Clean(GraphicsTemplate()) && Clean(BalloonTemplate(ballooning));
  }

  lemma {:induction false} DomainIsClean(p: Payload, disks: seq<Template>, nics: seq<Template>)
    requires Plain(p.uuid) && AllClean(disks) && AllClean(nics)
    ensures Clean(DomainTemplate(p, disks, nics))
  {
    HeadIsClean(p);
    OsIsClean(p);
    PolicyIsClean();
    DevicesAreClean(disks, nics, p.ballooning);
    assert AllClean(IothreadsTemplates(p));
    GroupsAreClean(DomainTemplate(p, disks, nics), HeadTemplates(p), IothreadsTemplates(p), OsTemplate(p), PolicyTemplates(),
                   DevicesTemplate(disks, nics, p.ballooning));
  }

  lemma {:induction false} GroupsAreClean(t: Template, a: seq<Template>, b: seq<Template>, c: Template, d: seq<Template>, e: Template)
    requires t.Branch? && CleanAttrs(t.attrs) && t.children == a + b + [c] + d + [e]
    requires AllClean(a) && AllClean(b) && Clean(c) && AllClean(d) && Clean(e)
    ensures Clean(t)
  {
  }

  ghost predicate NoneNamed(ts: seq<Template>, name: string) {
    forall i :: 0 <= i < |ts| ==> ts[i].name != name
  }

  /** A child of a name that no earlier child has. */
  lemma {:induction false} ChildFound(before: seq<Template>, t: Template, after: seq<Template>)
    requires NoneNamed(before, t.name)
    ensures First(MeaningOfAll(before + [t] + after), t.name) == Some(Meaning(t))
  {
    FirstAt(MeaningOfAll(before + [t] + after), t.name, |before|);
  }

  lemma {:induction false} HeadFound(p: Payload, rest: seq<Template>)
    ensures var ts := MeaningOfAll(HeadTemplates(p) + rest);
      && First(ts, "name") == Some(Meaning(HeadTemplates(p)[0])) && First(ts, "uuid") == Some(Meaning(HeadTemplates(p)[1]))
      && First(ts, "memory") == Some(Meaning(HeadTemplates(p)[2])) && First(ts, "vcpu") == Some(Meaning(HeadTemplates(p)[4]))
  {
    var ts := MeaningOfAll(HeadTemplates(p) + rest);
    assert forall i :: 0 <= i < 5 ==> ts[i] == Meaning(HeadTemplates(p)[i]);
    assert "name"[0] == 'n' && "uuid"[0] == 'u' && |"memory"| == 6 && |"currentMemory"| == 13 && "vcpu"[0] == 'v';
    FirstAt(ts, "name", 0);
    FirstAt(ts, "uuid", 1);
    FirstAt(ts, "memory", 2);
    FirstAt(ts, "vcpu", 4);
  }

  /** The lengths of names tell the children of the root apart. */
  ghost predicate NoneOfLength(ts: seq<Template>, n: nat) {
    forall i :: 0 <= i < |ts| ==> |ts[i].name| != n
  }

  lemma {:induction false} HeadLengths(p: Payload)
    ensures NoneOfLength(HeadTemplates(p), 7) && NoneOfLength(HeadTemplates(p), 2) && NoneOfLength(HeadTemplates(p), 9)
  {
  }

  lemma {:induction false} IothreadsLengths(p: Payload)
    ensures NoneOfLength(IothreadsTemplates(p), 7) && NoneOfLength(IothreadsTemplates(p), 2)
  {
  }

  lemma {:induction false} PolicyLengths()
    ensures NoneOfLength(PolicyTemplates(), 7)
  {
  }

  lemma {:induction false} OsFound(p: Payload, rest: seq<Template>)
    ensures First(MeaningOfAll(HeadTemplates(p) + IothreadsTemplates(p) + [OsTemplate(p)] + rest), "os") == Some(Meaning(OsTemplate(p)))
  {
    HeadLengths(p);
    IothreadsLengths(p);
    assert |"os"| == 2;
    ChildFound(HeadTemplates(p) + IothreadsTemplates(p), OsTemplate(p), rest);
  }

  lemma {:induction false} NothingElseIsDevices(p: Payload)
    ensures NoneNamed(HeadTemplates(p) + IothreadsTemplates(p) + [OsTemplate(p)] + PolicyTemplates(), "devices")
  {
    HeadLengths(p);
    IothreadsLengths(p);
    PolicyLengths();
    assert |"devices"| == 7 && |"os"| == 2;
  }

  lemma {:induction false} DevicesFound(p: Payload, devices: Template)
    requires devices.name == "devices"
    ensures First(MeaningOfAll(HeadTemplates(p) + IothreadsTemplates(p) + [OsTemplate(p)] + PolicyTemplates() + [devices]), "devices")
         == Some(Meaning(devices))
  {
    NothingElseIsDevices(p);
    LastFound(HeadTemplates(p) + IothreadsTemplates(p) + [OsTemplate(p)] + PolicyTemplates(), devices);
  }

  lemma {:induction false} LastFound(before: seq<Template>, t: Template)
    requires NoneNamed(before, t.name)
    ensures First(MeaningOfAll(before + [t]), t.name) == Some(Meaning(t))
  {
    assert before + [t] + [] == before + [t];
    ChildFound(before, t, []);
  }

  lemma {:induction false} OthersAreNotIothreads(p: Payload, devices: Template)
    requires devices.name == "devices"
    ensures NoneNamed(HeadTemplates(p), "iothreads") && NoneNamed([OsTemplate(p)] + PolicyTemplates() + [devices], "iothreads")
  {
    HeadLengths(p);
    assert |"iothreads"| == 9 && |"os"| == 2 && |"devices"| == 7;
    assert NoneNamed(PolicyTemplates(), "iothreads") by {
      assert "iothreads"[0] == 'i' && "on_reboot"[0] == 'o';
    }
  }

  lemma {:induction false} IothreadsFound(p: Payload, devices: Template)
    requires devices.name == "devices"
    ensures First(MeaningOfAll(HeadTemplates(p) + IothreadsTemplates(p) + [OsTemplate(p)] + PolicyTemplates() + [devices]), "iothreads").Some?
            <==> AnyIothread(p.disks)
  {
    OthersAreNotIothreads(p, devices);
    var rest := [OsTemplate(p)] + PolicyTemplates() + [devices];
    RegroupRest(HeadTemplates(p), IothreadsTemplates(p), [OsTemplate(p)], PolicyTemplates(), [devices]);
    if AnyIothread(p.disks) {
      ChildFound(HeadTemplates(p), IothreadsTemplates(p)[0], rest);
    } else {
      NoneFound(HeadTemplates(p), rest, "iothreads");
      assert HeadTemplates(p) + [] == HeadTemplates(p);
    }
  }

  lemma {:induction false} RegroupRest<T>(a: seq<T>, b: seq<T>, c: seq<T>, d: seq<T>, e: seq<T>)
    ensures a + b + c + d + e == a + b + (c + d + e)
  {
  }

  lemma {:induction false} NoneFound(a: seq<Template>, b: seq<Template>, name: string)
    requires NoneNamed(a, name) && NoneNamed(b, name)
    ensures First(MeaningOfAll(a + b), name) == None
  {
    FirstAbsent(MeaningOfAll(a + b), name);
  }

  ghost predicate IsBootOrder(boot: seq<Option<string>>, order: seq<string>) {
    |boot| == |order| && forall i :: 0 <= i < |order| ==> boot[i] == Some(BootName(order[i]))
  }

  lemma {:induction false} OsMeaning(p: Payload)
    ensures var os := Meaning(OsTemplate(p));
      && ChildAttr(os, "type", "machine") == Some(p.machineType)
      && (Lookup(os.attrs, "firmware") == Some("efi") <==> p.firmware != "BIOS")
      && IsBootOrder(AttrOfEach(Named(Inside(os), "boot"), "dev"), if p.bootOrder == [] then ["disk"] else p.bootOrder)
  {
    var order := if p.bootOrder == [] then ["disk"] else p.bootOrder;
    var ts := [TypeTemplate(p.machineType)] + BootTemplates(order);
    FirmwareMeaning(p);
    TypeMeaning(p.machineType, BootTemplates(order));
    assert "boot"[0] == 'b' && "type"[0] == 't';
    assert ts == [TypeTemplate(p.machineType)] + BootTemplates(order) + [];
    KindFound([TypeTemplate(p.machineType)], BootTemplates(order), [], "boot");
    BootMeaning(order);
  }

  lemma {:induction false} FirmwareMeaning(p: Payload)
    ensures Lookup(Meaning(OsTemplate(p)).attrs, "firmware") == Some("efi") <==> p.firmware != "BIOS"
  {
    if p.firmware != "BIOS" {
      LookupAt(Meaning(OsTemplate(p)).attrs, "firmware", 0);
    }
  }

  lemma {:induction false} TypeMeaning(machine: string, rest: seq<Template>)
    ensures var ts := MeaningOfAll([TypeTemplate(machine)] + rest);
      First(ts, "type").Some? && Lookup(First(ts, "type").value.attrs, "machine") == Some(machine)
  {
    var ts := MeaningOfAll([TypeTemplate(machine)] + rest);
    FirstAt(ts, "type", 0);
    assert |"arch"| == 4 && |"machine"| == 7;
    LookupAt(ts[0].attrs, "machine", 1);
  }

  lemma {:induction false} BootMeaning(order: seq<string>)
    ensures IsBootOrder(AttrOfEach(MeaningOfAll(BootTemplates(order)), "dev"), order)
  {
    var ts := MeaningOfAll(BootTemplates(order));
    forall i | 0 <= i < |order|
      ensures Lookup(ts[i].attrs, "dev") == Some(BootName(order[i]))
    {
      LookupAt(ts[i].attrs, "dev", 0);
    }
  }

  lemma {:induction false} BalloonFound(disks: seq<Template>, nics: seq<Template>, ballooning: bool)
    requires AllNamed(disks, "disk") && AllNamed(nics, "interface")
    ensures ChildAttr(Meaning(DevicesTemplate(disks, nics, ballooning)), "memballoon", "model")
         == Some(if ballooning then "virtio" else "none")
  {
    var before := [EmulatorTemplate()] + disks + nics + [ConsoleTemplate(), GraphicsTemplate()];
    assert |"memballoon"| == 10 && |"disk"| == 4 && |"interface"| == 9;
    assert NoneNamed(before, "memballoon") by {
      assert |EmulatorTemplate().name| == 8 && |ConsoleTemplate().name| == 7 && |GraphicsTemplate().name| == 8;
    }
    var balloon := BalloonTemplate(ballooning);
    assert [EmulatorTemplate()] + disks + nics + [ConsoleTemplate(), GraphicsTemplate(), balloon] == before + [balloon] + [];
    ChildFound(before, balloon, []);
    LookupAt(Meaning(balloon).attrs, "model", 0);
  }

  ghost predicate AllNamed(ts: seq<Template>, name: string) {
    forall i :: 0 <= i < |ts| ==> ts[i].name == name
  }

  lemma {:induction false} MeaningAppend(a: seq<Template>, b: seq<Template>)
    ensures MeaningOfAll(a + b) == MeaningOfAll(a) + MeaningOfAll(b)
  {
  }

  /** Picking one of the two kinds of devices from between the fixed ones. */
  lemma {:induction false} KindFound(before: seq<Template>, kind: seq<Template>, after: seq<Template>, name: string)
    requires NoneNamed(before, name) && AllNamed(kind, name) && NoneNamed(after, name)
    ensures Named(MeaningOfAll(before + kind + after), name) == MeaningOfAll(kind)
  {
    MeaningAppend(before, kind);
    MeaningAppend(before + kind, after);
    NamedAppend(MeaningOfAll(before), MeaningOfAll(kind), name);
    NamedAppend(MeaningOfAll(before) + MeaningOfAll(kind), MeaningOfAll(after), name);
    NamedNone(MeaningOfAll(before), name);
    NamedAll(MeaningOfAll(kind), name);
    NamedNone(MeaningOfAll(after), name);
  }

  lemma {:induction false} FixedDevicesNamed(ballooning: bool)
    ensures forall t | t in [EmulatorTemplate(), ConsoleTemplate(), GraphicsTemplate(), BalloonTemplate(ballooning)] ::
      t.name != "disk" && t.name != "interface"
  {
    assert |"disk"| == 4 && |"interface"| == 9;
    assert |EmulatorTemplate().name| == 8 && |ConsoleTemplate().name| == 7;
    assert |GraphicsTemplate().name| == 8 && |BalloonTemplate(ballooning).name| == 10;
  }

  lemma {:induction false} KindsFound(disks: seq<Template>, nics: seq<Template>, ballooning: bool)
    requires AllNamed(disks, "disk") && AllNamed(nics, "interface")
    ensures var children := Inside(Meaning(DevicesTemplate(disks, nics, ballooning)));
      Named(children, "disk") == MeaningOfAll(disks) && Named(children, "interface") == MeaningOfAll(nics)
  {
    FixedDevicesNamed(ballooning);
    KindsBetween(EmulatorTemplate(), disks, nics, [ConsoleTemplate(), GraphicsTemplate(), BalloonTemplate(ballooning)]);
  }

  lemma {:induction false} KindsBetween(first: Template, disks: seq<Template>, nics: seq<Template>, last: seq<Template>)
    requires AllNamed(disks, "disk") && AllNamed(nics, "interface")
    requires NoneNamed([first], "disk") && NoneNamed([first], "interface") && NoneNamed(last, "disk") && NoneNamed(last, "interface")
    ensures Named(MeaningOfAll([first] + disks + nics + last), "disk") == MeaningOfAll(disks)
    ensures Named(MeaningOfAll([first] + disks + nics + last), "interface") == MeaningOfAll(nics)
  {
    assert |"disk"| == 4 && |"interface"| == 9;
    assert [first] + disks + nics + last == [first] + disks + (nics + last);
    KindFound([first], disks, nics + last, "disk");
    KindFound([first] + disks, nics, last, "interface");
  }

  // ---- Building ----

  /** The unescaped fields hold nothing that would need escaping. */
  ghost predicate PlainFields(p: Payload) {
    && Plain(p.uuid)
    && (forall i :: 0 <= i < |p.disks| ==> Plain(p.disks[i].format) && Plain(p.disks[i].device))
    && (forall i :: 0 <= i < |p.nics| ==> Plain(p.nics[i].model))
  }

  /** Every disk has a device name and every NIC a bridge the agent accepts. */
  ghost predicate Buildable(p: Payload) {
    && (forall i :: 0 <= i < |p.disks| ==> DeviceName(p.disks[i], i).Some?)
    && (forall i :: 0 <= i < |p.nics| ==> VlanNames.ResolveNicBridge(p.nics[i].bridge, p.nics[i].vlan).Some?)
  }

  /** The view says what the payload says, with its disks and NICs in their order. */
  ghost predicate IsViewOf(v: DomainView, p: Payload)
    requires Buildable(p)
  {
    && v.name == p.name && v.uuid == p.uuid && v.memory == Digits(p.memoryMb) && v.vcpus == Digits(p.vcpus)
    && v.iothreads == AnyIothread(p.disks) && v.machine == p.machineType && v.efi == (p.firmware != "BIOS")
    && IsBootOrder(v.boot, if p.bootOrder == [] then ["disk"] else p.bootOrder)
    && v.balloon == Some(if p.ballooning then "virtio" else "none")
    && |v.disks| == |p.disks| && |v.nics| == |p.nics|
    && (forall i :: 0 <= i < |p.disks| ==> v.disks[i] == DiskViewOf(p.disks[i], DeviceName(p.disks[i], i).value))
    && (forall i :: 0 <= i < |p.nics| ==> v.nics[i] == ViewOfNic(p.nics[i]))
  }

  ghost function ViewOfNic(n: Nic): NicView
    requires VlanNames.ResolveNicBridge(n.bridge, n.vlan).Some?
  {
    NicViewOf(VlanNames.ResolveNicBridge(n.bridge, n.vlan).value, n.mac, Lower(n.model), n.rateMbps)
  }

  /** The templates of a payload's disks. */
  ghost predicate DisksOf(ts: seq<Template>, disks: seq<Disk>) {
    |ts| == |disks| && forall i :: 0 <= i < |ts| ==>
      DeviceName(disks[i], i).Some? && ts[i] == DiskTemplate(disks[i], Verbatim(DeviceName(disks[i], i).value))
  }

  function TemplateOfNic(n: Nic): Option<Template> {
    var bridge := VlanNames.ResolveNicBridge(n.bridge, n.vlan);
    if bridge.None? then None else Some(NicTemplate(bridge.value, n.mac, Verbatim(Lower(n.model)), n.rateMbps))
  }

  ghost predicate NicsOf(ts: seq<Template>, nics: seq<Nic>) {
    |ts| == |nics| && forall i :: 0 <= i < |ts| ==> TemplateOfNic(nics[i]) == Some(ts[i])
  }

  method BuildDisks(disks: seq<Disk>) returns (r: Option<seq<Template>>)
    ensures r.Some? <==> forall i :: 0 <= i < |disks| ==> DeviceName(disks[i], i).Some?
    ensures r.Some? ==> DisksOf(r.value, disks)
  {
    var ts: seq<Template> := [];
    for i := 0 to |disks|
      invariant |ts| == i && forall k :: 0 <= k < i ==>
        DeviceName(disks[k], k).Some? && ts[k] == DiskTemplate(disks[k], Verbatim(DeviceName(disks[k], k).value))
    {
      var device := DeviceName(disks[i], i);
      if device.None? {
        return None;
      }
      ts := ts + [DiskTemplate(disks[i], Verbatim(device.value))];
    }
    return Some(ts);
  }

  method BuildNics(nics: seq<Nic>) returns (r: Option<seq<Template>>)
    ensures r.Some? <==> forall i :: 0 <= i < |nics| ==> VlanNames.ResolveNicBridge(nics[i].bridge, nics[i].vlan).Some?
    ensures r.Some? ==> NicsOf(r.value, nics)
  {
    var ts: seq<Template> := [];
    for i := 0 to |nics|
      invariant |ts| == i && forall k :: 0 <= k < i ==> TemplateOfNic(nics[k]) == Some(ts[k])
    {
      var nic := TemplateOfNic(nics[i]);
      if nic.None? {
        return None;
      }
      ts := ts + [nic.value];
    }
    assert forall i :: 0 <= i < |nics| ==> TemplateOfNic(nics[i]).Some?;
    return Some(ts);
  }

  /** `disks` and `nics` are the templates the loops made. */
  method BuildDomainXml(p: Payload) returns (r: Option<string>, ghost disks: seq<Template>, ghost nics: seq<Template>)
    ensures r.Some? <==> Buildable(p)
    ensures r.Some? ==> DisksOf(disks, p.disks) && NicsOf(nics, p.nics) && r.value == Write(DomainTemplate(p, disks, nics))
    ensures r.Some? && PlainFields(p) ==> ReadDomain(r.value).Some? && IsViewOf(ReadDomain(r.value).value, p)
  {
    disks, nics := [], [];
    var diskTemplates := BuildDisks(p.disks);
    if diskTemplates.None? {
      return None, [], [];
    }
    var nicTemplates := BuildNics(p.nics);
    if nicTemplates.None? {
      return None, [], [];
    }
    disks, nics := diskTemplates.value, nicTemplates.value;
    r := Some(Write(DomainTemplate(p, diskTemplates.value, nicTemplates.value)));
    if PlainFields(p) {
      DocumentSaysThePayload(p, disks, nics);
    }
  }

  lemma {:induction false} DeviceNameIsPlain(d: Disk, index: nat)
    requires Plain(d.device) && DeviceName(d, index).Some?
    ensures Plain(DeviceName(d, index).value)
  {
  }

  lemma {:induction false} DisksSayThemselves(ts: seq<Template>, disks: seq<Disk>) returns (views: seq<DiskView>)
    requires DisksOf(ts, disks) && forall i :: 0 <= i < |disks| ==> Plain(disks[i].format) && Plain(disks[i].device)
    ensures AllClean(ts) && AllNamed(ts, "disk") && ReadDisks(MeaningOfAll(ts)) == Some(views) && |views| == |disks|
    ensures forall i :: 0 <= i < |disks| ==> views[i] == DiskViewOf(disks[i], DeviceName(disks[i], i).value)
  {
    views := seq(|disks|, i requires 0 <= i < |disks| => DiskViewOf(disks[i], DeviceName(disks[i], i).value));
    forall i | 0 <= i < |disks|
      ensures Clean(ts[i]) && ReadDisk(Meaning(ts[i])) == Some(views[i])
    {
      var device := DeviceName(disks[i], i).value;
      DeviceNameIsPlain(disks[i], i);
      DiskIsClean(disks[i], Verbatim(device));
      DiskMeaning(disks[i], Verbatim(device));
    }
    DisksRead(MeaningOfAll(ts), views);
  }

  lemma {:induction false} NicsSayThemselves(ts: seq<Template>, nics: seq<Nic>) returns (views: seq<NicView>)
    requires NicsOf(ts, nics) && forall i :: 0 <= i < |nics| ==> Plain(nics[i].model)
    ensures AllClean(ts) && AllNamed(ts, "interface") && ReadNics(MeaningOfAll(ts)) == Some(views) && |views| == |nics|
    ensures forall i :: 0 <= i < |nics| ==> TemplateOfNic(nics[i]).Some? && views[i] == ViewOfNic(nics[i])
  {
    assert forall i :: 0 <= i < |nics| ==> TemplateOfNic(nics[i]) == Some(ts[i]);
    views := seq(|nics|, i requires 0 <= i < |nics| => ViewOfNic(nics[i]));
    forall i | 0 <= i < |nics|
      ensures Clean(ts[i]) && ReadNic(Meaning(ts[i])) == Some(views[i])
    {
      var n := nics[i];
      var bridge := VlanNames.ResolveNicBridge(n.bridge, n.vlan).value;
      assert Plain(Lower(n.model));
      NicIsClean(bridge, n.mac, Verbatim(Lower(n.model)), n.rateMbps);
      NicMeaning(bridge, n.mac, Verbatim(Lower(n.model)), n.rateMbps);
    }
    NicsRead(MeaningOfAll(ts), views);
  }

  function RootTemplates(p: Payload, devices: Template): seq<Template> {
    HeadTemplates(p) + IothreadsTemplates(p) + [OsTemplate(p)] + PolicyTemplates() + [devices]
  }

  lemma {:induction false} Regroup<T>(a: seq<T>, b: seq<T>, c: seq<T>, d: seq<T>, e: seq<T>)
    ensures a + b + c + d + e == a + (b + c + d + e)
  {
  }

  lemma {:induction false} HeadTextsFound(p: Payload, rest: seq<Template>, root: Element)
    requires Inside(root) == MeaningOfAll(HeadTemplates(p) + rest)
    ensures ChildText(root, "name") == Some(p.name) && ChildText(root, "uuid") == Some(p.uuid)
    ensures ChildText(root, "memory") == Some(Digits(p.memoryMb)) && ChildText(root, "vcpu") == Some(Digits(p.vcpus))
  {
    HeadFound(p, rest);
  }

  lemma {:induction false} RootTextsFound(p: Payload, devices: Template, root: Element)
    requires Inside(root) == MeaningOfAll(RootTemplates(p, devices))
    ensures ChildText(root, "name") == Some(p.name) && ChildText(root, "uuid") == Some(p.uuid)
    ensures ChildText(root, "memory") == Some(Digits(p.memoryMb)) && ChildText(root, "vcpu") == Some(Digits(p.vcpus))
  {
    var rest := IothreadsTemplates(p) + [OsTemplate(p)] + PolicyTemplates() + [devices];
    Regroup(HeadTemplates(p), IothreadsTemplates(p), [OsTemplate(p)], PolicyTemplates(), [devices]);
    HeadTextsFound(p, rest, root);
  }

  lemma {:induction false} RootOsFound(p: Payload, devices: Template, root: Element)
    requires Inside(root) == MeaningOfAll(RootTemplates(p, devices))
    ensures First(Inside(root), "os") == Some(Meaning(OsTemplate(p)))
  {
    Nest(HeadTemplates(p) + IothreadsTemplates(p) + [OsTemplate(p)], PolicyTemplates(), [devices]);
    OsFound(p, PolicyTemplates() + [devices]);
  }

  lemma {:induction false} RootSaysThePayload(p: Payload, devices: Template, root: Element, disks: seq<DiskView>, nics: seq<NicView>)
    requires devices.name == "devices" && Inside(root) == MeaningOfAll(RootTemplates(p, devices))
    requires ReadDisks(Named(Inside(Meaning(devices)), "disk")) == Some(disks)
    requires ReadNics(Named(Inside(Meaning(devices)), "interface")) == Some(nics)
    ensures var v := ReadRoot(root);
      && v.Some? && v.value.disks == disks && v.value.nics == nics
      && v.value.balloon == ChildAttr(Meaning(devices), "memballoon", "model")
      && v.value.name == p.name && v.value.uuid == p.uuid
      && v.value.memory == Digits(p.memoryMb) && v.value.vcpus == Digits(p.vcpus)
      && v.value.iothreads == AnyIothread(p.disks) && v.value.machine == p.machineType && v.value.efi == (p.firmware != "BIOS")
      && IsBootOrder(v.value.boot, if p.bootOrder == [] then ["disk"] else p.bootOrder)
  {
    var os := Meaning(OsTemplate(p));
    RootTextsFound(p, devices, root);
    RootOsFound(p, devices, root);
    OsMeaning(p);
    DevicesFound(p, devices);
    IothreadsFound(p, devices);
    RootShapeReads(root, p.name, p.uuid, Digits(p.memoryMb), Digits(p.vcpus), os, p.machineType, Meaning(devices), disks, nics);
  }

  /** Reading the document gives back what the payload says. */
  lemma {:induction false} DocumentSaysThePayload(p: Payload, disks: seq<Template>, nics: seq<Template>)
    requires DisksOf(disks, p.disks) && NicsOf(nics, p.nics) && Buildable(p) && PlainFields(p)
    ensures var v := ReadDomain(Write(DomainTemplate(p, disks, nics))); v.Some? && IsViewOf(v.value, p)
  {
    var diskViews := DisksSayThemselves(disks, p.disks);
    var nicViews := NicsSayThemselves(nics, p.nics);
    DomainIsClean(p, disks, nics);
    TemplateReadsBack(DomainTemplate(p, disks, nics));
    KindsFound(disks, nics, p.ballooning);
    BalloonFound(disks, nics, p.ballooning);
    var devices := DevicesTemplate(disks, nics, p.ballooning);
    RootSaysThePayload(p, devices, Meaning(DomainTemplate(p, disks, nics)), diskViews, nicViews);
  }

  // ---- Hot-plugged devices ----

  function BuildDiskXml(volumePath: string, device: string, bus: string, storageType: string, format: string): string {
    Write(DiskTemplate(Disk(volumePath, storageType, format, device, bus, false, false, false), Escaped(device)))
  }

  function BuildNicXml(bridge: string, mac: string, model: string, rate: Option<nat>): string {
    Write(NicTemplate(bridge, mac, Escaped(Lower(model)), rate))
  }

  /** Only the format of a hot-plugged disk goes in unescaped; any path and any device name reads back. */
  lemma {:induction false} DiskElementSaysTheDisk(volumePath: string, device: string, bus: string, storageType: string, format: string)
    requires Plain(format)
    ensures var document := ParseDocument(BuildDiskXml(volumePath, device, bus, storageType, format));
      var d := Disk(volumePath, storageType, format, device, bus, false, false, false);
      document.Some? && ReadDisk(document.value) == Some(DiskViewOf(d, device))
  {
    var d := Disk(volumePath, storageType, format, device, bus, false, false, false);
    DiskIsClean(d, Escaped(device));
    TemplateReadsBack(DiskTemplate(d, Escaped(device)));
    DiskMeaning(d, Escaped(device));
  }

  /** A hot-plugged NIC reads back whatever its bridge, address and model are. */
  lemma {:induction false} NicElementSaysTheNic(bridge: string, mac: string, model: string, rate: Option<nat>)
    ensures var document := ParseDocument(BuildNicXml(bridge, mac, model, rate));
      document.Some? && ReadNic(document.value) == Some(NicViewOf(bridge, mac, Lower(model), rate))
  {
    NicIsClean(bridge, mac, Escaped(Lower(model)), rate);
    TemplateReadsBack(NicTemplate(bridge, mac, Escaped(Lower(model)), rate));
    NicMeaning(bridge, mac, Escaped(Lower(model)), rate);
  }
}
