/** The whole domain document: the tables of the source value by value, and the text around its disks
    and NICs spelled out. */
module DomainFrame {
  import opened Wrappers
  import opened Decimal
  import opened Strings
  import opened Xml
  import opened XmlTrees
  import opened XmlTemplates
  import opened DomainXml
  import opened DomainText
  import VlanNames

  // ---- The tables ----

  lemma {:induction false} BusTable(bus: string)
    ensures BusName("VIRTIO") == "virtio" && BusName("VIRTIO_SCSI") == "scsi" && BusName("SATA") == "sata" && BusName("IDE") == "ide"
    ensures bus !in {"VIRTIO", "VIRTIO_SCSI", "SATA", "IDE"} ==> BusName(bus) == "virtio"
    ensures DevicePrefix("VIRTIO") == "vd" && DevicePrefix("VIRTIO_SCSI") == "sd" && DevicePrefix("SATA") == "sd"
    ensures DevicePrefix("IDE") == "hd" && (bus !in {"VIRTIO", "VIRTIO_SCSI", "SATA", "IDE"} ==> DevicePrefix(bus) == "vd")
  {
    assert "VIRTIO"[0] == 'V' && "SATA"[0] == 'S' && "IDE"[0] == 'I' && |"VIRTIO"| == 6 && |"VIRTIO_SCSI"| == 11;
  }

  lemma {:induction false} StorageTable(storageType: string)
    ensures IsBlock(storageType) <==> storageType in {"LVM", "LVM_THIN", "ZFS", "CEPH_RBD"}
  {
  }

  lemma {:induction false} BootTable(d: string)
    ensures BootName("disk") == "hd" && BootName("cdrom") == "cdrom" && BootName("network") == "network" && BootName("floppy") == "fd"
    ensures d !in {"disk", "cdrom", "network", "floppy"} ==> BootName(d) == "hd"
  {
    assert |"disk"| == 4 && |"cdrom"| == 5 && |"network"| == 7 && |"floppy"| == 6;
  }

  lemma {:induction false} FormatTable(d: Disk)
    ensures d.format != "" ==> DriverFormat(d) == d.format
    ensures d.format == "" && d.storageType in {"LVM", "LVM_THIN", "ZFS", "CEPH_RBD"} ==> DriverFormat(d) == "raw"
    ensures d.format == "" && d.storageType !in {"LVM", "LVM_THIN", "ZFS", "CEPH_RBD"} ==> DriverFormat(d) == "qcow2"
  {
  }

  /** A disk keeps the device name it has; otherwise its place in the list gives the letter. */
  lemma {:induction false} DeviceNameExactly(d: Disk, index: nat)
    ensures d.device != "" ==> DeviceName(d, index) == Some(d.device)
    ensures d.device == "" && index < 26 ==>
      DeviceName(d, index) == Some(DevicePrefix(d.bus) + ["abcdefghijklmnopqrstuvwxyz"[index]])
  {
    LettersInOrder(index);
  }

  lemma {:induction false} LettersInOrder(index: nat)
    ensures index < 26 ==> "abcdefghijklmnopqrstuvwxyz"[index] as int == 'a' as int + index
  {
  }

  // ---- The text ----

  function LeafString(name: string, attrs: string, body: string): string {
    "<" + name + attrs + ">" + body + "</" + name + ">"
  }

  function EmptyString(name: string, attrs: string): string {
    "<" + name + attrs + "/>"
  }

  function HeadString(p: Payload): string {
    LeafString("name", "", Escape(p.name))
    + (LeafString("uuid", "", p.uuid)
    + (LeafString("memory", AttrString("unit", "MiB"), Digits(p.memoryMb))
    + (LeafString("currentMemory", AttrString("unit", "MiB"), Digits(p.memoryMb))
    + LeafString("vcpu", AttrString("placement", "static"), Digits(p.vcpus)))))
  }

  function IothreadsString(p: Payload): string {
    if exists i :: 0 <= i < |p.disks| && p.disks[i].iothread then LeafString("iothreads", "", "1") else ""
  }

  function BootString(order: seq<string>): string {
    if order == [] then "" else EmptyString("boot", AttrString("dev", BootName(order[0]))) + BootString(order[1..])
  }

  function OsString(p: Payload): string {
    LeafString("os", if p.firmware == "BIOS" then "" else AttrString("firmware", "efi"),
               LeafString("type", AttrString("arch", "x86_64") + AttrString("machine", Escape(p.machineType)), "hvm")
               + BootString(if p.bootOrder == [] then ["disk"] else p.bootOrder))
  }

  function PolicyString(): string {
    EmptyString("cpu", AttrString("mode", "host-passthrough"))
    + (LeafString("on_poweroff", "", "destroy")
    + (LeafString("on_reboot", "", "restart")
    + LeafString("on_crash", "", "restart")))
  }

  function ConsoleString(): string {
    LeafString("console", AttrString("type", "pty"), EmptyString("target", AttrString("type", "serial") + AttrString("port", "0")))
  }

  function GraphicsString(): string {
    EmptyString("graphics", AttrString("type", "vnc") + (AttrString("port", "-1")
                            + (AttrString("autoport", "yes") + AttrString("listen", "127.0.0.1"))))
  }

  function BalloonString(ballooning: bool): string {
    EmptyString("memballoon", AttrString("model", if ballooning then "virtio" else "none"))
  }

  function Joined(texts: seq<string>): string {
    if texts == [] then "" else texts[0] + Joined(texts[1..])
  }

  function DiskStrings(disks: seq<Disk>): seq<string>
    requires forall i :: 0 <= i < |disks| ==> DeviceName(disks[i], i).Some?
  {
    seq(|disks|, i requires 0 <= i < |disks| => DiskString(disks[i], DeviceName(disks[i], i).value))
  }

  function NicStrings(nics: seq<Nic>): seq<string>
    requires forall i :: 0 <= i < |nics| ==> VlanNames.ResolveNicBridge(nics[i].bridge, nics[i].vlan).Some?
  {
    seq(|nics|, i requires 0 <= i < |nics| =>
      NicString(Escape(VlanNames.ResolveNicBridge(nics[i].bridge, nics[i].vlan).value), Escape(nics[i].mac),
                Lower(nics[i].model), nics[i].rateMbps))
  }

  function DevicesString(disks: string, nics: string, ballooning: bool): string {
    LeafString("devices", "",
      LeafString("emulator", "", "/usr/bin/qemu-system-x86_64") + disks + nics
      + (ConsoleString() + (GraphicsString() + BalloonString(ballooning))))
  }

  ghost function DocumentString(p: Payload): string
    requires Buildable(p)
  {
    Document(HeadString(p), IothreadsString(p), OsString(p), PolicyString(),
             DevicesString(Joined(DiskStrings(p.disks)), Joined(NicStrings(p.nics)), p.ballooning))
  }

  // ---- The templates write it ----

  lemma {:induction false} WriteAllAppend(a: seq<Template>, b: seq<Template>)
    ensures WriteAll(a + b) == WriteAll(a) + WriteAll(b)
    decreases |a|
  {
    if a == [] {
      assert a + b == b;
    } else {
      assert (a + b)[1..] == a[1..] + b;
      WriteAllAppend(a[1..], b);
      Nest(Write(a[0]), WriteAll(a[1..]), WriteAll(b));
    }
  }

  lemma {:induction false} ThreeTexts(a: Template, b: Template, c: Template)
    ensures WriteAll([a, b, c]) == Write(a) + (Write(b) + Write(c))
  {
    assert [a, b, c] + [] == [a, b, c];
    FourChildren(a, b, c, []);
    assert Write(c) + WriteAll([]) == Write(c);
  }

  lemma {:induction false} FourTexts(a: Template, b: Template, c: Template, d: Template)
    ensures WriteAll([a, b, c, d]) == Write(a) + (Write(b) + (Write(c) + Write(d)))
  {
    assert [a, b, c] + [d] == [a, b, c, d];
    FourChildren(a, b, c, [d]);
    OneChild(d);
  }

  lemma {:induction false} FiveTexts(a: Template, b: Template, c: Template, d: Template, e: Template)
    ensures WriteAll([a, b, c, d, e]) == Write(a) + (Write(b) + (Write(c) + (Write(d) + Write(e))))
  {
    assert [a, b, c, d, e][1..] == [b, c, d, e];
    FourTexts(b, c, d, e);
  }

  lemma {:induction false} NoAttrs()
    ensures WriteAttrs([]) == ""
  {
  }

  lemma {:induction false} HeadSpelledOut(p: Payload)
    ensures WriteAll(HeadTemplates(p)) == HeadString(p)
  {
    var ts := HeadTemplates(p);
    NoAttrs();
    OneAttr(ts[2].attrs[0]);
    OneAttr(ts[4].attrs[0]);
    assert ts[2].attrs == [ts[2].attrs[0]] && ts[3].attrs == [ts[2].attrs[0]] && ts[4].attrs == [ts[4].attrs[0]];
    FiveTexts(ts[0], ts[1], ts[2], ts[3], ts[4]);
    assert ts == [ts[0], ts[1], ts[2], ts[3], ts[4]];
  }

  lemma {:induction false} IothreadsSpelledOut(p: Payload)
    ensures WriteAll(IothreadsTemplates(p)) == IothreadsString(p)
  {
    NoAttrs();
    if AnyIothread(p.disks) {
      OneChild(IothreadsTemplates(p)[0]);
    }
  }

  lemma {:induction false} BootSpelledOut(order: seq<string>)
    ensures WriteAll(BootTemplates(order)) == BootString(order)
    decreases |order|
  {
    if order != [] {
      var ts := BootTemplates(order);
      OneAttr(ts[0].attrs[0]);
      assert ts[1..] == BootTemplates(order[1..]);
      BootSpelledOut(order[1..]);
    }
  }

  lemma {:induction false} TypeSpelledOut(machine: string)
    ensures Write(TypeTemplate(machine))
         == LeafString("type", AttrString("arch", "x86_64") + AttrString("machine", Escape(machine)), "hvm")
  {
    TwoAttrs(TypeTemplate(machine).attrs[0], TypeTemplate(machine).attrs[1]);
  }

  lemma {:induction false} FirmwareSpelledOut(p: Payload)
    ensures WriteAttrs(OsTemplate(p).attrs) == if p.firmware == "BIOS" then "" else AttrString("firmware", "efi")
  {
    if p.firmware != "BIOS" {
      OneAttr(OsTemplate(p).attrs[0]);
    }
  }

  /** An element with children, given the text of its attributes, of the first child and of the rest. */
  lemma {:induction false} BranchText(t: Template, attrs: string, first: string, rest: string)
    requires t.Branch? && t.children != [] && WriteAttrs(t.attrs) == attrs
    requires Write(t.children[0]) == first && WriteAll(t.children[1..]) == rest
    ensures Write(t) == LeafString(t.name, attrs, first + rest)
  {
  }

  lemma {:induction false} OsSpelledOut(p: Payload)
    ensures Write(OsTemplate(p)) == OsString(p)
  {
    var order := if p.bootOrder == [] then ["disk"] else p.bootOrder;
    FirmwareSpelledOut(p);
    TypeSpelledOut(p.machineType);
    BootSpelledOut(order);
    assert OsTemplate(p).children[1..] == BootTemplates(order);
    BranchText(OsTemplate(p), if p.firmware == "BIOS" then "" else AttrString("firmware", "efi"),
               Write(TypeTemplate(p.machineType)), BootString(order));
  }

  lemma {:induction false} PolicySpelledOut()
    ensures WriteAll(PolicyTemplates()) == PolicyString()
  {
    var ts := PolicyTemplates();
    NoAttrs();
    OneAttr(ts[0].attrs[0]);
    FourTexts(ts[0], ts[1], ts[2], ts[3]);
    assert ts == [ts[0], ts[1], ts[2], ts[3]];
  }

  lemma {:induction false} FourAttrs(a: Attr<Slot>, b: Attr<Slot>, c: Attr<Slot>, d: Attr<Slot>)
    ensures WriteAttrs([a, b, c, d]) == AttrString(a.name, Put(a.value)) + (AttrString(b.name, Put(b.value))
      + (AttrString(c.name, Put(c.value)) + AttrString(d.name, Put(d.value))))
  {
    TwoAttrs(c, d);
    assert [a, b, c, d][1..] == [b, c, d] && [b, c, d][1..] == [c, d];
    assert WriteAttrs([b, c, d]) == AttrString(b.name, Put(b.value)) + WriteAttrs([c, d]);
  }

  lemma {:induction false} FixedDevicesSpelledOut(ballooning: bool)
    ensures Write(EmulatorTemplate()) == LeafString("emulator", "", "/usr/bin/qemu-system-x86_64")
    ensures Write(ConsoleTemplate()) == ConsoleString() && Write(GraphicsTemplate()) == GraphicsString()
    ensures Write(BalloonTemplate(ballooning)) == BalloonString(ballooning)
  {
    NoAttrs();
    var console := ConsoleTemplate();
    OneAttr(console.attrs[0]);
    OneChild(console.children[0]);
    TwoAttrs(console.children[0].attrs[0], console.children[0].attrs[1]);
    var g := GraphicsTemplate().attrs;
    FourAttrs(g[0], g[1], g[2], g[3]);
    OneAttr(BalloonTemplate(ballooning).attrs[0]);
  }

  lemma {:induction false} JoinedTexts(ts: seq<Template>, texts: seq<string>)
    requires |ts| == |texts| && forall i :: 0 <= i < |ts| ==> Write(ts[i]) == texts[i]
    ensures WriteAll(ts) == Joined(texts)
    decreases |ts|
  {
    if ts != [] {
      JoinedTexts(ts[1..], texts[1..]);
    }
  }

  lemma {:induction false} DisksSpelledOut(ts: seq<Template>, disks: seq<Disk>)
    requires DisksOf(ts, disks)
    ensures WriteAll(ts) == Joined(DiskStrings(disks))
  {
    forall i | 0 <= i < |ts| ensures Write(ts[i]) == DiskStrings(disks)[i] {
      DiskSpelledOut(disks[i], Verbatim(DeviceName(disks[i], i).value));
    }
    JoinedTexts(ts, DiskStrings(disks));
  }

  lemma {:induction false} NicsSpelledOut(ts: seq<Template>, nics: seq<Nic>)
    requires NicsOf(ts, nics) && forall i :: 0 <= i < |nics| ==> VlanNames.ResolveNicBridge(nics[i].bridge, nics[i].vlan).Some?
    ensures WriteAll(ts) == Joined(NicStrings(nics))
  {
    forall i | 0 <= i < |ts| ensures Write(ts[i]) == NicStrings(nics)[i] {
      var n := nics[i];
      assert TemplateOfNic(n) == Some(ts[i]);
      NicSpelledOut(VlanNames.ResolveNicBridge(n.bridge, n.vlan).value, n.mac, Verbatim(Lower(n.model)), n.rateMbps);
    }
    JoinedTexts(ts, NicStrings(nics));
  }

  lemma {:induction false} DevicesSpelledOut(disks: seq<Template>, nics: seq<Template>, ballooning: bool)
    ensures Write(DevicesTemplate(disks, nics, ballooning)) == DevicesString(WriteAll(disks), WriteAll(nics), ballooning)
  {
    FixedDevicesSpelledOut(ballooning);
    DevicesAssemble(DevicesTemplate(disks, nics, ballooning), EmulatorTemplate(), disks, nics,
                    ConsoleTemplate(), GraphicsTemplate(), BalloonTemplate(ballooning));
  }

  lemma {:induction false} DevicesAssemble(t: Template, a: Template, disks: seq<Template>, nics: seq<Template>, b: Template, c: Template, d: Template)
    requires t.Branch? && t.attrs == [] && t.children == [a] + disks + nics + [b, c, d]
    ensures Write(t) == LeafString(t.name, "", Write(a) + WriteAll(disks) + WriteAll(nics) + (Write(b) + (Write(c) + Write(d))))
  {
    NoAttrs();
    ThreeTexts(b, c, d);
    OneChild(a);
    WriteAllAppend([a], disks);
    WriteAllAppend([a] + disks, nics);
    WriteAllAppend([a] + disks + nics, [b, c, d]);
  }

  lemma {:induction false} DomainAssembles(t: Template, attrs: string, a: seq<Template>, b: seq<Template>, c: Template, d: seq<Template>, e: Template,
                                           va: string, vb: string, vc: string, vd: string, ve: string)
    requires t.Branch? && t.children == a + b + [c] + d + [e] && WriteAttrs(t.attrs) == attrs
    requires WriteAll(a) == va && WriteAll(b) == vb && Write(c) == vc && WriteAll(d) == vd && Write(e) == ve
    ensures Write(t) == LeafString(t.name, attrs, va + vb + vc + vd + ve)
  {
    WriteAllAppend(a, b);
    WriteAllAppend(a + b, [c]);
    WriteAllAppend(a + b + [c], d);
    WriteAllAppend(a + b + [c] + d, [e]);
    OneChild(c);
    OneChild(e);
  }

  function Document(head: string, iothreads: string, os: string, policy: string, devices: string): string {
    LeafString("domain", AttrString("type", "kvm"), head + iothreads + os + policy + devices)
  }

  lemma {:induction false} FrameSpelledOut(p: Payload, disks: seq<Template>, nics: seq<Template>)
    ensures Write(DomainTemplate(p, disks, nics))
         == Document(WriteAll(HeadTemplates(p)), WriteAll(IothreadsTemplates(p)), Write(OsTemplate(p)), WriteAll(PolicyTemplates()),
                     Write(DevicesTemplate(disks, nics, p.ballooning)))
  {
    var t := DomainTemplate(p, disks, nics);
    OneAttr(t.attrs[0]);
    DomainAssembles(t, AttrString("type", "kvm"),
                    HeadTemplates(p), IothreadsTemplates(p), OsTemplate(p), PolicyTemplates(), DevicesTemplate(disks, nics, p.ballooning),
                    WriteAll(HeadTemplates(p)), WriteAll(IothreadsTemplates(p)), Write(OsTemplate(p)), WriteAll(PolicyTemplates()),
                    Write(DevicesTemplate(disks, nics, p.ballooning)));
  }

  lemma {:induction false} AllDevicesSpelledOut(p: Payload, disks: seq<Template>, nics: seq<Template>)
    requires Buildable(p) && DisksOf(disks, p.disks) && NicsOf(nics, p.nics)
    ensures Write(DevicesTemplate(disks, nics, p.ballooning))
         == DevicesString(Joined(DiskStrings(p.disks)), Joined(NicStrings(p.nics)), p.ballooning)
  {
    DisksSpelledOut(disks, p.disks);
    NicsSpelledOut(nics, p.nics);
    DevicesSpelledOut(disks, nics, p.ballooning);
  }

  /** The document that is built is the source's text, character by character. */
  lemma {:induction false} DocumentSpelledOut(p: Payload, disks: seq<Template>, nics: seq<Template>)
    requires Buildable(p) && DisksOf(disks, p.disks) && NicsOf(nics, p.nics)
    ensures Write(DomainTemplate(p, disks, nics)) == DocumentString(p)
  {
    FrameSpelledOut(p, disks, nics);
    HeadSpelledOut(p);
    IothreadsSpelledOut(p);
    OsSpelledOut(p);
    PolicySpelledOut();
    AllDevicesSpelledOut(p, disks, nics);
  }
}
