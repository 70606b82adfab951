/** What a reader of a domain document takes from it: its disks and its NICs. */
module DomainReader {
  import opened Wrappers
  import opened XmlTrees

  datatype DiskView = DiskView(block: bool, volumeId: string, format: string, device: string, bus: string,
                               discard: bool, iothread: bool, readonly: bool)

  datatype NicView = NicView(bridge: string, mac: string, model: string, inbound: Option<string>, outbound: Option<string>)

  datatype DomainView = DomainView(name: string, uuid: string, memory: string, vcpus: string, iothreads: bool,
                                   machine: string, efi: bool, boot: seq<Option<string>>, balloon: Option<string>,
                                   disks: seq<DiskView>, nics: seq<NicView>)

  function Lookup(attrs: seq<Attr<string>>, name: string): Option<string> {
    if attrs == [] then None
    else if attrs[0].name == name then Some(attrs[0].value)
    else Lookup(attrs[1..], name)
  }

  function Inside(t: Element): seq<Element> {
    if t.Branch? then t.children else []
  }

  function First(ts: seq<Element>, name: string): Option<Element> {
    if ts == [] then None
    else if ts[0].name == name then Some(ts[0])
    else First(ts[1..], name)
  }

  function Named(ts: seq<Element>, name: string): seq<Element> {
    if ts == [] then [] else (if ts[0].name == name then [ts[0]] else []) + Named(ts[1..], name)
  }

  /** An attribute of the first child of a name. */
  function ChildAttr(t: Element, child: string, name: string): Option<string> {
    var c := First(Inside(t), child);
    if c.None? then None else Lookup(c.value.attrs, name)
  }

  function ReadDisk(t: Element): Option<DiskView> {
    var block := Lookup(t.attrs, "type") == Some("block");
    var volume := ChildAttr(t, "source", if block then "dev" else "file");
    var format := ChildAttr(t, "driver", "type");
    var device := ChildAttr(t, "target", "dev");
    var bus := ChildAttr(t, "target", "bus");
    if volume.None? || format.None? || device.None? || bus.None? then None
    else Some(DiskView(block, volume.value, format.value, device.value, bus.value,
                       ChildAttr(t, "driver", "discard") == Some("unmap"), ChildAttr(t, "driver", "iothread") == Some("1"),
                       First(Inside(t), "readonly").Some?))
  }

  function Limit(t: Element, direction: string): Option<string> {
    var b := First(Inside(t), "bandwidth");
    if b.None? then None else ChildAttr(b.value, direction, "average")
  }

  function ReadNic(t: Element): Option<NicView> {
    var bridge := ChildAttr(t, "source", "bridge");
    var mac := ChildAttr(t, "mac", "address");
    var model := ChildAttr(t, "model", "type");
    if bridge.None? || mac.None? || model.None? then None
    else Some(NicView(bridge.value, mac.value, model.value, Limit(t, "inbound"), Limit(t, "outbound")))
  }

  function ReadDisks(ts: seq<Element>): Option<seq<DiskView>> {
    if ts == [] then Some([])
    else
      var first, others := ReadDisk(ts[0]), ReadDisks(ts[1..]);
      if first.None? || others.None? then None else Some([first.value] + others.value)
  }

  function ReadNics(ts: seq<Element>): Option<seq<NicView>> {
    if ts == [] then Some([])
    else
      var first, others := ReadNic(ts[0]), ReadNics(ts[1..]);
      if first.None? || others.None? then None else Some([first.value] + others.value)
  }

  function ChildText(t: Element, child: string): Option<string> {
    var c := First(Inside(t), child);
    if c.Some? && c.value.Leaf? then Some(c.value.text) else None
  }

  function AttrOfEach(ts: seq<Element>, name: string): (r: seq<Option<string>>)
    ensures |r| == |ts| && forall i :: 0 <= i < |ts| ==> r[i] == Lookup(ts[i].attrs, name)
  {
    if ts == [] then [] else [Lookup(ts[0].attrs, name)] + AttrOfEach(ts[1..], name)
  }

  function ReadRoot(root: Element): Option<DomainView> {
    var name, uuid := ChildText(root, "name"), ChildText(root, "uuid");
    var memory, vcpus := ChildText(root, "memory"), ChildText(root, "vcpu");
    var os, devices := First(Inside(root), "os"), First(Inside(root), "devices");
    if name.None? || uuid.None? || memory.None? || vcpus.None? || os.None? || devices.None? then None
    else
      var machine := ChildAttr(os.value, "type", "machine");
      var disks := ReadDisks(Named(Inside(devices.value), "disk"));
      var nics := ReadNics(Named(Inside(devices.value), "interface"));
      if machine.None? || disks.None? || nics.None? then None
      else Some(DomainView(name.value, uuid.value, memory.value, vcpus.value, First(Inside(root), "iothreads").Some?,
                           machine.value, Lookup(os.value.attrs, "firmware") == Some("efi"),
                           AttrOfEach(Named(Inside(os.value), "boot"), "dev"),
                           ChildAttr(devices.value, "memballoon", "model"), disks.value, nics.value))
  }

  function ReadDomain(text: string): Option<DomainView> {
    var document := ParseDocument(text);
    if document.None? then None else ReadRoot(document.value)
  }

  // ---- Finding things ----

  lemma {:induction false} LookupAt(attrs: seq<Attr<string>>, name: string, i: nat)
    requires i < |attrs| && attrs[i].name == name && forall j :: 0 <= j < i ==> attrs[j].name != name
    ensures Lookup(attrs, name) == Some(attrs[i].value)
    decreases attrs
  {
    if i > 0 {
      LookupAt(attrs[1..], name, i - 1);
    }
  }

  lemma {:induction false} LookupAbsent(attrs: seq<Attr<string>>, name: string)
    requires forall j :: 0 <= j < |attrs| ==> attrs[j].name != name
    ensures Lookup(attrs, name) == None
    decreases attrs
  {
    if attrs != [] {
      LookupAbsent(attrs[1..], name);
    }
  }

  lemma {:induction false} FirstAt(ts: seq<Element>, name: string, i: nat)
    requires i < |ts| && ts[i].name == name && forall j :: 0 <= j < i ==> ts[j].name != name
    ensures First(ts, name) == Some(ts[i])
    decreases i
  {
    if i > 0 {
      FirstAt(ts[1..], name, i - 1);
    }
  }

  lemma {:induction false} FirstAbsent(ts: seq<Element>, name: string)
    requires forall j :: 0 <= j < |ts| ==> ts[j].name != name
    ensures First(ts, name) == None
    decreases |ts|
  {
    if ts != [] {
      FirstAbsent(ts[1..], name);
    }
  }

  lemma {:induction false} NamedAppend(a: seq<Element>, b: seq<Element>, name: string)
    ensures Named(a + b, name) == Named(a, name) + Named(b, name)
    decreases |a|
  {
    if a == [] {
      assert a + b == b;
    } else {
      var first := if a[0].name == name then [a[0]] else [];
      NamedAppend(a[1..], b, name);
      assert (a + b)[1..] == a[1..] + b && (a + b)[0] == a[0];
      Nest(first, Named(a[1..], name), Named(b, name));
    }
  }

  lemma {:induction false} NamedAll(ts: seq<Element>, name: string)
    requires forall j :: 0 <= j < |ts| ==> ts[j].name == name
    ensures Named(ts, name) == ts
    decreases |ts|
  {
    if ts != [] {
      NamedAll(ts[1..], name);
      assert [ts[0]] + ts[1..] == ts;
    }
  }

  lemma {:induction false} NamedNone(ts: seq<Element>, name: string)
    requires forall j :: 0 <= j < |ts| ==> ts[j].name != name
    ensures Named(ts, name) == []
    decreases |ts|
  {
    if ts != [] {
      NamedNone(ts[1..], name);
    }
  }

  lemma {:induction false} DisksRead(ts: seq<Element>, views: seq<DiskView>)
    requires |ts| == |views| && forall i :: 0 <= i < |ts| ==> ReadDisk(ts[i]) == Some(views[i])
    ensures ReadDisks(ts) == Some(views)
    decreases |ts|
  {
    if ts != [] {
      DisksRead(ts[1..], views[1..]);
      assert [views[0]] + views[1..] == views;
    }
  }

  lemma {:induction false} NicsRead(ts: seq<Element>, views: seq<NicView>)
    requires |ts| == |views| && forall i :: 0 <= i < |ts| ==> ReadNic(ts[i]) == Some(views[i])
    ensures ReadNics(ts) == Some(views)
    decreases |ts|
  {
    if ts != [] {
      NicsRead(ts[1..], views[1..]);
      assert [views[0]] + views[1..] == views;
    }
  }

  // ---- The shapes of disks and NICs ----

  lemma {:induction false} DiskPartsFound(driver: Element, source: Element, target: Element, rest: seq<Element>)
    requires driver.name == "driver" && source.name == "source" && target.name == "target"
    requires forall i :: 0 <= i < |rest| ==> rest[i].name == "readonly"
    ensures var ts := [driver, source, target] + rest;
      && First(ts, "driver") == Some(driver) && First(ts, "source") == Some(source)
      && First(ts, "target") == Some(target) && (First(ts, "readonly").Some? <==> rest != [])
  {
    var ts := [driver, source, target] + rest;
    assert "driver"[0] == 'd' && "source"[0] == 's' && "target"[0] == 't' && |"readonly"| == 8;
    FirstAt(ts, "driver", 0);
    FirstAt(ts, "source", 1);
    FirstAt(ts, "target", 2);
    if rest == [] {
      FirstAbsent(ts, "readonly");
    } else {
      assert ts[3] == rest[0];
      FirstAt(ts, "readonly", 3);
    }
  }

  lemma {:induction false} NicPartsFound(source: Element, mac: Element, model: Element, rest: seq<Element>)
    requires source.name == "source" && mac.name == "mac" && model.name == "model"
    requires |rest| <= 1 && forall i :: 0 <= i < |rest| ==> rest[i].name == "bandwidth"
    ensures var ts := [source, mac, model] + rest;
      && First(ts, "source") == Some(source) && First(ts, "mac") == Some(mac) && First(ts, "model") == Some(model)
      && First(ts, "bandwidth") == (if rest == [] then None else Some(rest[0]))
  {
    var ts := [source, mac, model] + rest;
    assert |"source"| == 6 && |"mac"| == 3 && |"model"| == 5 && |"bandwidth"| == 9;
    FirstAt(ts, "source", 0);
    FirstAt(ts, "mac", 1);
    FirstAt(ts, "model", 2);
    if rest == [] {
      FirstAbsent(ts, "bandwidth");
    } else {
      assert ts[3] == rest[0];
      FirstAt(ts, "bandwidth", 3);
    }
  }

  /** A disk as libvirt writes it reads as its parts, whatever the order of its driver's options. */
  lemma {:induction false} DiskShapeReads(attrs: seq<Attr<string>>, driver: Element, source: Element, target: Element, rest: seq<Element>,
                       view: DiskView)
    requires driver.name == "driver" && source.name == "source" && target.name == "target"
    requires (forall i :: 0 <= i < |rest| ==> rest[i].name == "readonly") && (rest != [] <==> view.readonly)
    requires (Lookup(attrs, "type") == Some("block")) == view.block
    requires Lookup(source.attrs, if view.block then "dev" else "file") == Some(view.volumeId)
    requires Lookup(driver.attrs, "type") == Some(view.format)
    requires (Lookup(driver.attrs, "discard") == Some("unmap")) == view.discard
    requires (Lookup(driver.attrs, "iothread") == Some("1")) == view.iothread
    requires Lookup(target.attrs, "dev") == Some(view.device) && Lookup(target.attrs, "bus") == Some(view.bus)
    ensures ReadDisk(Branch("disk", attrs, [driver, source, target] + rest)) == Some(view)
  {
    DiskPartsFound(driver, source, target, rest);
  }

  lemma {:induction false} NicShapeReads(attrs: seq<Attr<string>>, source: Element, mac: Element, model: Element, rest: seq<Element>, view: NicView)
    requires source.name == "source" && mac.name == "mac" && model.name == "model"
    requires |rest| <= 1 && forall i :: 0 <= i < |rest| ==> rest[i].name == "bandwidth"
    requires Lookup(source.attrs, "bridge") == Some(view.bridge)
    requires Lookup(mac.attrs, "address") == Some(view.mac)
    requires Lookup(model.attrs, "type") == Some(view.model)
    requires view.inbound == (if rest == [] then None else ChildAttr(rest[0], "inbound", "average"))
    requires view.outbound == (if rest == [] then None else ChildAttr(rest[0], "outbound", "average"))
    ensures ReadNic(Branch("interface", attrs, [source, mac, model] + rest)) == Some(view)
  {
    NicPartsFound(source, mac, model, rest);
  }

  lemma {:induction false} RootShapeReads(root: Element, name: string, uuid: string, memory: string, vcpus: string, os: Element,
                                          machine: string, devices: Element, disks: seq<DiskView>, nics: seq<NicView>)
    requires ChildText(root, "name") == Some(name) && ChildText(root, "uuid") == Some(uuid)
    requires ChildText(root, "memory") == Some(memory) && ChildText(root, "vcpu") == Some(vcpus)
    requires First(Inside(root), "os") == Some(os) && ChildAttr(os, "type", "machine") == Some(machine)
    requires First(Inside(root), "devices") == Some(devices)
    requires ReadDisks(Named(Inside(devices), "disk")) == Some(disks)
    requires ReadNics(Named(Inside(devices), "interface")) == Some(nics)
    ensures ReadRoot(root) == Some(DomainView(name, uuid, memory, vcpus, First(Inside(root), "iothreads").Some?, machine,
      Lookup(os.attrs, "firmware") == Some("efi"), AttrOfEach(Named(Inside(os), "boot"), "dev"),
      ChildAttr(devices, "memballoon", "model"), disks, nics))
  {
  }
}
