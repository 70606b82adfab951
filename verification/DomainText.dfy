/** The templates of disks and NICs against the f-strings of the source, character by character. */
module DomainText {
  import opened Wrappers
  import opened Xml
  import opened XmlTrees
  import opened XmlTemplates
  import opened DomainXml

  // ---- The f-strings ----

  function SourceString(d: Disk): string {
    if IsBlock(d.storageType) then "<source dev=\"" + Escape(d.volumeId) + "\"/>"
    else "<source file=\"" + Escape(d.volumeId) + "\"/>"
  }

  function DriverString(d: Disk): string {
    "<driver name=\"qemu\" type=\"" + DriverFormat(d) + "\""
    + (if d.discard then " discard=\"unmap\"" else "") + (if d.iothread then " iothread=\"1\"" else "") + "/>"
  }

  function TargetString(d: Disk, device: string): string {
    "<target dev=\"" + device + "\" bus=\"" + BusName(d.bus) + "\"/>"
  }

  function ReadonlyString(d: Disk): string {
    if d.readonly then "<readonly/>" else ""
  }

  function DiskString(d: Disk, device: string): string {
    "<disk type=\"" + (if IsBlock(d.storageType) then "block" else "file") + "\" device=\"disk\">"
    + (DriverString(d) + (SourceString(d) + (TargetString(d, device) + ReadonlyString(d))))
    + "</disk>"
  }

  function BandwidthString(rate: Option<nat>): string {
    if rate.None? || rate.value == 0 then ""
    else
      var average := Average(rate.value);
      "<bandwidth><inbound average=\"" + average + "\"/><outbound average=\"" + average + "\"/></bandwidth>"
  }

  function NicString(bridge: string, mac: string, model: string, rate: Option<nat>): string {
    "<interface type=\"bridge\">"
    + ("<source bridge=\"" + bridge + "\"/>" + ("<mac address=\"" + mac + "\"/>" + ("<model type=\"" + model + "\"/>"
       + BandwidthString(rate))))
    + "</interface>"
  }

  // ---- Attributes ----

  function AttrString(name: string, text: string): string {
    " " + name + "=\"" + text + "\""
  }

  lemma {:induction false} WriteAttrsAppend(a: seq<Attr<Slot>>, b: seq<Attr<Slot>>)
    ensures WriteAttrs(a + b) == WriteAttrs(a) + WriteAttrs(b)
    decreases a
  {
    if a == [] {
      assert a + b == b;
    } else {
      assert (a + b)[1..] == a[1..] + b;
      WriteAttrsAppend(a[1..], b);
      Nest(AttrString(a[0].name, Put(a[0].value)), WriteAttrs(a[1..]), WriteAttrs(b));
    }
  }

  lemma {:induction false} OneAttr(a: Attr<Slot>)
    ensures WriteAttrs([a]) == AttrString(a.name, Put(a.value))
  {
    assert [a][1..] == [];
  }

  lemma {:induction false} TwoAttrs(a: Attr<Slot>, b: Attr<Slot>)
    ensures WriteAttrs([a, b]) == AttrString(a.name, Put(a.value)) + AttrString(b.name, Put(b.value))
  {
    OneAttr(b);
    assert [a, b][1..] == [b];
  }

  lemma {:induction false} FourChildren(a: Template, b: Template, c: Template, rest: seq<Template>)
    ensures WriteAll([a, b, c] + rest) == Write(a) + (Write(b) + (Write(c) + WriteAll(rest)))
  {
    var all := [a, b, c] + rest;
    assert all[1..] == [b, c] + rest && ([b, c] + rest)[1..] == [c] + rest && ([c] + rest)[1..] == rest;
    assert WriteAll([c] + rest) == Write(c) + WriteAll(rest);
    assert WriteAll([b, c] + rest) == Write(b) + WriteAll([c] + rest);
  }

  lemma {:induction false} Around(open: string, body: string, a: string, b: string, c: string)
    ensures open + body + a + b + c == open + body + (a + b + c)
  {
  }

  lemma {:induction false} OneChild(t: Template)
    ensures WriteAll([t]) == Write(t)
  {
    assert [t][1..] == [];
  }

  // ---- Disks ----

  lemma {:induction false} TargetSpelledOut(d: Disk, device: Slot)
    ensures Write(TargetTemplate(d, device)) == TargetString(d, Put(device))
  {
    TwoAttrs(TargetTemplate(d, device).attrs[0], TargetTemplate(d, device).attrs[1]);
    TargetCharacters(Put(device), BusName(d.bus));
  }

  lemma {:induction false} TargetCharacters(device: string, bus: string)
    ensures "<" + "target" + (AttrString("dev", device) + AttrString("bus", bus)) + "/>"
         == "<target dev=\"" + device + "\" bus=\"" + bus + "\"/>"
  {
  }

  lemma {:induction false} SourceSpelledOut(d: Disk)
    ensures Write(SourceTemplate(d)) == SourceString(d)
  {
    OneAttr(SourceTemplate(d).attrs[0]);
    SourceCharacters(Escape(d.volumeId));
  }

  lemma {:induction false} SourceCharacters(volume: string)
    ensures "<" + "source" + AttrString("dev", volume) + "/>" == "<source dev=\"" + volume + "\"/>"
    ensures "<" + "source" + AttrString("file", volume) + "/>" == "<source file=\"" + volume + "\"/>"
  {
  }

  lemma {:induction false} FlagCharacters()
    ensures AttrString("discard", "unmap") == " discard=\"unmap\"" && AttrString("iothread", "1") == " iothread=\"1\""
  {
  }

  lemma {:induction false} FlagsSpelledOut(d: Disk)
    ensures WriteAttrs(DiscardAttrs(d)) == if d.discard then " discard=\"unmap\"" else ""
    ensures WriteAttrs(IothreadAttrs(d)) == if d.iothread then " iothread=\"1\"" else ""
  {
    FlagCharacters();
    if d.discard {
      OneAttr(DiscardAttrs(d)[0]);
    }
    if d.iothread {
      OneAttr(IothreadAttrs(d)[0]);
    }
  }

  lemma {:induction false} DriverCharacters(format: string, discard: string, iothread: string)
    ensures "<" + "driver" + (AttrString("name", "qemu") + AttrString("type", format) + discard + iothread) + "/>"
         == "<driver name=\"qemu\" type=\"" + format + "\"" + discard + iothread + "/>"
  {
  }

  lemma {:induction false} DriverSpelledOut(d: Disk)
    ensures Write(DriverTemplate(d)) == DriverString(d)
  {
    var base := DriverBase(d);
    TwoAttrs(base[0], base[1]);
    WriteAttrsAppend(base, DiscardAttrs(d));
    WriteAttrsAppend(base + DiscardAttrs(d), IothreadAttrs(d));
    FlagsSpelledOut(d);
    DriverCharacters(DriverFormat(d), WriteAttrs(DiscardAttrs(d)), WriteAttrs(IothreadAttrs(d)));
  }

  lemma {:induction false} DiskOpens(kind: string)
    ensures "<" + "disk" + (AttrString("type", kind) + AttrString("device", "disk")) + ">"
         == "<disk type=\"" + kind + "\" device=\"disk\">"
  {
  }

  lemma {:induction false} DiskCloses()
    ensures "</" + "disk" + ">" == "</disk>"
  {
  }

  lemma {:induction false} ReadonlySpelledOut(d: Disk)
    ensures WriteAll(ReadonlyTemplates(d)) == ReadonlyString(d)
  {
    if d.readonly {
      OneChild(ReadonlyTemplates(d)[0]);
      assert "<" + "readonly" + "" + "/>" == "<readonly/>";
    }
  }

  /** A disk's element is the source's f-string, with the device name escaped or not as there. */
  lemma {:induction false} DiskSpelledOut(d: Disk, device: Slot)
    ensures Write(DiskTemplate(d, device)) == DiskString(d, Put(device))
  {
    var t := DiskTemplate(d, device);
    TwoAttrs(t.attrs[0], t.attrs[1]);
    DriverSpelledOut(d);
    SourceSpelledOut(d);
    TargetSpelledOut(d, device);
    ReadonlySpelledOut(d);
    FourChildren(DriverTemplate(d), SourceTemplate(d), TargetTemplate(d, device), ReadonlyTemplates(d));
    DiskOpens(if IsBlock(d.storageType) then "block" else "file");
    DiskCloses();
    Around("<" + t.name + WriteAttrs(t.attrs) + ">", WriteAll(t.children), "</", t.name, ">");
  }

  // ---- NICs ----

  lemma {:induction false} BridgeSpelledOut(bridge: string)
    ensures Write(BridgeTemplate(bridge)) == "<source bridge=\"" + Escape(bridge) + "\"/>"
  {
    OneAttr(BridgeTemplate(bridge).attrs[0]);
    BridgeCharacters(Escape(bridge));
  }

  lemma {:induction false} BridgeCharacters(text: string)
    ensures "<" + "source" + AttrString("bridge", text) + "/>" == "<source bridge=\"" + text + "\"/>"
  {
  }

  lemma {:induction false} MacSpelledOut(mac: string)
    ensures Write(MacTemplate(mac)) == "<mac address=\"" + Escape(mac) + "\"/>"
  {
    OneAttr(MacTemplate(mac).attrs[0]);
    MacCharacters(Escape(mac));
  }

  lemma {:induction false} MacCharacters(text: string)
    ensures "<" + "mac" + AttrString("address", text) + "/>" == "<mac address=\"" + text + "\"/>"
  {
  }

  lemma {:induction false} ModelSpelledOut(model: Slot)
    ensures Write(ModelTemplate(model)) == "<model type=\"" + Put(model) + "\"/>"
  {
    OneAttr(ModelTemplate(model).attrs[0]);
    ModelCharacters(Put(model));
  }

  lemma {:induction false} ModelCharacters(text: string)
    ensures "<" + "model" + AttrString("type", text) + "/>" == "<model type=\"" + text + "\"/>"
  {
  }

  lemma {:induction false} InboundCharacters(average: string)
    ensures "<" + "inbound" + AttrString("average", average) + "/>" == "<inbound average=\"" + average + "\"/>"
  {
  }

  lemma {:induction false} OutboundCharacters(average: string)
    ensures "<" + "outbound" + AttrString("average", average) + "/>" == "<outbound average=\"" + average + "\"/>"
  {
  }

  lemma {:induction false} BandwidthFrame()
    ensures "<" + "bandwidth" + "" + ">" == "<bandwidth>" && "</" + "bandwidth" + ">" == "</bandwidth>"
  {
  }

  lemma {:induction false} BandwidthSeams()
    ensures "<bandwidth>" + "<inbound average=\"" == "<bandwidth><inbound average=\""
    ensures "\"/>" + "<outbound average=\"" == "\"/><outbound average=\""
    ensures "\"/>" + "</bandwidth>" == "\"/></bandwidth>"
  {
  }

  lemma {:induction false} Rejoined(a: string, b: string, n: string, c: string, d: string, e: string)
    ensures a + (b + n + c + (d + n + c)) + e == (a + b) + n + (c + d) + n + (c + e)
  {
  }

  lemma {:induction false} BandwidthCharacters(average: string)
    ensures "<bandwidth>" + ("<inbound average=\"" + average + "\"/>" + ("<outbound average=\"" + average + "\"/>")) + "</bandwidth>"
         == "<bandwidth><inbound average=\"" + average + "\"/><outbound average=\"" + average + "\"/></bandwidth>"
  {
    BandwidthSeams();
    Rejoined("<bandwidth>", "<inbound average=\"", average, "\"/>", "<outbound average=\"", "</bandwidth>");
  }

  lemma {:induction false} BandwidthSpelledOut(rate: Option<nat>)
    ensures WriteAll(BandwidthTemplates(rate)) == BandwidthString(rate)
  {
    if rate.Some? && rate.value != 0 {
      var t := BandwidthTemplates(rate)[0];
      var average := Average(rate.value);
      OneChild(t);
      LimitsSpelledOut(rate.value);
      BandwidthFrame();
      Around("<" + t.name + "" + ">", WriteAll(t.children), "</", t.name, ">");
      BandwidthCharacters(average);
    }
  }

  lemma {:induction false} LimitsSpelledOut(mbps: nat)
    requires mbps != 0
    ensures var average := Average(mbps);
      WriteAll(BandwidthTemplates(Some(mbps))[0].children)
      == "<inbound average=\"" + average + "\"/>" + ("<outbound average=\"" + average + "\"/>")
  {
    var ts := BandwidthTemplates(Some(mbps))[0].children;
    OneAttr(ts[0].attrs[0]);
    InboundCharacters(Average(mbps));
    OutboundCharacters(Average(mbps));
    assert ts[1..] == [ts[1]];
    OneChild(ts[1]);
  }

  lemma {:induction false} InterfaceFrame()
    ensures "<" + "interface" + AttrString("type", "bridge") + ">" == "<interface type=\"bridge\">"
    ensures "</" + "interface" + ">" == "</interface>"
  {
  }

  /** A NIC's element is the source's f-string, with the model escaped or not as there. */
  lemma {:induction false} NicSpelledOut(bridge: string, mac: string, model: Slot, rate: Option<nat>)
    ensures Write(NicTemplate(bridge, mac, model, rate)) == NicString(Escape(bridge), Escape(mac), Put(model), rate)
  {
    var t := NicTemplate(bridge, mac, model, rate);
    OneAttr(t.attrs[0]);
    BridgeSpelledOut(bridge);
    MacSpelledOut(mac);
    ModelSpelledOut(model);
    BandwidthSpelledOut(rate);
    FourChildren(BridgeTemplate(bridge), MacTemplate(mac), ModelTemplate(model), BandwidthTemplates(rate));
    InterfaceFrame();
    Around("<" + t.name + WriteAttrs(t.attrs) + ">", WriteAll(t.children), "</", t.name, ">");
  }
}
