/** Documents as f-strings make them: fixed markup around values, of which some are escaped on the way
    in and the others go in verbatim. */
module XmlTemplates {
  import opened Wrappers
  import opened Xml
  import opened XmlTrees

  type PlainText = s: string | Plain(s)

  /** A value that is escaped, one that goes in as it comes, or fixed text of the f-string itself. */
  datatype Slot = Escaped(value: string) | Verbatim(raw: string) | Word(text: PlainText)

  type Template = Tree<Slot>

  function Put(s: Slot): string {
    match s
    case Escaped(value) => Escape(value)
    case Verbatim(raw) => raw
    case Word(text) => text
  }

  function ValueOf(s: Slot): string {
    match s
    case Escaped(value) => value
    case Verbatim(raw) => raw
    case Word(text) => text
  }

  function WriteAttrs(attrs: seq<Attr<Slot>>): string {
    if attrs == [] then "" else " " + attrs[0].name + "=\"" + Put(attrs[0].value) + "\"" + WriteAttrs(attrs[1..])
  }

  function Write(t: Template): string
    decreases t, 0
  {
    match t
    case Empty(name, attrs) => "<" + name + WriteAttrs(attrs) + "/>"
    case Leaf(name, attrs, text) => "<" + name + WriteAttrs(attrs) + ">" + Put(text) + "</" + name + ">"
    case Branch(name, attrs, children) => "<" + name + WriteAttrs(attrs) + ">" + WriteAll(children) + "</" + name + ">"
  }

  function WriteAll(children: seq<Template>): string
    decreases children
  {
    if children == [] then "" else Write(children[0]) + WriteAll(children[1..])
  }

  // ---- What a template means ----

  function Meaning(t: Template): (r: Element)
    ensures r.name == t.name && |r.attrs| == |t.attrs|
    decreases t, 0
  {
    match t
    case Empty(name, attrs) => Empty(name, AttrsMeaning(attrs))
    case Leaf(name, attrs, text) => Leaf(name, AttrsMeaning(attrs), ValueOf(text))
    case Branch(name, attrs, children) => Branch(name, AttrsMeaning(attrs), MeaningOfAll(children))
  }

  function AttrsMeaning(attrs: seq<Attr<Slot>>): (r: seq<Attr<string>>)
    ensures |r| == |attrs|
    ensures forall i :: 0 <= i < |attrs| ==> r[i] == Attr(attrs[i].name, ValueOf(attrs[i].value))
  {
    if attrs == [] then [] else [Attr(attrs[0].name, ValueOf(attrs[0].value))] + AttrsMeaning(attrs[1..])
  }

  function MeaningOfAll(children: seq<Template>): (r: seq<Element>)
    ensures |r| == |children|
    ensures forall i :: 0 <= i < |children| ==> r[i] == Meaning(children[i])
    decreases children
  {
    if children == [] then [] else [Meaning(children[0])] + MeaningOfAll(children[1..])
  }

  // ---- When the text says what the template means ----

  ghost predicate CleanSlot(s: Slot) {
    s.Verbatim? ==> Plain(s.raw)
  }

  ghost predicate CleanAttrs(attrs: seq<Attr<Slot>>) {
    forall i :: 0 <= i < |attrs| ==> CleanSlot(attrs[i].value)
  }

  /** Every value that goes in verbatim is plain. */
  ghost predicate Clean(t: Template)
    decreases t
  {
    && CleanAttrs(t.attrs)
    && (t.Leaf? ==> CleanSlot(t.text))
    && (t.Branch? ==> t.children != [] && forall i :: 0 <= i < |t.children| ==> Clean(t.children[i]))
  }

  lemma {:induction false} SlotText(s: Slot)
    requires CleanSlot(s)
    ensures Put(s) == EscapeEach(ValueOf(s))
  {
    if s.Escaped? {
      EscapeIsOnePass(s.value);
    } else {
      PlainEach(ValueOf(s));
    }
  }

  lemma {:induction false} AttrsText(attrs: seq<Attr<Slot>>)
    requires CleanAttrs(attrs)
    ensures WriteAttrs(attrs) == PrintAttrs(AttrsMeaning(attrs))
    decreases attrs
  {
    if attrs != [] {
      SlotText(attrs[0].value);
      AttrsText(attrs[1..]);
      var meaning := AttrsMeaning(attrs);
      assert meaning[1..] == AttrsMeaning(attrs[1..]);
    }
  }

  lemma {:induction false} AllText(children: seq<Template>)
    requires forall i :: 0 <= i < |children| ==> Clean(children[i])
    ensures WriteAll(children) == PrintAll(MeaningOfAll(children))
    ensures forall i :: 0 <= i < |children| ==> Printable(MeaningOfAll(children)[i])
    decreases children
  {
    if children != [] {
      TreeText(children[0]);
      AllText(children[1..]);
      assert MeaningOfAll(children)[1..] == MeaningOfAll(children[1..]);
    }
  }

  lemma {:induction false} TreeText(t: Template)
    requires Clean(t)
    ensures Write(t) == Print(Meaning(t)) && Printable(Meaning(t))
    decreases t
  {
    AttrsText(t.attrs);
    if t.Leaf? {
      SlotText(t.text);
    } else if t.Branch? {
      AllText(t.children);
    }
  }

  /** A clean template's text reads back as its meaning, whatever the escaped values are. */
  lemma {:induction false} TemplateReadsBack(t: Template)
    requires Clean(t)
    ensures ParseDocument(Write(t)) == Some(Meaning(t))
  {
    TreeText(t);
    DocumentReadsBack(Meaning(t));
  }
}
