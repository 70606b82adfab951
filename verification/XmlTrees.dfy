/** Element trees, their text, and a reader for that text. Text mixed with elements, comments and
    processing instructions do not occur in the agent's documents. */
module XmlTrees {
  import opened Wrappers
  import opened Xml

  predicate IsNameChar(c: char) {
    'a' <= c <= 'z' || 'A' <= c <= 'Z' || '0' <= c <= '9' || c == '_'
  }

  type Name = s: string | s != [] && forall i :: 0 <= i < |s| ==> IsNameChar(s[i]) witness "x"

  /** Trees over the values their attributes and texts hold. */
  datatype Attr<+V> = Attr(name: Name, value: V)

  datatype Tree<+V> =
    | Empty(name: Name, attrs: seq<Attr<V>>)
    | Leaf(name: Name, attrs: seq<Attr<V>>, text: V)
    | Branch(name: Name, attrs: seq<Attr<V>>, children: seq<Tree<V>>)

  type Element = Tree<string>

  /** An element without children is written as an empty one. */
  ghost predicate Printable(t: Element)
    decreases t
  {
    t.Branch? ==> t.children != [] && forall i :: 0 <= i < |t.children| ==> Printable(t.children[i])
  }

  // ---- Writing ----

  function PrintAttr(a: Attr<string>): string {
    " " + a.name + "=\"" + EscapeEach(a.value) + "\""
  }

  function PrintAttrs(attrs: seq<Attr<string>>): string {
    if attrs == [] then "" else PrintAttr(attrs[0]) + PrintAttrs(attrs[1..])
  }

  function Print(t: Element): string
    decreases t, 0
  {
    match t
    case Empty(name, attrs) => "<" + name + PrintAttrs(attrs) + "/>"
    case Leaf(name, attrs, text) => "<" + name + PrintAttrs(attrs) + ">" + EscapeEach(text) + "</" + name + ">"
    case Branch(name, attrs, children) => "<" + name + PrintAttrs(attrs) + ">" + PrintAll(children) + "</" + name + ">"
  }

  function PrintAll(children: seq<Element>): string
    decreases children
  {
    if children == [] then "" else Print(children[0]) + PrintAll(children[1..])
  }

  // ---- Reading ----

  datatype Parsed<T> = Parsed(value: T, rest: string)

  function NameLength(s: string): (n: nat)
    ensures n <= |s| && forall i :: 0 <= i < n ==> IsNameChar(s[i])
  {
    if s == [] || !IsNameChar(s[0]) then 0 else 1 + NameLength(s[1..])
  }

  function Find(s: string, c: char): (n: nat)
    ensures n <= |s| && (n < |s| ==> s[n] == c)
  {
    if s == [] || s[0] == c then 0 else 1 + Find(s[1..], c)
  }

  /** ` name="value"`; a `<` inside the value is not well-formed. */
  function ParseAttr(s: string): (r: Option<Parsed<Attr<string>>>)
    ensures r.Some? ==> |r.value.rest| < |s|
  {
    if !StartsWith(s, " ") then None
    else
      var n := NameLength(s[1..]);
      assert forall i :: 0 <= i < n ==> s[1..1 + n][i] == s[1..][i];
      var after := s[1 + n..];
      if n == 0 || !StartsWith(after, "=\"") then None
      else
        var open := after[2..];
        var end := Find(open, '"');
        if end == |open| || '<' in open[..end] then None
        else
          var value := Unescape(open[..end]);
          if value.None? then None
          else Some(Parsed(Attr(s[1..1 + n], value.value), open[end + 1..]))
  }

  function ParseAttrs(s: string): (r: Option<Parsed<seq<Attr<string>>>>)
    ensures r.Some? ==> |r.value.rest| <= |s|
    decreases |s|
  {
    if !StartsWith(s, " ") then Some(Parsed([], s))
    else
      var first := ParseAttr(s);
      if first.None? then None
      else
        var others := ParseAttrs(first.value.rest);
        if others.None? then None
        else Some(Parsed([first.value.value] + others.value.value, others.value.rest))
  }

  function ParseClose(s: string, name: string): (r: Option<string>)
    ensures r.Some? ==> |r.value| < |s|
  {
    if StartsWith(s, "</" + name + ">") then Some(s[|name| + 3..]) else None
  }

  function ParseTree(s: string): (r: Option<Parsed<Element>>)
    ensures r.Some? ==> |r.value.rest| < |s|
    decreases |s|, 0
  {
    if !StartsWith(s, "<") then None
    else
      var n := NameLength(s[1..]);
      var name := s[1..1 + n];
      assert forall i :: 0 <= i < n ==> name[i] == s[1..][i];
      var attrs := ParseAttrs(s[1 + n..]);
      if n == 0 || attrs.None? then None
      else if StartsWith(attrs.value.rest, "/>") then
        Some(Parsed(Empty(name, attrs.value.value), attrs.value.rest[2..]))
      else if StartsWith(attrs.value.rest, ">") then
        ParseContent(name, attrs.value.value, attrs.value.rest[1..])
      else None
  }

  function ParseContent(name: Name, attrs: seq<Attr<string>>, s: string): (r: Option<Parsed<Element>>)
    ensures r.Some? ==> |r.value.rest| < |s|
    decreases |s|, 2
  {
    if StartsWith(s, "<") && !StartsWith(s, "</") then
      var children := ParseChildren(s);
      if children.None? then None
      else
        var rest := ParseClose(children.value.rest, name);
        if rest.None? then None else Some(Parsed(Branch(name, attrs, children.value.value), rest.value))
    else
      var end := Find(s, '<');
      var text := Unescape(s[..end]);
      var rest := ParseClose(s[end..], name);
      if text.None? || rest.None? then None
      else Some(Parsed(Leaf(name, attrs, text.value), rest.value))
  }

  function ParseChildren(s: string): (r: Option<Parsed<seq<Element>>>)
    ensures r.Some? ==> |r.value.rest| <= |s|
    decreases |s|, 1
  {
    if StartsWith(s, "</") then Some(Parsed([], s))
    else
      var first := ParseTree(s);
      if first.None? then None
      else
        var others := ParseChildren(first.value.rest);
        if others.None? then None
        else Some(Parsed([first.value.value] + others.value.value, others.value.rest))
  }

  /** A whole document is one element. */
  function ParseDocument(s: string): Option<Element> {
    var r := ParseTree(s);
    if r.Some? && r.value.rest == [] then Some(r.value.value) else None
  }

  // ---- Reading what was written ----

  ghost predicate EndsName(rest: string) {
    rest == [] || !IsNameChar(rest[0])
  }

  lemma {:induction false} NameThenRest(name: string, rest: string)
    requires (forall i :: 0 <= i < |name| ==> IsNameChar(name[i])) && EndsName(rest)
    ensures NameLength(name + rest) == |name|
  {
    if name == [] {
      assert name + rest == rest;
    } else {
      assert (name + rest)[1..] == name[1..] + rest;
      NameThenRest(name[1..], rest);
    }
  }

  lemma {:induction false} FindAfter(before: string, c: char, rest: string)
    requires c !in before && rest != [] && rest[0] == c
    ensures Find(before + rest, c) == |before|
  {
    if before == [] {
      assert before + rest == rest;
    } else {
      assert (before + rest)[1..] == before[1..] + rest;
      FindAfter(before[1..], c, rest);
    }
  }

  lemma {:induction false} Split(a: string, b: string)
    ensures (a + b)[..|a|] == a && (a + b)[|a|..] == b && StartsWith(a + b, a)
  {
  }

  lemma {:induction false} Nest<T>(a: seq<T>, b: seq<T>, c: seq<T>)
    ensures a + b + c == a + (b + c)
  {
  }

  /** An attribute whose text between the quotes is `raw`. */
  lemma {:induction false} RawAttrReadsBack(name: Name, raw: string, value: string, rest: string)
    requires '"' !in raw && '<' !in raw && Unescape(raw) == Some(value)
    ensures ParseAttr(" " + (name + ("=\"" + (raw + ("\"" + rest))))) == Some(Parsed(Attr(name, value), rest))
  {
    var quote := "\"" + rest;
    var open := raw + quote;
    var after := "=\"" + open;
    Split(" ", name + after);
    Split(name, after);
    NameThenRest(name, after);
    Split("=\"", open);
    Split(raw, quote);
    Split("\"", rest);
    FindAfter(raw, '"', quote);
    RawAttrSteps(" " + (name + after), name, after, raw, rest);
  }

  lemma {:induction false} RawAttrSteps(s: string, name: string, after: string, raw: string, rest: string)
    requires s == " " + (name + after) && NameLength(name + after) == |name| > 0
    requires StartsWith(after, "=\"") && after[2..] == raw + ("\"" + rest) && Find(after[2..], '"') == |raw|
    ensures var n := NameLength(s[1..]);
      && StartsWith(s, " ") && n > 0 && s[1..1 + n] == name && s[1 + n..] == after
      && after[2..][..|raw|] == raw && after[2..][|raw| + 1..] == rest
  {
    assert s[1..] == name + after;
    assert s[..1] == " ";
  }

  lemma {:induction false} NestAttr(a: string, b: string, c: string, d: string, e: string, rest: string)
    ensures a + b + c + d + e + rest == a + (b + (c + (d + (e + rest))))
  {
  }

  lemma {:induction false} AttrReadsBack(a: Attr<string>, rest: string)
    ensures ParseAttr(PrintAttr(a) + rest) == Some(Parsed(a, rest))
  {
    var raw := EscapeEach(a.value);
    EachHidesMarkup(a.value);
    UnescapeEach(a.value);
    RawAttrReadsBack(a.name, raw, a.value, rest);
    NestAttr(" ", a.name, "=\"", raw, "\"", rest);
  }

  lemma {:induction false} AttrOpens(a: Attr<string>, rest: string)
    ensures StartsWith(PrintAttr(a) + rest, " ") && (PrintAttr(a) + rest)[0] == ' '
  {
    NestAttr(" ", a.name, "=\"", EscapeEach(a.value), "\"", rest);
    Split(" ", a.name + ("=\"" + (EscapeEach(a.value) + ("\"" + rest))));
  }

  lemma {:induction false} OneMoreAttr(s: string, a: Attr<string>, between: string, others: seq<Attr<string>>, rest: string)
    requires StartsWith(s, " ") && ParseAttr(s) == Some(Parsed(a, between))
    requires ParseAttrs(between) == Some(Parsed(others, rest))
    ensures ParseAttrs(s) == Some(Parsed([a] + others, rest))
  {
  }

  lemma {:induction false} AttrAhead(a: Attr<string>, tail: string, others: seq<Attr<string>>, rest: string)
    requires ParseAttrs(tail) == Some(Parsed(others, rest))
    ensures ParseAttrs(PrintAttr(a) + tail) == Some(Parsed([a] + others, rest))
  {
    AttrReadsBack(a, tail);
    AttrOpens(a, tail);
    OneMoreAttr(PrintAttr(a) + tail, a, tail, others, rest);
  }

  lemma {:induction false} NoAttrsReadBack(rest: string)
    requires rest == [] || rest[0] != ' '
    ensures ParseAttrs(PrintAttrs([]) + rest) == Some(Parsed([], rest))
  {
    assert PrintAttrs([]) + rest == rest;
    assert !StartsWith(rest, " ");
  }

  lemma {:induction false} MoreAttrsReadBack(attrs: seq<Attr<string>>, rest: string)
    requires attrs != []
    requires ParseAttrs(PrintAttrs(attrs[1..]) + rest) == Some(Parsed(attrs[1..], rest))
    ensures ParseAttrs(PrintAttrs(attrs) + rest) == Some(Parsed(attrs, rest))
  {
    var others := PrintAttrs(attrs[1..]);
    AttrAhead(attrs[0], others + rest, attrs[1..], rest);
    Nest(PrintAttr(attrs[0]), others, rest);
    assert [attrs[0]] + attrs[1..] == attrs;
  }

  lemma {:induction false} AttrsReadBack(attrs: seq<Attr<string>>, rest: string)
    requires rest == [] || rest[0] != ' '
    ensures ParseAttrs(PrintAttrs(attrs) + rest) == Some(Parsed(attrs, rest))
    decreases attrs
  {
    if attrs == [] {
      NoAttrsReadBack(rest);
    } else {
      AttrsReadBack(attrs[1..], rest);
      MoreAttrsReadBack(attrs, rest);
    }
  }

  lemma {:induction false} CloseReadsBack(name: string, rest: string)
    ensures ParseClose("</" + name + ">" + rest, name) == Some(rest)
  {
    Split("</" + name + ">", rest);
  }

  /** Reading the start of an element up to the end of its attributes. */
  lemma {:induction false} HeadReadsBack(name: Name, attrs: seq<Attr<string>>, rest: string)
    requires rest != [] && rest[0] != ' ' && !IsNameChar(rest[0])
    ensures var s := "<" + (name + (PrintAttrs(attrs) + rest)); var n := |name|;
      && StartsWith(s, "<") && NameLength(s[1..]) == n && s[1..1 + n] == name
      && ParseAttrs(s[1 + n..]) == Some(Parsed(attrs, rest))
  {
    AttrsReadBack(attrs, rest);
    AttrsEndName(attrs, rest);
    RawHead(name, PrintAttrs(attrs) + rest);
  }

  lemma {:induction false} RawHead(name: Name, tail: string)
    requires EndsName(tail)
    ensures var s := "<" + (name + tail); var n := |name|;
      StartsWith(s, "<") && NameLength(s[1..]) == n && s[1..1 + n] == name && s[1 + n..] == tail
  {
    NameThenRest(name, tail);
    Split("<", name + tail);
    Split(name, tail);
  }

  lemma {:induction false} AttrsEndName(attrs: seq<Attr<string>>, rest: string)
    requires EndsName(rest)
    ensures EndsName(PrintAttrs(attrs) + rest)
  {
    if attrs == [] {
      assert "" + rest == rest;
    } else {
      var first, others := PrintAttr(attrs[0]), PrintAttrs(attrs[1..]);
      Nest(first, others, rest);
      AttrOpens(attrs[0], others + rest);
    }
  }

  lemma {:induction false} TextReadsBack(name: Name, attrs: seq<Attr<string>>, text: string, rest: string)
    ensures ParseContent(name, attrs, EscapeEach(text) + ("</" + name + ">" + rest))
         == Some(Parsed(Leaf(name, attrs, text), rest))
  {
    EachHidesMarkup(text);
    UnescapeEach(text);
    RawTextReadsBack(name, attrs, EscapeEach(text), text, rest);
  }

  lemma {:induction false} RawTextReadsBack(name: Name, attrs: seq<Attr<string>>, raw: string, text: string, rest: string)
    requires '<' !in raw && Unescape(raw) == Some(text)
    ensures ParseContent(name, attrs, raw + ("</" + name + ">" + rest)) == Some(Parsed(Leaf(name, attrs, text), rest))
  {
    var close := "</" + name + ">" + rest;
    var s := raw + close;
    FindAfter(raw, '<', close);
    Split(raw, close);
    CloseReadsBack(name, rest);
    if raw == [] {
      assert s == close && s[..2] == "</";
    } else {
      assert s[..1][0] == raw[0];
    }
  }

  lemma {:induction false} PrintOpens(t: Element, rest: string)
    ensures var s := Print(t) + rest; |s| >= 2 && StartsWith(s, "<") && !StartsWith(s, "</")
  {
    var s := Print(t) + rest;
    assert s[0] == '<' && s[1] == t.name[0];
    assert s[..1] == "<" && s[..2][1] == s[1];
  }

  lemma {:induction false} OneMoreChild(s: string, t: Element, between: string, others: seq<Element>, rest: string)
    requires !StartsWith(s, "</") && ParseTree(s) == Some(Parsed(t, between))
    requires ParseChildren(between) == Some(Parsed(others, rest))
    ensures ParseChildren(s) == Some(Parsed([t] + others, rest))
  {
  }

  lemma {:induction false} NoChildReadsBack(close: string)
    requires StartsWith(close, "</")
    ensures ParseChildren(PrintAll([]) + close) == Some(Parsed([], close))
  {
    assert PrintAll([]) + close == close;
  }

  lemma {:induction false} MoreChildrenReadBack(children: seq<Element>, close: string)
    requires children != []
    requires ParseTree(Print(children[0]) + (PrintAll(children[1..]) + close))
          == Some(Parsed(children[0], PrintAll(children[1..]) + close))
    requires ParseChildren(PrintAll(children[1..]) + close) == Some(Parsed(children[1..], close))
    ensures ParseChildren(PrintAll(children) + close) == Some(Parsed(children, close))
  {
    var first, others := Print(children[0]), PrintAll(children[1..]);
    PrintOpens(children[0], others + close);
    OneMoreChild(first + (others + close), children[0], others + close, children[1..], close);
    Nest(first, others, close);
    assert [children[0]] + children[1..] == children;
  }

  lemma {:induction false} ChildrenReadBack(children: seq<Element>, close: string)
    requires forall i :: 0 <= i < |children| ==> Printable(children[i])
    requires StartsWith(close, "</")
    ensures ParseChildren(PrintAll(children) + close) == Some(Parsed(children, close))
    decreases children
  {
    if children == [] {
      NoChildReadsBack(close);
    } else {
      TreeReadsBack(children[0], PrintAll(children[1..]) + close);
      ChildrenReadBack(children[1..], close);
      MoreChildrenReadBack(children, close);
    }
  }

  lemma {:induction false} TreeReadsBack(t: Element, rest: string)
    requires Printable(t)
    ensures ParseTree(Print(t) + rest) == Some(Parsed(t, rest))
    decreases t
  {
    match t {
      case Empty(name, attrs) => EmptyReadsBack(name, attrs, rest);
      case Leaf(name, attrs, text) =>
        TextReadsBack(name, attrs, text, rest);
        OpenReadsBack(name, attrs, EscapeEach(text), rest);
      case Branch(name, attrs, children) =>
        var close := "</" + name + ">" + rest;
        assert close[..2] == "</";
        ChildrenReadBack(children, close);
        CloseReadsBack(name, rest);
        var first, others := Print(children[0]), PrintAll(children[1..]);
        Nest(first, others, close);
        PrintOpens(children[0], others + close);
        OpenReadsBack(name, attrs, PrintAll(children), rest);
    }
  }

  lemma {:induction false} EmptyReadsBack(name: Name, attrs: seq<Attr<string>>, rest: string)
    ensures ParseTree("<" + name + PrintAttrs(attrs) + "/>" + rest) == Some(Parsed(Empty(name, attrs), rest))
  {
    HeadReadsBack(name, attrs, "/>" + rest);
    Split("/>", rest);
    NestFour("<", name, PrintAttrs(attrs), "/>", rest);
  }

  lemma {:induction false} NestFour(a: string, b: string, c: string, d: string, rest: string)
    ensures a + b + c + d + rest == a + (b + (c + (d + rest)))
  {
  }

  lemma {:induction false} NestElement(a: string, b: string, c: string, d: string, body: string, e: string, f: string, g: string, rest: string)
    ensures a + b + c + d + body + e + f + g + rest == a + (b + (c + (d + (body + (e + f + g + rest)))))
  {
    NestFour(a, b, c, d, body);
    NestFour(body, e, f, g, rest);
    Nest(a + b + c + d, body, e + f + g + rest);
    NestFour(a, b, c, d, body + (e + f + g + rest));
    Nest(e + f, g, rest);
    Nest(e, f, g + rest);
    Nest(body + e + f, g, rest);
  }

  /** An element with content reads as its content reads. */
  lemma {:induction false} OpenReadsBack(name: Name, attrs: seq<Attr<string>>, body: string, rest: string)
    ensures ParseTree("<" + name + PrintAttrs(attrs) + ">" + body + "</" + name + ">" + rest)
         == ParseContent(name, attrs, body + ("</" + name + ">" + rest))
  {
    var content := body + ("</" + name + ">" + rest);
    HeadReadsBack(name, attrs, ">" + content);
    OpenThenContent(content);
    NestElement("<", name, PrintAttrs(attrs), ">", body, "</", name, ">", rest);
  }

  lemma {:induction false} OpenThenContent(content: string)
    ensures var s := ">" + content; StartsWith(s, ">") && !StartsWith(s, "/>") && s[1..] == content
  {
    var s := ">" + content;
    assert s[..1] == ">" && (|s| >= 2 ==> s[..2][0] == '>');
  }

  /** For every printable tree, whatever its attribute values and texts. */
  lemma {:induction false} DocumentReadsBack(t: Element)
    requires Printable(t)
    ensures ParseDocument(Print(t)) == Some(t)
  {
    TreeReadsBack(t, "");
    assert Print(t) + "" == Print(t);
  }
}
