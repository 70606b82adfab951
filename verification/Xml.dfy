/** The part of XML the agent's documents use: elements with attributes that hold either nothing, or
    text, or other elements (XML 1.0, sections 2.4, 3.1 and 4.6), written and read back. */
module Xml {
  import opened Wrappers

  // ---- Character data ----

  /** `s.replace(c, into)`. */
  function Replace(s: string, c: char, into: string): string {
    if s == [] then [] else (if s[0] == c then into else [s[0]]) + Replace(s[1..], c, into)
  }

  /** The passes in the order in which they run. */
  function Escape(s: string): string {
    var a := Replace(s, '&', "&amp;");
    var b := Replace(a, '>', "&gt;");
    var c := Replace(b, '<', "&lt;");
    var d := Replace(c, '"', "&quot;");
    Replace(d, '\'', "&apos;")
  }

  predicate IsSpecial(c: char) {
    c == '&' || c == '>' || c == '<' || c == '"' || c == '\''
  }

  function EscapeChar(c: char): string {
    if c == '&' then "&amp;"
    else if c == '>' then "&gt;"
    else if c == '<' then "&lt;"
    else if c == '"' then "&quot;"
    else if c == '\'' then "&apos;"
    else [c]
  }

  /** Every character on its own. */
  function EscapeEach(s: string): string {
    if s == [] then [] else EscapeChar(s[0]) + EscapeEach(s[1..])
  }

  /** A string that escaping leaves alone. */
  predicate Plain(s: string) {
    forall i :: 0 <= i < |s| ==> !IsSpecial(s[i])
  }

  predicate StartsWith(s: string, prefix: string) {
    |prefix| <= |s| && s[..|prefix|] == prefix
  }

  /** The character whose entity a text starts with. */
  function Entity(s: string): Option<char> {
    if StartsWith(s, "&amp;") then Some('&')
    else if StartsWith(s, "&gt;") then Some('>')
    else if StartsWith(s, "&lt;") then Some('<')
    else if StartsWith(s, "&quot;") then Some('"')
    else if StartsWith(s, "&apos;") then Some('\'')
    else None
  }

  /** Reads the five predefined entities; any other `&` is an error. */
  function Unescape(s: string): Option<string> {
    if s == [] then Some([])
    else if s[0] != '&' then Prepend(s[0], Unescape(s[1..]))
    else if Entity(s).None? then None
    else
      var n := |EscapeChar(Entity(s).value)|;
      assert 0 < n <= |s|;
      Prepend(Entity(s).value, Unescape(s[n..]))
  }

  function Prepend(c: char, rest: Option<string>): Option<string> {
    if rest.Some? then Some([c] + rest.value) else None
  }

  lemma {:induction false} ReplaceAppend(a: string, b: string, c: char, into: string)
    ensures Replace(a + b, c, into) == Replace(a, c, into) + Replace(b, c, into)
  {
    if a == [] {
      assert a + b == b;
    } else {
      assert (a + b)[1..] == a[1..] + b;
      ReplaceAppend(a[1..], b, c, into);
    }
  }

  lemma {:induction false} EscapeAppend(a: string, b: string)
    ensures Escape(a + b) == Escape(a) + Escape(b)
  {
    ReplaceAppend(a, b, '&', "&amp;");
    var a1, b1 := Replace(a, '&', "&amp;"), Replace(b, '&', "&amp;");
    ReplaceAppend(a1, b1, '>', "&gt;");
    var a2, b2 := Replace(a1, '>', "&gt;"), Replace(b1, '>', "&gt;");
    ReplaceAppend(a2, b2, '<', "&lt;");
    var a3, b3 := Replace(a2, '<', "&lt;"), Replace(b2, '<', "&lt;");
    ReplaceAppend(a3, b3, '"', "&quot;");
    ReplaceAppend(Replace(a3, '"', "&quot;"), Replace(b3, '"', "&quot;"), '\'', "&apos;");
  }

  lemma {:induction false} ReplaceAbsent(s: string, c: char, into: string)
    requires c !in s
    ensures Replace(s, c, into) == s
  {
    if s != [] {
      ReplaceAbsent(s[1..], c, into);
    }
  }

  lemma {:induction false} ReplaceOne(c: char, d: char, into: string)
    ensures Replace([c], d, into) == if c == d then into else [c]
  {
    assert [c][1..] == [];
    assert Replace([], d, into) == [];
  }

  /** Two passes over one character, the second of which skips what the first puts in. */
  lemma {:induction false} TwoPasses(x: char, c: char, e: string, d: char, f: string)
    requires c != d && d !in e
    ensures Replace(Replace([x], c, e), d, f) == if x == c then e else if x == d then f else [x]
  {
    ReplaceOne(x, c, e);
    if x == c {
      ReplaceAbsent(e, d, f);
    } else {
      ReplaceOne(x, d, f);
    }
  }

  /** One more pass that skips what the passes so far put in. */
  lemma {:induction false} OneMorePass(x: char, so: string, c: char, e: string)
    requires so != [x] ==> x != c && c !in so
    ensures Replace(so, c, e) == if so == [x] && x == c then e else so
  {
    if so == [x] {
      ReplaceOne(x, c, e);
    } else {
      ReplaceAbsent(so, c, e);
    }
  }

  lemma {:induction false} EscapeOne(c: char)
    ensures Escape([c]) == EscapeChar(c)
  {
    FivePasses(c, "&amp;", "&gt;", "&lt;", "&quot;", "&apos;");
  }

  lemma {:induction false} FivePasses(x: char, amp: string, gt: string, lt: string, quot: string, apos: string)
    requires forall c | c in ['>', '<', '"', '\''] :: c !in amp && c !in gt && c !in lt && c !in quot
    requires |amp| > 1 && |gt| > 1 && |lt| > 1 && |quot| > 1
    ensures Replace(Replace(Replace(Replace(Replace([x], '&', amp), '>', gt), '<', lt), '"', quot), '\'', apos)
         == if x == '&' then amp else if x == '>' then gt else if x == '<' then lt
            else if x == '"' then quot else if x == '\'' then apos else [x]
  {
    TwoPasses(x, '&', amp, '>', gt);
    var b := Replace(Replace([x], '&', amp), '>', gt);
    OneMorePass(x, b, '<', lt);
    var c := Replace(b, '<', lt);
    OneMorePass(x, c, '"', quot);
    OneMorePass(x, Replace(c, '"', quot), '\'', apos);
  }

  /** The five passes, one over the output of the other, amount to one map over the characters. */
  lemma {:induction false} EscapeIsOnePass(s: string)
    ensures Escape(s) == EscapeEach(s)
  {
    if s != [] {
      assert s == [s[0]] + s[1..];
      EscapeAppend([s[0]], s[1..]);
      EscapeOne(s[0]);
      EscapeIsOnePass(s[1..]);
    }
  }

  lemma {:induction false} DiffersAt(s: string, prefix: string, i: nat)
    requires i < |s| && i < |prefix| && s[i] != prefix[i]
    ensures !StartsWith(s, prefix)
  {
  }

  lemma {:induction false} EntityReadsBack(c: char, rest: string)
    requires IsSpecial(c)
    ensures Entity(EscapeChar(c) + rest) == Some(c)
  {
    var e := EscapeChar(c);
    var s := e + rest;
    assert StartsWith(s, e) && forall i :: 0 <= i < |e| ==> s[i] == e[i];
    if c != '&' {
      DiffersAt(s, "&amp;", if c == '\'' then 2 else 1);
    }
    if c == '<' || c == '"' || c == '\'' {
      DiffersAt(s, "&gt;", 1);
    }
    if c == '"' || c == '\'' {
      DiffersAt(s, "&lt;", 1);
    }
    if c == '\'' {
      DiffersAt(s, "&quot;", 1);
    }
  }

  lemma {:induction false} UnescapeChar(c: char, rest: string)
    ensures Unescape(EscapeChar(c) + rest) == Prepend(c, Unescape(rest))
  {
    var e := EscapeChar(c);
    var s := e + rest;
    assert s != [] && s[0] == e[0] && s[|e|..] == rest;
    if IsSpecial(c) {
      EntityReadsBack(c, rest);
    }
  }

  lemma {:induction false} UnescapeEach(s: string)
    ensures Unescape(EscapeEach(s)) == Some(s)
  {
    if s != [] {
      UnescapeEach(s[1..]);
      UnescapeChar(s[0], EscapeEach(s[1..]));
      assert EscapeEach(s) == EscapeChar(s[0]) + EscapeEach(s[1..]);
      assert [s[0]] + s[1..] == s;
    }
  }

  /** Reading back gives the value, for every string. */
  lemma {:induction false} UnescapeInvertsEscape(s: string)
    ensures Unescape(Escape(s)) == Some(s)
  {
    EscapeIsOnePass(s);
    UnescapeEach(s);
  }

  lemma {:induction false} EachHidesMarkup(s: string)
    ensures '<' !in EscapeEach(s) && '"' !in EscapeEach(s)
  {
    if s != [] {
      assert '<' !in EscapeChar(s[0]) && '"' !in EscapeChar(s[0]);
      EachHidesMarkup(s[1..]);
    }
  }

  lemma {:induction false} PlainEach(s: string)
    requires Plain(s)
    ensures EscapeEach(s) == s
  {
    if s != [] {
      PlainEach(s[1..]);
    }
  }
}
