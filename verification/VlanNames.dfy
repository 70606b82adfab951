/** Device names of VLAN networks: what the API accepts, what the agent derives and accepts, and
    when two networks end up on one device. */
module VlanNames {
  import opened Wrappers
  import opened Decimal

  const MAX_IFACE_LEN := 15
  const VLAN_BRIDGE_SUFFIX_LEN := |".4094b"|

  predicate IsAlnum(c: char) {
    'A' <= c <= 'Z' || 'a' <= c <= 'z' || '0' <= c <= '9'
  }

  predicate IsNameChar(c: char) {
    IsAlnum(c) || c == '_' || c == '.' || c == '-'
  }

  predicate IsName(s: string) {
    && 1 <= |s| <= MAX_IFACE_LEN
    && IsAlnum(s[0])
    && forall i :: 0 <= i < |s| ==> IsNameChar(s[i])
  }

  predicate EndsInNewline(s: string) {
    s != [] && s[|s| - 1] == '\n'
  }

  /** The pattern both sides use. Python's `$` also matches just before a final newline. */
  predicate SafeIface(s: string) {
    IsName(s) || (EndsInNewline(s) && IsName(s[..|s| - 1]))
  }

  // ---- The API serializer ----

  /** What `str.strip()` strips. */
  predicate IsSpace(c: char) {
    var n := c as int;
    || 9 <= n <= 13 || 28 <= n <= 32 || n == 0x85 || n == 0xa0 || n == 0x1680
    || 0x2000 <= n <= 0x200a || n == 0x2028 || n == 0x2029 || n == 0x202f || n == 0x205f || n == 0x3000
  }

  function Strip(s: string): (r: string)
    ensures r != [] ==> !IsSpace(r[0]) && !IsSpace(r[|r| - 1])
    ensures s != [] && !IsSpace(s[0]) && !IsSpace(s[|s| - 1]) ==> r == s
  {
    if s == [] then []
    else if IsSpace(s[|s| - 1]) then Strip(s[..|s| - 1])
    else if IsSpace(s[0]) then Strip(s[1..])
    else s
  }

  /** `validate_bridge`, `validate_vlan_id` and `validate` together. */
  predicate Validates(bridge: string, vlan: Option<int>) {
    && SafeIface(bridge)
    && (vlan.Some? ==> 1 <= vlan.value <= 4094)
    && (vlan.Some? && vlan.value != 0 ==> |bridge| + VLAN_BRIDGE_SUFFIX_LEN <= MAX_IFACE_LEN)
  }

  /** A request: character fields arrive stripped at their validators. */
  function Submit(raw: string, vlan: Option<int>): Option<string> {
    if Validates(Strip(raw), vlan) then Some(Strip(raw)) else None
  }

  // ---- The agent ----

  function UplinkText(parent: string, vlan: nat): string {
    parent + "." + Digits(vlan)
  }

  function DedicatedText(parent: string, vlan: nat): string {
    parent + "." + Digits(vlan) + "b"
  }

  function ValidateIface(name: string): Option<string> {
    if SafeIface(name) then Some(name) else None
  }

  function VlanInterfaceName(parent: string, vlan: nat): Option<string> {
    ValidateIface(UplinkText(parent, vlan))
  }

  function VlanBridgeName(parent: string, vlan: nat): Option<string> {
    ValidateIface(DedicatedText(parent, vlan))
  }

  /** The bridge a guest NIC attaches to. */
  function ResolveNicBridge(bridge: string, vlan: Option<nat>): Option<string> {
    if vlan.Some? && vlan.value != 0 then VlanBridgeName(bridge, vlan.value) else Some(bridge)
  }

  // ---- What the agent accepts ----

  predicate IsNamePrefix(s: string) {
    s != [] && IsAlnum(s[0]) && forall i :: 0 <= i < |s| ==> IsNameChar(s[i])
  }

  lemma {:induction false} NameOfParts(bridge: string, tail: string)
    requires tail != [] && tail[0] == '.' && forall i :: 0 <= i < |tail| ==> IsNameChar(tail[i])
    ensures SafeIface(bridge + tail) <==> IsNamePrefix(bridge) && |bridge| + |tail| <= MAX_IFACE_LEN
  {
    var name := bridge + tail;
    assert name[|name| - 1] == tail[|tail| - 1];
    if IsName(name) {
      assert name[0] == (if bridge == [] then '.' else bridge[0]);
      assert forall i :: 0 <= i < |bridge| ==> bridge[i] == name[i];
    }
  }

  /** For every parent and VLAN number the agent takes a derived name exactly when the parent is
      made of name characters and there is room for the suffix. */
  lemma {:induction false} AgentAcceptsExactly(bridge: string, vlan: nat)
    ensures VlanInterfaceName(bridge, vlan).Some? <==>
            IsNamePrefix(bridge) && |bridge| + |Digits(vlan)| + 1 <= MAX_IFACE_LEN
    ensures VlanBridgeName(bridge, vlan).Some? <==>
            IsNamePrefix(bridge) && |bridge| + |Digits(vlan)| + 2 <= MAX_IFACE_LEN
  {
    NameOfParts(bridge, "." + Digits(vlan));
    assert bridge + ("." + Digits(vlan)) == UplinkText(bridge, vlan);
    NameOfParts(bridge, "." + Digits(vlan) + "b");
    assert bridge + ("." + Digits(vlan) + "b") == DedicatedText(bridge, vlan);
  }

  /** The validators alone are not enough: of the pairs they let through, the agent refuses exactly
      those whose bridge ends in a newline. */
  lemma {:induction false} ValidatedNamesAreSafe(bridge: string, vlan: int)
    requires Validates(bridge, Some(vlan))
    ensures VlanInterfaceName(bridge, vlan).Some? <==> !EndsInNewline(bridge)
    ensures VlanBridgeName(bridge, vlan).Some? <==> !EndsInNewline(bridge)
  {
    AgentAcceptsExactly(bridge, vlan);
    assert Power10(1) == 10 && Power10(2) == 100 && Power10(3) == 1000 && Power10(4) == 10000;
    DigitsLength(vlan, 4);
    if EndsInNewline(bridge) {
      assert !IsNameChar(bridge[|bridge| - 1]);
    }
  }

  lemma {:induction false} NewlineSlipsThroughTheValidators()
    ensures Validates("br0\n", Some(7)) && VlanBridgeName("br0\n", 7).None?
  {
    var bridge := "br0\n";
    assert bridge[..3] == "br0";
    assert IsName("br0");
    ValidatedNamesAreSafe(bridge, 7);
  }

  /** Every pair the API accepts yields an uplink name and a bridge name the agent accepts. */
  lemma {:induction false} AcceptedNamesAreSafe(raw: string, vlan: int)
    requires Submit(raw, Some(vlan)).Some?
    ensures var bridge := Submit(raw, Some(vlan)).value;
      SafeIface(bridge) && VlanInterfaceName(bridge, vlan).Some? && VlanBridgeName(bridge, vlan).Some?
  {
    var bridge := Strip(raw);
    assert bridge != [] && !IsSpace(bridge[|bridge| - 1]);
    ValidatedNamesAreSafe(bridge, vlan);
  }

  /** By character codes. */
  predicate LetterOrDigit(n: int) {
    48 <= n <= 57 || 65 <= n <= 90 || 97 <= n <= 122
  }

  /** Nothing good is refused: any name of letters, digits, dots, dashes and underscores that starts with
      a letter or digit and has up to 15 characters is accepted untagged, and up to 9 with any VLAN. */
  lemma {:induction false} GoodNamesAreAccepted(bridge: string, vlan: int)
    requires 1 <= |bridge| <= 15 && LetterOrDigit(bridge[0] as int)
    requires forall i :: 0 <= i < |bridge| ==> LetterOrDigit(bridge[i] as int) || bridge[i] in "_.-"
    ensures Submit(bridge, None) == Some(bridge)
    ensures 1 <= vlan <= 4094 && |bridge| <= 9 ==> Submit(bridge, Some(vlan)) == Some(bridge)
    ensures vlan < 1 || vlan > 4094 || |bridge| > 9 ==> Submit(bridge, Some(vlan)) == None
  {
    forall i | 0 <= i < |bridge| ensures IsNameChar(bridge[i]) && !IsSpace(bridge[i]) {
    }
    assert IsName(bridge);
    assert Strip(bridge) == bridge;
  }

  // ---- Which names coincide ----

  /** The last dot tells where the parent ends. */
  lemma {:induction false} LastDotSplits(a: string, m: nat, b: string, n: nat)
    requires UplinkText(a, m) == UplinkText(b, n)
    ensures a == b && m == n
  {
    var s, t := UplinkText(a, m), UplinkText(b, n);
    var p, q := Digits(m), Digits(n);
    assert s[|a|] == '.' && t[|b|] == '.';
    assert forall i :: 0 <= i < |p| ==> s[|a| + 1 + i] == p[i];
    assert forall i :: 0 <= i < |q| ==> t[|b| + 1 + i] == q[i];
    assert forall i :: |a| < i < |s| ==> s[i] == p[i - |a| - 1];
    assert forall i :: |b| < i < |t| ==> t[i] == q[i - |b| - 1];
    assert |a| == |b|;
    assert a == s[..|a|] && b == t[..|b|];
    assert p == s[|a| + 1..] && q == t[|b| + 1..];
    DigitsInjective(m, n);
  }

  /** Distinct pairs have distinct dedicated bridges and distinct uplinks. */
  lemma {:induction false} DistinctPairsDistinctNames(a: string, m: nat, b: string, n: nat)
    ensures UplinkText(a, m) == UplinkText(b, n) <==> a == b && m == n
    ensures DedicatedText(a, m) == DedicatedText(b, n) <==> a == b && m == n
  {
    var s, t := DedicatedText(a, m), DedicatedText(b, n);
    assert s[..|s| - 1] == UplinkText(a, m) && t[..|t| - 1] == UplinkText(b, n);
    if UplinkText(a, m) == UplinkText(b, n) {
      LastDotSplits(a, m, b, n);
    }
  }

  /** An uplink is never a dedicated bridge, of the same network or of another. */
  lemma {:induction false} UplinkIsNeverADedicatedBridge(a: string, m: nat, b: string, n: nat)
    ensures UplinkText(a, m) != DedicatedText(b, n)
  {
    var s, t := UplinkText(a, m), DedicatedText(b, n);
    assert s[|s| - 1] == Digits(m)[|Digits(m)| - 1];
    assert t[|t| - 1] == 'b';
  }

  /** A NIC without a VLAN, or with zero, is on the bridge itself; with one, on the name made of the
      bridge, a dot, the number and a "b", if that is a good name. */
  lemma {:induction false} NicBridgeExactly(bridge: string, vlan: nat)
    ensures ResolveNicBridge(bridge, None) == Some(bridge) && ResolveNicBridge(bridge, Some(0)) == Some(bridge)
    ensures vlan > 0 && ResolveNicBridge(bridge, Some(vlan)).Some? ==>
      ResolveNicBridge(bridge, Some(vlan)).value == bridge + "." + Digits(vlan) + "b"
    ensures vlan > 0 ==> (ResolveNicBridge(bridge, Some(vlan)).Some? <==> IsNamePrefix(bridge) && |bridge| + |Digits(vlan)| + 2 <= 15)
  {
    AgentAcceptsExactly(bridge, vlan);
  }

  /** Guests of two networks share a bridge exactly when the networks are the same pair or one is an
      untagged network on a bridge that carries the other's dedicated name. */
  lemma {:induction false} SharedBridgeExactly(a: string, m: Option<nat>, b: string, n: Option<nat>)
    requires m != Some(0) && n != Some(0)
    requires ResolveNicBridge(a, m).Some? && ResolveNicBridge(b, n).Some?
    ensures ResolveNicBridge(a, m) == ResolveNicBridge(b, n) <==>
      || (a == b && m == n)
      || (m.None? && n.Some? && a == DedicatedText(b, n.value))
      || (n.None? && m.Some? && b == DedicatedText(a, m.value))
  {
    if m.Some? && n.Some? {
      DistinctPairsDistinctNames(a, m.value, b, n.value);
    } else if m.Some? {
      assert a + "." + Digits(m.value) + "b" != a;
    } else if n.Some? {
      assert b + "." + Digits(n.value) + "b" != b;
    }
  }

  /** The API lets such a pair of networks through. */
  lemma {:induction false} AnUntaggedBridgeCanTakeADedicatedName()
    ensures Submit("vmbr0", Some(5)) == Some("vmbr0") && Submit("vmbr0.5b", None) == Some("vmbr0.5b")
    ensures ResolveNicBridge("vmbr0", Some(5)) == ResolveNicBridge("vmbr0.5b", None)
  {
    assert Strip("vmbr0") == "vmbr0" && Strip("vmbr0.5b") == "vmbr0.5b";
    assert Digits(5) == "5";
    assert DedicatedText("vmbr0", 5) == "vmbr0.5b";
    assert IsName("vmbr0") && IsName("vmbr0.5b");
  }
}
