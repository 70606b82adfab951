/** Amounts of storage: bytes, and whole GiB rounded down or up. */
module Sizes {
  const GIB := 0x4000_0000

  function Sum(sizes: seq<nat>): nat {
    if sizes == [] then 0 else Sum(sizes[..|sizes| - 1]) + sizes[|sizes| - 1]
  }

  method SumSizes(sizes: seq<nat>) returns (total: nat)
    ensures total == Sum(sizes)
  {
    total := 0;
    for i := 0 to |sizes|
      invariant total == Sum(sizes[..i])
    {
      assert sizes[..i + 1][..i] == sizes[..i];
      total := total + sizes[i];
    }
    assert sizes[..|sizes|] == sizes;
  }

  function Without(s: seq<nat>, k: nat): seq<nat> {
    if k < |s| then s[..k] + s[k + 1..] else s
  }

  /** Rounding two amounts down separately loses at most one GiB against rounding their sum. */
  lemma {:induction false} FloorOfSum(a: nat, b: nat)
    ensures a / GIB + b / GIB <= (a + b) / GIB <= a / GIB + b / GIB + 1
    ensures b % GIB == 0 ==> (a + b) / GIB == a / GIB + b / GIB
  {
  }

  /** `-(-n // GiB)`. */
  function CeilingGb(bytes: nat): (gb: nat)
    ensures gb * GIB < bytes + GIB && bytes <= gb * GIB
  {
    -((0 - bytes) / GIB)
  }
}
