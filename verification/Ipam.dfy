/** Address management of one subnet. Rows are created when an address is first touched; the
    table behaves like a total map in which an absent address is available. */
module Ipam {
  import opened Wrappers

  const V4_SPACE := 0x1_0000_0000

  datatype Address = V4(value: int) | V6(value: int)

  /** `ip_address(int)`: the version is guessed from the size of the number. */
  function FromInt(value: int): Address {
    if value < V4_SPACE then V4(value) else V6(value)
  }

  datatype Pool = Pool(start: Address, end: Address)

  /** `address_range`: the addresses from start to end, both included. */
  function AddressRange(pool: Pool): seq<Address> {
    var first, last := pool.start.value, pool.end.value;
    seq(if last < first then 0 else last - first + 1, i requires 0 <= i => FromInt(first + i))
  }

  function Candidates(pools: seq<Pool>): seq<Address> {
    if pools == [] then [] else AddressRange(pools[0]) + Candidates(pools[1..])
  }

  /** A pool hands out addresses of its own kind exactly if it is an IPv4 pool or starts above
      the IPv4 number space: a lower IPv6 pool yields IPv4 addresses. */
  lemma {:induction false} RangeKeepsItsVersion(pool: Pool)
    requires 0 <= pool.start.value <= pool.end.value
    requires pool.start.V4? <==> pool.end.V4?
    requires pool.end.V4? ==> pool.end.value < V4_SPACE
    ensures (forall a :: a in AddressRange(pool) ==> (a.V4? <==> pool.start.V4?))
      <==> pool.start.V4? || pool.start.value >= V4_SPACE
    ensures |AddressRange(pool)| == pool.end.value - pool.start.value + 1
    ensures forall i, j :: 0 <= i < j < |AddressRange(pool)| ==> AddressRange(pool)[i] != AddressRange(pool)[j]
  {
    var range := AddressRange(pool);
    assert range[0] == FromInt(pool.start.value) && range[0] in range;
    forall i, j | 0 <= i < j < |range| ensures range[i] != range[j] {
      assert range[i] == FromInt(pool.start.value + i) && range[j] == FromInt(pool.start.value + j);
    }
    if pool.start.V4? || pool.start.value >= V4_SPACE {
      forall i | 0 <= i < |range| ensures range[i].V4? <==> pool.start.V4? {
        assert range[i] == FromInt(pool.start.value + i);
      }
    }
  }

  /** A pool holds the numbers from its start to its end, in that order, each as an address of the
      version its size suggests. */
  lemma {:induction false} RangeHolds(pool: Pool, i: nat)
    requires i < |AddressRange(pool)|
    ensures |AddressRange(pool)| == pool.end.value - pool.start.value + 1
    ensures var v := pool.start.value + i; AddressRange(pool)[i] == if v < 0x1_0000_0000 then V4(v) else V6(v)
  {
    assert AddressRange(pool)[i] == FromInt(pool.start.value + i);
  }

  datatype AddressState = Available | Allocated | Reserved | Blocked

  datatype Row = Row(state: AddressState, note: string)

  type Table = map<Address, Row>

  /** The table read as a total map. */
  function StateOf(rows: Table, a: Address): AddressState {
    if a in rows then rows[a].state else Available
  }

  function FirstFree(rows: Table, candidates: seq<Address>): Option<Address> {
    if candidates == [] then None
    else if StateOf(rows, candidates[0]) == Available then Some(candidates[0])
    else FirstFree(rows, candidates[1..])
  }

  lemma {:induction false} FirstFreeAppend(rows: Table, a: seq<Address>, b: seq<Address>)
    ensures FirstFree(rows, a + b) == if FirstFree(rows, a).Some? then FirstFree(rows, a) else FirstFree(rows, b)
    decreases |a|
  {
    if a == [] {
      assert a + b == b;
    } else {
      assert (a + b)[1..] == a[1..] + b;
      FirstFreeAppend(rows, a[1..], b);
    }
  }

  function PoolsToSearch(pools: seq<Pool>, pool: Option<Pool>): seq<Pool> {
    if pool.Some? then [pool.value] else pools
  }

  /** The number as an address that could be handed out. */
  ghost predicate FreeNumber(rows: Table, v: int) {
    var a := if v < 0x1_0000_0000 then V4(v) else V6(v);
    a !in rows || rows[a].state == Available
  }

  /** `got` is the lowest free number of the first pool that has one, or no pool has one. */
  ghost predicate LowestFree(rows: Table, pools: seq<Pool>, got: Option<Address>) {
    if got.None? then
      forall p, v :: 0 <= p < |pools| && pools[p].start.value <= v <= pools[p].end.value ==> !FreeNumber(rows, v)
    else
      exists p :: 0 <= p < |pools| && LowestFreeIn(rows, pools, p, got.value)
  }

  ghost predicate LowestFreeIn(rows: Table, pools: seq<Pool>, p: nat, a: Address)
    requires p < |pools|
  {
    && pools[p].start.value <= a.value <= pools[p].end.value
    && a == (if a.value < 0x1_0000_0000 then V4(a.value) else V6(a.value))
    && FreeNumber(rows, a.value)
    && (forall v :: pools[p].start.value <= v < a.value ==> !FreeNumber(rows, v))
    && (forall q, v :: 0 <= q < p && pools[q].start.value <= v <= pools[q].end.value ==> !FreeNumber(rows, v))
  }

  lemma {:induction false} NoneInRange(rows: Table, pool: Pool, v: int)
    requires FirstFree(rows, AddressRange(pool)) == None && pool.start.value <= v <= pool.end.value
    ensures !FreeNumber(rows, v)
  {
    FirstFreeIsFirst(rows, AddressRange(pool));
    RangeHolds(pool, v - pool.start.value);
    assert AddressRange(pool)[v - pool.start.value] in AddressRange(pool);
  }

  lemma {:induction false} LowestInRange(rows: Table, pool: Pool)
    requires FirstFree(rows, AddressRange(pool)).Some?
    ensures LowestFreeIn(rows, [pool], 0, FirstFree(rows, AddressRange(pool)).value)
  {
    var range := AddressRange(pool);
    var a := FirstFree(rows, range).value;
    FirstFreeIsFirst(rows, range);
    var i :| 0 <= i < |range| && range[i] == a && forall j :: 0 <= j < i ==> StateOf(rows, range[j]) != Available;
    RangeHolds(pool, i);
    forall v | pool.start.value <= v < a.value ensures !FreeNumber(rows, v) {
      RangeHolds(pool, v - pool.start.value);
    }
  }

  /** The first free candidate of the pools is the lowest free number of the first pool that has one. */
  lemma {:induction false} FirstFreeIsLowest(rows: Table, pools: seq<Pool>)
    ensures LowestFree(rows, pools, FirstFree(rows, Candidates(pools)))
    decreases |pools|
  {
    if pools != [] {
      var first, rest := AddressRange(pools[0]), pools[1..];
      FirstFreeAppend(rows, first, Candidates(rest));
      var got := FirstFree(rows, Candidates(pools));
      if FirstFree(rows, first).Some? {
        LowestInRange(rows, pools[0]);
        assert LowestFreeIn(rows, pools, 0, got.value);
      } else {
        forall v | pools[0].start.value <= v <= pools[0].end.value ensures !FreeNumber(rows, v) {
          NoneInRange(rows, pools[0], v);
        }
        FirstFreeIsLowest(rows, rest);
        LowestFreeShifts(rows, pools, got);
      }
    }
  }

  lemma {:induction false} LowestFreeShifts(rows: Table, pools: seq<Pool>, got: Option<Address>)
    requires pools != [] && LowestFree(rows, pools[1..], got)
    requires forall v :: pools[0].start.value <= v <= pools[0].end.value ==> !FreeNumber(rows, v)
    ensures LowestFree(rows, pools, got)
  {
    var rest := pools[1..];
    assert forall q :: 0 < q < |pools| ==> pools[q] == rest[q - 1];
    if got.Some? {
      var p :| 0 <= p < |rest| && LowestFreeIn(rows, rest, p, got.value);
      assert LowestFreeIn(rows, pools, p + 1, got.value);
    }
  }

  class Subnet {
    const pools: seq<Pool>
    const contains: Address -> bool
    var rows: Table

    constructor (pools: seq<Pool>, contains: Address -> bool, rows: Table)
      ensures this.pools == pools && this.contains == contains && this.rows == rows
    {
      this.pools, this.contains, this.rows := pools, contains, rows;
    }

    /** The inner loop: one pool from its start to its end. */
    method SearchPool(pool: Pool) returns (result: Option<Address>)
      ensures result == FirstFree(rows, AddressRange(pool))
    {
      var first, last := pool.start.value, pool.end.value;
      ghost var range := AddressRange(pool);
      var value := first;
      assert range[0..] == range;
      while value <= last
        invariant first <= value && value - first <= |range|
        invariant FirstFree(rows, range) == FirstFree(rows, range[value - first..])
      {
        var address := FromInt(value);
        assert range[value - first..][1..] == range[value + 1 - first..];
        if address !in rows || rows[address].state == Available {
          return Some(address);
        }
        value := value + 1;
      }
      assert range[value - first..] == [];
      return None;
    }

    /** The outer loop over the pools, in order. */
    method Search(search: seq<Pool>) returns (result: Option<Address>)
      ensures result == FirstFree(rows, Candidates(search))
    {
      for p := 0 to |search|
        invariant FirstFree(rows, Candidates(search)) == FirstFree(rows, Candidates(search[p..]))
      {
        assert search[p..][1..] == search[p + 1..];
        FirstFreeAppend(rows, AddressRange(search[p]), Candidates(search[p + 1..]));
        result := SearchPool(search[p]);
        if result.Some? {
          return;
        }
      }
      assert search[|search|..] == [];
      return None;
    }

    method AllocateIp(pool: Option<Pool>, note: string) returns (result: Option<Address>)
      modifies this
      ensures result == Outcome(pools, old(rows), Allocate(pool, note))
      ensures rows == Apply(pools, contains, old(rows), Allocate(pool, note))
      ensures LowestFree(old(rows), if pool.Some? then [pool.value] else pools, result)
      ensures rows == if result.Some? then old(rows)[result.value := Row(Allocated, note)] else old(rows)
    {
      FirstFreeIsLowest(rows, if pool.Some? then [pool.value] else pools);
      result := Search(if pool.Some? then [pool.value] else pools);
      if result.Some? {
        var address := result.value;
        if address !in rows {
          rows := rows[address := Row(Allocated, note)];
        } else {
          rows := rows[address := rows[address].(state := Allocated, note := note)];
        }
      }
    }

    method FindFreeIp() returns (result: Option<Address>)
      ensures forall note :: result == Outcome(pools, rows, Allocate(None, note))
      ensures LowestFree(rows, pools, result)
    {
      FirstFreeIsLowest(rows, pools);
      result := Search(pools);
    }

    /** `parsed` is None if the text given is not an address. */
    method ReserveIp(parsed: Option<Address>, note: string) returns (ok: bool)
      modifies this
      ensures ok == (parsed.Some? && contains(parsed.value) && StateOf(old(rows), parsed.value) != Allocated)
      ensures rows == Apply(pools, contains, old(rows), Reserve(parsed, note))
      ensures rows == if ok then old(rows)[parsed.value := Row(Reserved, note)] else old(rows)
    {
      if parsed.None? || !contains(parsed.value) {
        return false;
      }
      var address := parsed.value;
      if address in rows && rows[address].state == Allocated {
        return false;
      }
      rows := rows[address := Row(Reserved, note)];
      return true;
    }

    /** Called with a row that was read from the table; whatever its state, it becomes available. */
    method ReleaseIp(address: Address)
      requires address in rows
      modifies this
      ensures rows == Apply(pools, contains, old(rows), Release(address))
      ensures rows == old(rows)[address := Row(Available, "")]
    {
      rows := rows[address := rows[address].(state := Available, note := "")];
    }
  }

  datatype Op =
    | Allocate(pool: Option<Pool>, note: string)
    | Reserve(parsed: Option<Address>, note: string)
    | Release(address: Address)

  /** The address an operation hands out. */
  function Outcome(pools: seq<Pool>, rows: Table, op: Op): Option<Address> {
    if op.Allocate? then FirstFree(rows, Candidates(PoolsToSearch(pools, op.pool))) else None
  }

  function Apply(pools: seq<Pool>, contains: Address -> bool, rows: Table, op: Op): Table {
    match op
    case Allocate(pool, note) =>
      var got := Outcome(pools, rows, op);
      if got.Some? then rows[got.value := Row(Allocated, note)] else rows
    case Reserve(parsed, note) =>
      if parsed.Some? && contains(parsed.value) && StateOf(rows, parsed.value) != Allocated
      then rows[parsed.value := Row(Reserved, note)] else rows
    case Release(a) => if a in rows then rows[a := Row(Available, "")] else rows
  }

  /** `got` is the first free candidate of a total map, or there is none. */
  ghost predicate IsFirstFree(state: Address -> AddressState, candidates: seq<Address>, got: Option<Address>) {
    match got
    case None => forall a :: a in candidates ==> state(a) != Available
    case Some(a) =>
      exists i :: 0 <= i < |candidates| && candidates[i] == a && state(a) == Available
                  && (forall j :: 0 <= j < i ==> state(candidates[j]) != Available)
  }

  lemma {:induction false} FirstFreeIsFirst(rows: Table, candidates: seq<Address>)
    ensures IsFirstFree(a => StateOf(rows, a), candidates, FirstFree(rows, candidates))
    decreases |candidates|
  {
    if candidates != [] {
      if StateOf(rows, candidates[0]) == Available {
        assert candidates[0] == FirstFree(rows, candidates).value;
      } else {
        FirstFreeIsFirst(rows, candidates[1..]);
        var got := FirstFree(rows, candidates);
        if got.Some? {
          var i :| 0 <= i < |candidates[1..]| && candidates[1..][i] == got.value
            && forall j :: 0 <= j < i ==> StateOf(rows, candidates[1..][j]) != Available;
          assert candidates[i + 1] == got.value;
          forall j | 0 <= j < i + 1 ensures StateOf(rows, candidates[j]) != Available {
            if j > 0 {
              assert candidates[j] == candidates[1..][j - 1];
            }
          }
        } else {
          forall a | a in candidates ensures StateOf(rows, a) != Available {
            if a != candidates[0] {
              assert a in candidates[1..];
            }
          }
        }
      }
    }
  }

  /** The specification: the same operations on a total map, with no rows to create. */
  ghost predicate DenseStep(pools: seq<Pool>, contains: Address -> bool,
    before: Address -> AddressState, op: Op, got: Option<Address>, after: Address -> AddressState)
  {
    match op
    case Allocate(pool, _) =>
      && IsFirstFree(before, Candidates(PoolsToSearch(pools, pool)), got)
      && (forall a :: after(a) == if got == Some(a) then Allocated else before(a))
    case Reserve(parsed, _) =>
      && got == None
      && (forall a :: after(a) ==
            if parsed == Some(a) && contains(a) && before(a) != Allocated then Reserved else before(a))
    case Release(released) =>
      && got == None
      && (forall a :: after(a) == if a == released then Available else before(a))
  }

  function Run(pools: seq<Pool>, contains: Address -> bool, rows: Table, ops: seq<Op>): Table {
    if ops == [] then rows
    else Apply(pools, contains, Run(pools, contains, rows, ops[..|ops| - 1]), ops[|ops| - 1])
  }

  /** After any run from any table, the lazily filled table takes exactly the step the total map
      would take and hands out the same address. */
  lemma {:induction false} LazyTableRefinesTotalMap(pools: seq<Pool>, contains: Address -> bool, rows: Table, ops: seq<Op>, op: Op)
    ensures var table := Run(pools, contains, rows, ops);
      DenseStep(pools, contains, a => StateOf(table, a), op, Outcome(pools, table, op),
                a => StateOf(Apply(pools, contains, table, op), a))
    ensures Run(pools, contains, rows, ops + [op]) == Apply(pools, contains, Run(pools, contains, rows, ops), op)
  {
    var table := Run(pools, contains, rows, ops);
    if op.Allocate? {
      FirstFreeIsFirst(table, Candidates(PoolsToSearch(pools, op.pool)));
    }
    assert (ops + [op])[..|ops + [op]| - 1] == ops;
  }

  /** Whatever is handed out was available, so RESERVED, BLOCKED and ALLOCATED addresses never
      are, and the next operation does not hand it out again. */
  lemma {:induction false} AllocationTakesAnAvailableAddress(pools: seq<Pool>, contains: Address -> bool, rows: Table, ops: seq<Op>, op: Op)
    requires Outcome(pools, Run(pools, contains, rows, ops), op).Some?
    ensures var table := Run(pools, contains, rows, ops);
      var a := Outcome(pools, table, op).value;
      && StateOf(table, a) == Available
      && StateOf(Run(pools, contains, rows, ops + [op]), a) == Allocated
      && forall later :: Outcome(pools, Run(pools, contains, rows, ops + [op]), later) != Some(a)
  {
    var table := Run(pools, contains, rows, ops);
    LazyTableRefinesTotalMap(pools, contains, rows, ops, op);
    var a := Outcome(pools, table, op).value;
    var next := Run(pools, contains, rows, ops + [op]);
    forall later ensures Outcome(pools, next, later) != Some(a) {
      if later.Allocate? {
        FirstFreeIsFirst(next, Candidates(PoolsToSearch(pools, later.pool)));
      }
    }
  }

  lemma {:induction false} AllocatedIsNotHandedOut(pools: seq<Pool>, rows: Table, op: Op, a: Address)
    requires StateOf(rows, a) == Allocated
    ensures Outcome(pools, rows, op) != Some(a)
  {
    if op.Allocate? {
      FirstFreeIsFirst(rows, Candidates(PoolsToSearch(pools, op.pool)));
    }
  }

  lemma {:induction false} StaysAllocated(pools: seq<Pool>, contains: Address -> bool, rows: Table, op: Op, a: Address)
    requires StateOf(rows, a) == Allocated && op != Release(a)
    ensures StateOf(Apply(pools, contains, rows, op), a) == Allocated
  {
    AllocatedIsNotHandedOut(pools, rows, op, a);
  }

  lemma {:induction false} StaysAllocatedOverRuns(pools: seq<Pool>, contains: Address -> bool, rows: Table, later: seq<Op>, a: Address)
    requires StateOf(rows, a) == Allocated && Release(a) !in later
    ensures StateOf(Run(pools, contains, rows, later), a) == Allocated
    decreases |later|
  {
    if later != [] {
      var init := later[..|later| - 1];
      StaysAllocatedOverRuns(pools, contains, rows, init, a);
      StaysAllocated(pools, contains, Run(pools, contains, rows, init), later[|later| - 1], a);
    }
  }

  lemma {:induction false} RunSplits(pools: seq<Pool>, contains: Address -> bool, rows: Table, ops: seq<Op>, later: seq<Op>)
    ensures Run(pools, contains, rows, ops + later) == Run(pools, contains, Run(pools, contains, rows, ops), later)
    decreases |later|
  {
    if later == [] {
      assert ops + later == ops;
    } else {
      assert (ops + later)[..|ops + later| - 1] == ops + later[..|later| - 1];
      RunSplits(pools, contains, rows, ops, later[..|later| - 1]);
    }
  }

  /** An address that was handed out stays allocated, and is handed out to nobody, as long as nobody
      releases it, whatever else is allocated, reserved and released. */
  lemma {:induction false} AllocatedUntilReleased(pools: seq<Pool>, contains: Address -> bool, rows: Table, ops: seq<Op>, op: Op,
                                                  later: seq<Op>, next: Op)
    requires Outcome(pools, Run(pools, contains, rows, ops), op).Some?
    requires Release(Outcome(pools, Run(pools, contains, rows, ops), op).value) !in later
    ensures var a := Outcome(pools, Run(pools, contains, rows, ops), op).value;
      var table := Run(pools, contains, rows, (ops + [op]) + later);
      StateOf(table, a) == Allocated && Outcome(pools, table, next) != Some(a)
  {
    var a := Outcome(pools, Run(pools, contains, rows, ops), op).value;
    AllocationTakesAnAvailableAddress(pools, contains, rows, ops, op);
    RunSplits(pools, contains, rows, ops + [op], later);
    StaysAllocatedOverRuns(pools, contains, Run(pools, contains, rows, ops + [op]), later, a);
    AllocatedIsNotHandedOut(pools, Run(pools, contains, rows, (ops + [op]) + later), next, a);
  }
}
