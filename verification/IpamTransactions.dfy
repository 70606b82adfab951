/** Concurrent `allocate_ip` transactions against the database (read committed). The Redis lock of
    the subnet is not part of the model at all: it is released before the transaction commits
    and may expire, so any interleaving of the statements below can happen. What remains is
    `select_for_update`, which waits for and then holds a row, and the unique (subnet, address)
    constraint, which makes a second insert wait and then fail. */
module IpamTransactions {
  import opened Wrappers
  import opened Ipam

  type TxnId = nat

  datatype Pending = NoWrite | Insert(address: Address) | Update(address: Address)

  /** `seen[a]` is what the transaction's own query for `a` returned: None for no row. */
  datatype Txn = Txn(locks: set<Address>, seen: map<Address, Option<AddressState>>, write: Pending)

  datatype Entry = Allocation(address: Address, txn: TxnId) | Freed(address: Address)

  /** Committed rows, open transactions, and the committed allocations and releases in order. */
  datatype World = World(rows: map<Address, AddressState>, txns: map<TxnId, Txn>, log: seq<Entry>)

  datatype Event =
    | Begin(txn: TxnId)
    | Select(txn: TxnId, address: Address)
    | DoInsert(txn: TxnId, address: Address)
    | DoUpdate(txn: TxnId, address: Address)
    | Commit(txn: TxnId)
    | Rollback(txn: TxnId)
    | ReleaseRow(address: Address)
    | ReserveRow(address: Address)

  predicate LockedByOther(w: World, t: TxnId, a: Address) {
    exists u :: u in w.txns && u != t && a in w.txns[u].locks
  }

  predicate Locked(w: World, a: Address) {
    exists u :: u in w.txns && a in w.txns[u].locks
  }

  predicate InsertPending(w: World, a: Address) {
    exists u :: u in w.txns && w.txns[u].write == Insert(a)
  }

  /** A statement that would have to wait is not enabled. */
  predicate Enabled(w: World, e: Event) {
    match e
    case Begin(t) => t !in w.txns
    case Select(t, a) => t in w.txns && w.txns[t].write.NoWrite? && !LockedByOther(w, t, a)
    case DoInsert(t, a) =>
      t in w.txns && w.txns[t].write.NoWrite? && a in w.txns[t].seen && w.txns[t].seen[a] == None && !InsertPending(w, a)
    case DoUpdate(t, a) =>
      t in w.txns && w.txns[t].write.NoWrite? && a in w.txns[t].locks && a in w.txns[t].seen
      && w.txns[t].seen[a] == Some(Available)
    case Commit(t) => t in w.txns
    case Rollback(t) => t in w.txns
    case ReleaseRow(a) => a in w.rows && !Locked(w, a)
    case ReserveRow(a) => !Locked(w, a) && !InsertPending(w, a)
  }

  function Step(w: World, e: Event): World {
    if !Enabled(w, e) then w else
    match e
    case Begin(t) => w.(txns := w.txns[t := Txn({}, map[], NoWrite)])
    case Select(t, a) =>
      var txn := w.txns[t];
      if a in w.rows then
        w.(txns := w.txns[t := txn.(locks := txn.locks + {a}, seen := txn.seen[a := Some(w.rows[a])])])
      else
        w.(txns := w.txns[t := txn.(seen := txn.seen[a := None])])
    case DoInsert(t, a) =>
      if a in w.rows then w.(txns := w.txns - {t})
      else w.(txns := w.txns[t := w.txns[t].(write := Insert(a))])
    case DoUpdate(t, a) => w.(txns := w.txns[t := w.txns[t].(write := Update(a))])
    case Commit(t) =>
      var write := w.txns[t].write;
      if write.NoWrite? then w.(txns := w.txns - {t})
      else World(w.rows[write.address := Allocated], w.txns - {t}, w.log + [Allocation(write.address, t)])
    case Rollback(t) => w.(txns := w.txns - {t})
    case ReleaseRow(a) => w.(rows := w.rows[a := Available], log := w.log + [Freed(a)])
    case ReserveRow(a) =>
      if a in w.rows && w.rows[a] == Allocated then w else w.(rows := w.rows[a := Reserved])
  }

  function Run(rows: map<Address, AddressState>, es: seq<Event>): World {
    if es == [] then World(rows, map[], []) else Step(Run(rows, es[..|es| - 1]), es[|es| - 1])
  }

  /** Whether the latest log entry about an address is an allocation. */
  ghost predicate HeldIn(log: seq<Entry>, a: Address)
  {
    log != [] &&
    if log[|log| - 1].address == a then log[|log| - 1].Allocation? else HeldIn(log[..|log| - 1], a)
  }

  ghost predicate NoDoubleAllocation(log: seq<Entry>) {
    forall i, j :: 0 <= i < j < |log| && log[i].Allocation? && log[j].Allocation? && log[i].address == log[j].address ==>
      exists k :: i < k < j && log[k] == Freed(log[i].address)
  }

  ghost predicate TxnInv(rows: map<Address, AddressState>, txn: Txn) {
    && txn.locks <= rows.Keys
    && (forall a :: a in txn.locks ==> a in txn.seen && txn.seen[a] == Some(rows[a]))
    && (txn.write.Update? ==> txn.write.address in txn.locks && rows[txn.write.address] == Available)
    && (txn.write.Insert? ==> txn.write.address !in rows)
  }

  ghost predicate Exclusive(w: World) {
    && (forall t, u :: t in w.txns && u in w.txns && t != u ==> w.txns[t].locks !! w.txns[u].locks)
    && (forall t, u :: t in w.txns && u in w.txns && t != u && w.txns[t].write.Insert? && w.txns[u].write.Insert? ==>
          w.txns[t].write.address != w.txns[u].write.address)
  }

  ghost predicate TxnsInv(w: World) {
    Exclusive(w) && forall t :: t in w.txns ==> TxnInv(w.rows, w.txns[t])
  }

  ghost predicate LogInv(w: World) {
    && (forall a :: HeldIn(w.log, a) ==> a in w.rows && w.rows[a] == Allocated)
    && NoDoubleAllocation(w.log)
  }

  ghost predicate Inv(w: World) {
    TxnsInv(w) && LogInv(w)
  }

  lemma {:induction false} NotHeldWasFreed(log: seq<Entry>, i: nat)
    requires i < |log| && log[i].Allocation? && !HeldIn(log, log[i].address)
    ensures exists k :: i < k < |log| && log[k] == Freed(log[i].address)
    decreases |log|
  {
    var n := |log| - 1;
    if log[n].address != log[i].address {
      NotHeldWasFreed(log[..n], i);
      var k :| i < k < n && log[..n][k] == Freed(log[i].address);
      assert log[k] == Freed(log[i].address);
    }
  }

  /** An allocation may be logged only for an address that the log does not hold. */
  lemma {:induction false} AppendAllocation(log: seq<Entry>, a: Address, t: TxnId)
    requires NoDoubleAllocation(log) && !HeldIn(log, a)
    ensures NoDoubleAllocation(log + [Allocation(a, t)])
  {
    var log' := log + [Allocation(a, t)];
    forall i, j | 0 <= i < j < |log'| && log'[i].Allocation? && log'[j].Allocation? && log'[i].address == log'[j].address
      ensures exists k :: i < k < j && log'[k] == Freed(log'[i].address)
    {
      if j == |log| {
        NotHeldWasFreed(log, i);
        var k :| i < k < |log| && log[k] == Freed(log[i].address);
        assert log'[k] == Freed(log'[i].address);
      } else {
        var k :| i < k < j && log[k] == Freed(log[i].address);
        assert log'[k] == Freed(log'[i].address);
      }
    }
  }

  lemma {:induction false} AppendFreed(log: seq<Entry>, a: Address)
    requires NoDoubleAllocation(log)
    ensures NoDoubleAllocation(log + [Freed(a)])
  {
    var log' := log + [Freed(a)];
    forall i, j | 0 <= i < j < |log'| && log'[i].Allocation? && log'[j].Allocation? && log'[i].address == log'[j].address
      ensures exists k :: i < k < j && log'[k] == Freed(log'[i].address)
    {
      var k :| i < k < j && log[k] == Freed(log[i].address);
      assert log'[k] == Freed(log'[i].address);
    }
  }

  /** One transaction makes a step of its own. */
  lemma {:induction false} ReplaceTxn(w: World, t: TxnId, txn: Txn)
    requires TxnsInv(w) && TxnInv(w.rows, txn)
    requires forall a :: a in txn.locks ==> !LockedByOther(w, t, a)
    requires txn.write.Insert? ==> forall u :: u in w.txns && u != t ==> w.txns[u].write != txn.write
    ensures TxnsInv(w.(txns := w.txns[t := txn]))
  {
    var w' := w.(txns := w.txns[t := txn]);
    forall u, v | u in w'.txns && v in w'.txns && u != v ensures w'.txns[u].locks !! w'.txns[v].locks {
      if u == t {
        assert forall a :: a in txn.locks ==> a !in w.txns[v].locks;
      } else if v == t {
        assert forall a :: a in txn.locks ==> a !in w.txns[u].locks;
      }
    }
  }

  lemma {:induction false} OwnLocksAreOwn(w: World, t: TxnId)
    requires Exclusive(w) && t in w.txns
    ensures forall a :: a in w.txns[t].locks ==> !LockedByOther(w, t, a)
  {
    forall a, u | a in w.txns[t].locks && u in w.txns && u != t ensures a !in w.txns[u].locks {
      assert w.txns[t].locks !! w.txns[u].locks;
    }
  }

  /** A row nobody has locked and nobody is inserting may change under the open transactions. */
  lemma {:induction false} ChangeRow(w: World, a: Address, s: AddressState)
    requires TxnsInv(w) && !Locked(w, a) && !InsertPending(w, a)
    ensures TxnsInv(w.(rows := w.rows[a := s]))
  {
    forall t | t in w.txns ensures TxnInv(w.rows[a := s], w.txns[t]) {
      assert TxnInv(w.rows, w.txns[t]) && a !in w.txns[t].locks && w.txns[t].write != Insert(a);
    }
  }

  lemma {:induction false} EndTxn(w: World, t: TxnId)
    requires TxnsInv(w)
    ensures TxnsInv(w.(txns := w.txns - {t}))
  {
  }

  lemma {:induction false} StepKeepsTxns(w: World, e: Event)
    requires TxnsInv(w) && Enabled(w, e)
    ensures TxnsInv(Step(w, e))
  {
    match e
    case Begin(t) => ReplaceTxn(w, t, Txn({}, map[], NoWrite));
    case Select(t, a) =>
      assert TxnInv(w.rows, w.txns[t]);
      OwnLocksAreOwn(w, t);
      ReplaceTxn(w, t, Step(w, e).txns[t]);
    case DoInsert(t, a) =>
      if a in w.rows {
        EndTxn(w, t);
      } else {
        assert TxnInv(w.rows, w.txns[t]);
        OwnLocksAreOwn(w, t);
        ReplaceTxn(w, t, w.txns[t].(write := Insert(a)));
      }
    case DoUpdate(t, a) =>
      assert TxnInv(w.rows, w.txns[t]);
      OwnLocksAreOwn(w, t);
      ReplaceTxn(w, t, w.txns[t].(write := Update(a)));
    case Commit(t) =>
      EndTxn(w, t);
      if !w.txns[t].write.NoWrite? {
        NoOtherClaim(w, t);
        ChangeRow(w.(txns := w.txns - {t}), w.txns[t].write.address, Allocated);
      }
    case Rollback(t) => EndTxn(w, t);
    case ReleaseRow(a) =>
      forall t | t in w.txns ensures w.txns[t].write != Insert(a) {
        assert TxnInv(w.rows, w.txns[t]);
      }
      ChangeRow(w, a, Available);
    case ReserveRow(a) => ChangeRow(w, a, Reserved);
  }

  /** Nobody else has locked or is inserting what a transaction is about to write. */
  lemma {:induction false} NoOtherClaim(w: World, t: TxnId)
    requires TxnsInv(w) && t in w.txns && !w.txns[t].write.NoWrite?
    ensures var rest := w.(txns := w.txns - {t}); var a := w.txns[t].write.address;
      !Locked(rest, a) && !InsertPending(rest, a)
  {
    var a := w.txns[t].write.address;
    assert TxnInv(w.rows, w.txns[t]);
    forall u | u in w.txns && u != t ensures a !in w.txns[u].locks && w.txns[u].write != Insert(a) {
      assert TxnInv(w.rows, w.txns[u]) && w.txns[t].locks !! w.txns[u].locks;
    }
  }

  lemma {:induction false} HeldSnoc(log: seq<Entry>, x: Entry, a: Address)
    ensures HeldIn(log + [x], a) == if x.address == a then x.Allocation? else HeldIn(log, a)
  {
    assert (log + [x])[..|log + [x]| - 1] == log;
  }

  lemma {:induction false} LogAllocation(w: World, t: TxnId)
    requires Inv(w) && t in w.txns && !w.txns[t].write.NoWrite?
    ensures LogInv(Step(w, Commit(t)))
  {
    var a := w.txns[t].write.address;
    assert TxnInv(w.rows, w.txns[t]);
    AppendAllocation(w.log, a, t);
    forall b ensures HeldIn(w.log + [Allocation(a, t)], b) ==> b == a || HeldIn(w.log, b) {
      HeldSnoc(w.log, Allocation(a, t), b);
    }
  }

  lemma {:induction false} LogRelease(w: World, a: Address)
    requires LogInv(w) && Enabled(w, ReleaseRow(a))
    ensures LogInv(Step(w, ReleaseRow(a)))
  {
    AppendFreed(w.log, a);
    forall b ensures HeldIn(w.log + [Freed(a)], b) ==> b != a && HeldIn(w.log, b) {
      HeldSnoc(w.log, Freed(a), b);
    }
  }

  lemma {:induction false} StepKeepsInv(w: World, e: Event)
    requires Inv(w)
    ensures Inv(Step(w, e))
  {
    if Enabled(w, e) {
      StepKeepsTxns(w, e);
      if e.Commit? && !w.txns[e.txn].write.NoWrite? {
        LogAllocation(w, e.txn);
      } else if e.ReleaseRow? {
        LogRelease(w, e.address);
      } else {
        assert Step(w, e).log == w.log;
      }
    }
  }

  lemma {:induction false} RunKeepsInv(rows: map<Address, AddressState>, es: seq<Event>)
    ensures Inv(Run(rows, es))
    decreases |es|
  {
    if es != [] {
      RunKeepsInv(rows, es[..|es| - 1]);
      StepKeepsInv(Run(rows, es[..|es| - 1]), es[|es| - 1]);
    }
  }

  /** From any table and over any interleaving: between two committed allocations of an address
      there is a committed release of it. */
  lemma {:induction false} NoAddressIsAllocatedTwice(rows: map<Address, AddressState>, es: seq<Event>, i: nat, j: nat)
    requires var log := Run(rows, es).log; i < j < |log| && log[i].Allocation? && log[j].Allocation?
    requires var log := Run(rows, es).log; log[i].address == log[j].address
    ensures var log := Run(rows, es).log; exists k :: i < k < j && log[k] == Freed(log[i].address)
  {
    RunKeepsInv(rows, es);
  }

  lemma {:induction false} RunSnoc(es: seq<Event>, e: Event)
    ensures Run(map[], es + [e]) == Step(Run(map[], es), e)
  {
    assert (es + [e])[..|es + [e]| - 1] == es;
  }

  /** A transaction that runs alone gets an address that is absent or available, and a release makes it
      available again. */
  lemma {:induction false} LoneTransactionAllocates(rows: map<Address, AddressState>, a: Address)
    requires a !in rows || rows[a] == Available
    ensures var start := World(rows, map[], []);
      var found := Step(Step(start, Begin(1)), Select(1, a));
      var written := Step(found, if a in rows then DoUpdate(1, a) else DoInsert(1, a));
      var done := Step(written, Commit(1));
      && done == World(rows[a := Allocated], map[], [Allocation(a, 1)])
      && Step(done, ReleaseRow(a)) == World(rows[a := Available], map[], [Allocation(a, 1), Freed(a)])
  {
    var start := World(rows, map[], []);
    var begun := Txn({}, map[], NoWrite);
    assert Step(start, Begin(1)) == World(rows, map[1 := begun], []);
    var seen := if a in rows then Txn({a}, map[a := Some(Available)], NoWrite) else Searching(a);
    assert Step(World(rows, map[1 := begun], []), Select(1, a)) == World(rows, map[1 := seen], []) by {
      assert {} + {a} == {a};
    }
    var writing := seen.(write := if a in rows then Update(a) else Insert(a));
    assert Step(World(rows, map[1 := seen], []), if a in rows then DoUpdate(1, a) else DoInsert(1, a)) == World(rows, map[1 := writing], []);
    var done := World(rows[a := Allocated], map[], [Allocation(a, 1)]);
    assert map[1 := writing] - {1} == map[] && [] + [Allocation(a, 1)] == [Allocation(a, 1)];
    assert Step(World(rows, map[1 := writing], []), Commit(1)) == done;
    assert [Allocation(a, 1)] + [Freed(a)] == [Allocation(a, 1), Freed(a)];
    assert done.rows[a := Available] == rows[a := Available];
  }

  /** A transaction that has seen the address absent, before and after asking to insert it. */
  function Searching(a: Address): Txn {
    Txn({}, map[a := None], NoWrite)
  }

  function Inserting(a: Address): Txn {
    Txn({}, map[a := None], Insert(a))
  }

  lemma {:induction false} FirstInserts(a: Address)
    ensures Run(map[], [Begin(1), Select(1, a), DoInsert(1, a)]) == World(map[], map[1 := Inserting(a)], [])
  {
    RunSnoc([], Begin(1));
    RunSnoc([Begin(1)], Select(1, a));
    RunSnoc([Begin(1), Select(1, a)], DoInsert(1, a));
    assert [] + [Begin(1)] == [Begin(1)];
    assert [Begin(1)] + [Select(1, a)] == [Begin(1), Select(1, a)];
    assert [Begin(1), Select(1, a)] + [DoInsert(1, a)] == [Begin(1), Select(1, a), DoInsert(1, a)];
    assert Run(map[], []) == World(map[], map[], []);
    assert Run(map[], [Begin(1)]) == World(map[], map[1 := Txn({}, map[], NoWrite)], []);
    assert Run(map[], [Begin(1), Select(1, a)]) == World(map[], map[1 := Searching(a)], []);
  }

  lemma {:induction false} SecondFollows(a: Address)
    ensures var w := World(map[], map[1 := Inserting(a)], []);
      Step(Step(w, Begin(2)), Select(2, a)) == World(map[], map[1 := Inserting(a), 2 := Searching(a)], [])
  {
    var w := World(map[], map[1 := Inserting(a)], []);
    assert Step(w, Begin(2)) == World(map[], map[1 := Inserting(a), 2 := Txn({}, map[], NoWrite)], []);
  }

  lemma {:induction false} SecondWaitsAndFails(a: Address)
    ensures var w := World(map[], map[1 := Inserting(a), 2 := Searching(a)], []);
      !Enabled(w, DoInsert(2, a)) && 2 !in Step(Step(w, Commit(1)), DoInsert(2, a)).txns
  {
    var w := World(map[], map[1 := Inserting(a), 2 := Searching(a)], []);
    assert w.txns[1].write == Insert(a) && InsertPending(w, a);
    var committed := World(map[a := Allocated], map[2 := Searching(a)], [Allocation(a, 1)]);
    assert w.txns - {1} == committed.txns && Step(w, Commit(1)) == committed;
  }

  /** The Redis lock alone would not do: a transaction that takes it after another has let it go,
      but before that one commits, still finds the same address absent. The constraint then
      makes it wait, and fail once the first has committed. */
  lemma {:induction false} BothSeeTheAddressFree(a: Address)
    ensures var es := [Begin(1), Select(1, a), DoInsert(1, a)] + [Begin(2)] + [Select(2, a)];
      var w := Run(map[], es);
      && w.txns == map[1 := Inserting(a), 2 := Searching(a)]
      && !Enabled(w, DoInsert(2, a))
      && 2 !in Step(Step(w, Commit(1)), DoInsert(2, a)).txns
  {
    var es := [Begin(1), Select(1, a), DoInsert(1, a)];
    FirstInserts(a);
    RunSnoc(es, Begin(2));
    RunSnoc(es + [Begin(2)], Select(2, a));
    SecondFollows(a);
    SecondWaitsAndFails(a);
  }
}
