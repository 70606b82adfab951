/** Redis locks with ownership tokens and expiry. Times are milliseconds; the server drops a
    key once its expiry time is reached. Each lock object has a token of its own. */
module Locks {
  import opened Wrappers

  type Token = string
  type Key = string

  datatype Entry = Entry(token: Token, expiresAt: int)

  /** The server's clock and keys, and for each lock object that believes it holds a key the
      time its lease ends. `leases` is bookkeeping: no operation looks at it. */
  datatype State = State(now: int, store: map<Key, Entry>, leases: map<(Key, Token), int>)

  predicate Live(s: State, key: Key) {
    key in s.store && s.now < s.store[key].expiresAt
  }

  /** `GET`. */
  function Get(s: State, key: Key): Option<Token> {
    if Live(s, key) then Some(s.store[key].token) else None
  }

  datatype Event =
    | Acquire(key: Key, token: Token, ttl: int)
    | Extend(key: Key, token: Token, ttl: int)
    | Release(key: Key, token: Token)
    | Tick(elapsed: nat)

  /** `SET key token NX PX ttl`; Redis refuses an expiry that is not positive. */
  predicate Granted(s: State, key: Key, ttl: int) {
    !Live(s, key) && ttl > 0
  }

  /** Both Lua scripts act only if the key still holds the caller's token. */
  predicate Owns(s: State, key: Key, token: Token) {
    Get(s, key) == Some(token)
  }

  function Step(s: State, e: Event): State {
    match e
    case Acquire(key, token, ttl) =>
      if Granted(s, key, ttl) then
        s.(store := s.store[key := Entry(token, s.now + ttl)], leases := s.leases[(key, token) := s.now + ttl])
      else s
    case Extend(key, token, ttl) =>
      if Owns(s, key, token) then
        s.(store := if ttl > 0 then s.store[key := Entry(token, s.now + ttl)] else s.store - {key},
           leases := s.leases[(key, token) := s.now + ttl])
      else s
    case Release(key, token) =>
      s.(store := if Owns(s, key, token) then s.store - {key} else s.store, leases := s.leases - {(key, token)})
    case Tick(elapsed) =>
      s.(now := s.now + elapsed)
  }

  predicate InLease(s: State, key: Key, token: Token) {
    (key, token) in s.leases && s.now < s.leases[(key, token)]
  }

  /** A lease that has not run out is exactly what the server has on record. */
  ghost predicate Valid(s: State) {
    forall key, token :: InLease(s, key, token) ==>
      key in s.store && s.store[key] == Entry(token, s.leases[(key, token)])
  }

  const EMPTY: State := State(0, map[], map[])

  function Run(s: State, es: seq<Event>): State {
    if es == [] then s else Step(Run(s, es[..|es| - 1]), es[|es| - 1])
  }

  lemma {:induction false} StepKeepsValid(s: State, e: Event)
    requires Valid(s)
    ensures Valid(Step(s, e))
  {
    var s' := Step(s, e);
    forall key, token | InLease(s', key, token)
      ensures key in s'.store && s'.store[key] == Entry(token, s'.leases[(key, token)])
    {
      assert (key, token) in s.leases && s'.leases[(key, token)] == s.leases[(key, token)] ==> InLease(s, key, token);
    }
  }

  lemma {:induction false} RunKeepsValid(s: State, es: seq<Event>)
    requires Valid(s)
    ensures Valid(Run(s, es))
    decreases |es|
  {
    if es != [] {
      RunKeepsValid(s, es[..|es| - 1]);
      StepKeepsValid(Run(s, es[..|es| - 1]), es[|es| - 1]);
    }
  }

  /** At every moment of every run at most one lock object per key is inside its lease, and the
      server agrees on which. */
  lemma {:induction false} MutualExclusion(es: seq<Event>, key: Key, t1: Token, t2: Token)
    requires var s := Run(EMPTY, es); InLease(s, key, t1) && InLease(s, key, t2)
    ensures t1 == t2
    ensures Owns(Run(EMPTY, es), key, t1)
  {
    RunKeepsValid(EMPTY, es);
  }

  /** The other way round: a live entry is somebody's lease, up to the very same time. */
  ghost predicate Leased(s: State) {
    forall key :: Live(s, key) ==>
      var e := s.store[key]; (key, e.token) in s.leases && s.leases[(key, e.token)] == e.expiresAt
  }

  lemma {:induction false} StepKeepsLeased(s: State, e: Event)
    requires Leased(s)
    ensures Leased(Step(s, e))
  {
    var s' := Step(s, e);
    forall key | Live(s', key)
      ensures var x := s'.store[key]; (key, x.token) in s'.leases && s'.leases[(key, x.token)] == x.expiresAt
    {
      assert key in s.store && s'.store[key] == s.store[key] ==> Live(s, key);
    }
  }

  lemma {:induction false} RunKeepsLeased(s: State, es: seq<Event>)
    requires Leased(s)
    ensures Leased(Run(s, es))
    decreases |es|
  {
    if es != [] {
      RunKeepsLeased(s, es[..|es| - 1]);
      StepKeepsLeased(Run(s, es[..|es| - 1]), es[|es| - 1]);
    }
  }

  /** A client outside its lease owns nothing: what it extends changes nothing at all, and what it
      releases changes no key and no other client's lease. */
  lemma {:induction false} LapsedHolderIsHarmless(es: seq<Event>, key: Key, token: Token, ttl: int)
    requires !InLease(Run(EMPTY, es), key, token)
    ensures var s := Run(EMPTY, es);
      && Step(s, Extend(key, token, ttl)) == s
      && Step(s, Release(key, token)).store == s.store
    ensures var s := Run(EMPTY, es); forall other, holder :: InLease(s, other, holder) ==>
      && InLease(Step(s, Release(key, token)), other, holder)
      && Step(s, Release(key, token)).leases[(other, holder)] == s.leases[(other, holder)]
      && Get(Step(s, Release(key, token)), other) == Some(holder)
  {
    RunKeepsValid(EMPTY, es);
    RunKeepsLeased(EMPTY, es);
    assert !Owns(Run(EMPTY, es), key, token);
  }

  lemma {:induction false} RunSnoc(es: seq<Event>, e: Event)
    ensures Run(EMPTY, es + [e]) == Step(Run(EMPTY, es), e)
  {
    assert (es + [e])[..|es + [e]| - 1] == es;
  }

  /** A key that nobody has a running lease on is granted to whoever asks, for the time asked; a key
      that somebody has one on is granted to nobody. */
  lemma {:induction false} GrantedExactly(es: seq<Event>, key: Key, token: Token, ttl: int)
    requires ttl > 0
    ensures var s, s' := Run(EMPTY, es), Run(EMPTY, es + [Acquire(key, token, ttl)]);
      && ((forall t :: !InLease(s, key, t)) ==> InLease(s', key, token) && s'.leases[(key, token)] == s.now + ttl)
      && ((exists t :: InLease(s, key, t)) ==> s' == s)
  {
    var s := Run(EMPTY, es);
    RunSnoc(es, Acquire(key, token, ttl));
    RunKeepsValid(EMPTY, es);
    RunKeepsLeased(EMPTY, es);
    if Live(s, key) {
      assert InLease(s, key, s.store[key].token);
    }
  }

  /** A holder that releases inside its lease leaves the key to whoever asks next, and one that extends
      has the lease for the time asked. */
  lemma {:induction false} HolderReleasesAndExtends(es: seq<Event>, key: Key, token: Token, ttl: int, other: Token)
    requires InLease(Run(EMPTY, es), key, token) && ttl > 0
    ensures var s := Run(EMPTY, es);
      && (forall t :: !InLease(Step(s, Release(key, token)), key, t))
      && InLease(Step(Step(s, Release(key, token)), Acquire(key, other, ttl)), key, other)
      && InLease(Step(s, Extend(key, token, ttl)), key, token)
      && Step(s, Extend(key, token, ttl)).leases[(key, token)] == s.now + ttl
  {
    var s := Run(EMPTY, es);
    RunKeepsValid(EMPTY, es);
    var released := Step(s, Release(key, token));
    forall t ensures !InLease(released, key, t) {
      if t != token {
        assert (key, t) in released.leases ==> released.leases[(key, t)] == s.leases[(key, t)];
        assert !InLease(s, key, t);
      }
    }
  }

  lemma {:induction false} ClockAdvances(s: State, es: seq<Event>)
    ensures s.now <= Run(s, es).now
    decreases |es|
  {
    if es != [] {
      ClockAdvances(s, es[..|es| - 1]);
    }
  }

  lemma {:induction false} RunSplits(s: State, a: seq<Event>, b: seq<Event>)
    ensures Run(s, a + b) == Run(Run(s, a), b)
    decreases |b|
  {
    if b == [] {
      assert a + b == a;
    } else {
      var n := |b| - 1;
      assert (a + b)[..|a + b| - 1] == a + b[..n];
      RunSplits(s, a, b[..n]);
    }
  }

  /** As long as the owner neither releases nor extends, its lease stays as it was granted and
      nobody else is granted the key before it has run out. */
  lemma {:induction false} LeaseStands(s: State, es: seq<Event>, key: Key, token: Token)
    requires Valid(s) && InLease(s, key, token)
    requires forall i :: 0 <= i < |es| ==> es[i] != Release(key, token) && !(es[i].Extend? && es[i].key == key && es[i].token == token)
    requires Run(s, es).now < s.leases[(key, token)]
    ensures InLease(Run(s, es), key, token) && Run(s, es).leases[(key, token)] == s.leases[(key, token)]
    decreases |es|
  {
    if es != [] {
      var n := |es| - 1;
      var init := es[..n];
      var t := Run(s, init);
      assert t.now <= Run(s, es).now;
      assert forall i :: 0 <= i < n ==> init[i] == es[i];
      LeaseStands(s, init, key, token);
      RunKeepsValid(s, init);
      assert Owns(t, key, token);
    }
  }

  /** Bodies shorter than their TTL never overlap: if a client was granted a key and has not
      released or extended it, another grant of that key comes no sooner than the TTL later. */
  lemma {:induction false} BodiesDoNotOverlap(es: seq<Event>, key: Key, t1: Token, ttl1: int, body: seq<Event>, ttl2: int)
    requires Granted(Run(EMPTY, es), key, ttl1)
    requires forall i :: 0 <= i < |body| ==>
      body[i] != Release(key, t1) && !(body[i].Extend? && body[i].key == key && body[i].token == t1)
    requires Granted(Run(EMPTY, es + [Acquire(key, t1, ttl1)] + body), key, ttl2)
    ensures Run(EMPTY, es + [Acquire(key, t1, ttl1)] + body).now >= Run(EMPTY, es).now + ttl1
  {
    var s := Run(EMPTY, es);
    var e := Acquire(key, t1, ttl1);
    assert (es + [e])[..|es|] == es;
    var s1 := Run(EMPTY, es + [e]);
    assert s1 == Step(s, e);
    RunSplits(EMPTY, es + [e], body);
    RunKeepsValid(EMPTY, es + [e]);
    var s2 := Run(s1, body);
    if s2.now < s.now + ttl1 {
      ClockAdvances(s1, body);
      LeaseStands(s1, body, key, t1);
      RunKeepsValid(s1, body);
    }
  }

  /** The Redis server. */
  class Server {
    var clock: int
    var store: map<Key, Entry>
    ghost var leases: map<(Key, Token), int>

    ghost function Value(): State
      reads this
    {
      State(clock, store, leases)
    }

    constructor ()
      ensures Value() == EMPTY
    {
      clock, store, leases := 0, map[], map[];
    }

    method SetNxPx(key: Key, token: Token, ttl: int) returns (ok: bool)
      modifies this
      ensures ok == Granted(old(Value()), key, ttl)
      ensures Value() == Step(old(Value()), Event.Acquire(key, token, ttl))
    {
      ok := !(key in store && clock < store[key].expiresAt) && ttl > 0;
      if ok {
        store := store[key := Entry(token, clock + ttl)];
        leases := leases[(key, token) := clock + ttl];
      }
    }

    method EvalExtend(key: Key, token: Token, ttl: int) returns (ok: bool)
      modifies this
      ensures ok == Owns(old(Value()), key, token)
      ensures Value() == Step(old(Value()), Event.Extend(key, token, ttl))
    {
      ok := key in store && clock < store[key].expiresAt && store[key].token == token;
      if ok {
        store := if ttl > 0 then store[key := Entry(token, clock + ttl)] else store - {key};
        leases := leases[(key, token) := clock + ttl];
      }
    }

    method EvalRelease(key: Key, token: Token) returns (ok: bool)
      modifies this
      ensures ok == Owns(old(Value()), key, token)
      ensures Value() == Step(old(Value()), Event.Release(key, token))
    {
      ok := key in store && clock < store[key].expiresAt && store[key].token == token;
      if ok {
        store := store - {key};
      }
      leases := leases - {(key, token)};
    }

    method Sleep(elapsed: nat)
      modifies this
      ensures Value() == Step(old(Value()), Tick(elapsed))
    {
      clock := clock + elapsed;
    }
  }

  class RedisLock {
    const key: Key
    const ttlSeconds: int
    const token: Token

    constructor (key: Key, ttlSeconds: int, token: Token)
      ensures this.key == key && this.ttlSeconds == ttlSeconds && this.token == token
    {
      this.key, this.ttlSeconds, this.token := key, ttlSeconds, token;
    }

    /** Other lock objects and the passing of time. */
    method Others(server: Server)
      requires Valid(server.Value())
      modifies server
      ensures Valid(server.Value()) && server.clock >= old(server.clock)
      ensures InLease(server.Value(), key, token) ==> old(InLease(server.Value(), key, token))
    {
      var n: int := *;
      while n > 0
        invariant Valid(server.Value()) && server.clock >= old(server.clock)
        invariant InLease(server.Value(), key, token) ==> old(InLease(server.Value(), key, token))
      {
        var k: Key := *;
        var t: Token := *;
        var ttl: int := *;
        StepKeepsValid(server.Value(), Event.Acquire(k, t, ttl));
        StepKeepsValid(server.Value(), Event.Extend(k, t, ttl));
        StepKeepsValid(server.Value(), Event.Release(k, t));
        if t != token {
          if {
            case true => var _ := server.SetNxPx(k, t, ttl);
            case true => var _ := server.EvalExtend(k, t, ttl);
            case true => var _ := server.EvalRelease(k, t);
          }
        } else if ttl > 0 {
          StepKeepsValid(server.Value(), Tick(ttl));
          server.Sleep(ttl);
        }
        n := n - 1;
      }
    }

    /** Retries until granted or, when blocking, until the deadline. */
    method Acquire(server: Server, blocking: bool, timeout: int, retryInterval: nat) returns (acquired: bool)
      requires Valid(server.Value()) && retryInterval > 0
      modifies server
      ensures Valid(server.Value()) && server.clock >= old(server.clock)
      ensures acquired ==>
        InLease(server.Value(), key, token) && server.leases[(key, token)] == server.clock + 1000 * ttlSeconds
      ensures !acquired ==>
        && !Granted(server.Value(), key, 1000 * ttlSeconds)
        && (ttlSeconds > 0 ==> key in server.store && server.clock < server.store[key].expiresAt)
        && (!blocking || server.clock >= old(server.clock) + timeout)
    {
      var deadline := server.clock + timeout;
      while true
        invariant Valid(server.Value()) && server.clock >= old(server.clock)
        decreases deadline - server.clock
      {
        StepKeepsValid(server.Value(), Event.Acquire(key, token, 1000 * ttlSeconds));
        acquired := server.SetNxPx(key, token, 1000 * ttlSeconds);
        if acquired {
          return true;
        }
        if !blocking || server.clock >= deadline {
          return false;
        }
        StepKeepsValid(server.Value(), Tick(retryInterval));
        server.Sleep(retryInterval);
        Others(server);
      }
    }

    method Extend(server: Server, additionalSeconds: Option<int>) returns (ok: bool)
      requires Valid(server.Value())
      modifies server
      ensures Valid(server.Value())
      ensures ok == old(Owns(server.Value(), key, token))
      ensures ok ==>
        && (key, token) in server.leases
        && server.leases[(key, token)] == server.clock + 1000 * ExtensionSeconds(additionalSeconds)
      ensures !ok ==> server.Value() == old(server.Value())
    {
      var seconds := ExtensionSeconds(additionalSeconds);
      StepKeepsValid(server.Value(), Event.Extend(key, token, 1000 * seconds));
      ok := server.EvalExtend(key, token, 1000 * seconds);
    }

    /** Zero counts as not given. */
    function ExtensionSeconds(additionalSeconds: Option<int>): int {
      if additionalSeconds.Some? && additionalSeconds.value != 0 then additionalSeconds.value else ttlSeconds
    }

    method Release(server: Server) returns (ok: bool)
      requires Valid(server.Value())
      modifies server
      ensures Valid(server.Value())
      ensures ok == old(Owns(server.Value(), key, token))
      ensures server.store == if ok then old(server.store) - {key} else old(server.store)
      ensures !InLease(server.Value(), key, token) && server.clock == old(server.clock)
    {
      StepKeepsValid(server.Value(), Event.Release(key, token));
      ok := server.EvalRelease(key, token);
    }
  }
}
