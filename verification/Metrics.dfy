/** The bounded metrics store: a Redis sorted set per resource, trimmed on every write by age and by
    count, with an expiry on the whole key. Scores are the sample times,
    in some fixed unit. */
module Metrics {
  import opened Wrappers

  datatype Sample = Sample(ts: int, body: string)

  datatype Zset = Zset(entries: seq<Sample>, expiresAt: Option<int>)

  const EMPTY := Zset([], None)

  ghost predicate AfterAllBefore(s: seq<Sample>, j: nat)
    requires j < |s|
  {
    forall i :: 0 <= i < j ==> s[i].ts < s[j].ts
  }

  ghost predicate Rising(s: seq<Sample>) {
    forall j :: 0 <= j < |s| ==> AfterAllBefore(s, j)
  }

  /** A key whose expiry time has come is gone. */
  function Visible(z: Zset, now: int): seq<Sample> {
    if z.expiresAt.Some? && z.expiresAt.value <= now then [] else z.entries
  }

  /** Among the first n entries, how far from the front until all later ones are above a score. */
  function CutBelow(s: seq<Sample>, score: int, n: nat): (c: nat)
    requires n <= |s|
    ensures c <= n
    ensures c < n ==> s[c].ts > score
    ensures c > 0 ==> s[c - 1].ts <= score
  {
    if n == 0 || s[n - 1].ts <= score then n else CutBelow(s, score, n - 1)
  }

  /** `ZADD`: after every entry with a score not above the new one's. */
  function Add(entries: seq<Sample>, x: Sample): seq<Sample> {
    if entries == [] || entries[|entries| - 1].ts <= x.ts then entries + [x]
    else Add(entries[..|entries| - 1], x) + [entries[|entries| - 1]]
  }

  /** `ZREMRANGEBYSCORE 0 limit` on a set whose scores are Unix times, so never negative. */
  function KeepAbove(entries: seq<Sample>, limit: int): seq<Sample> {
    if entries == [] || entries[0].ts > limit then entries else KeepAbove(entries[1..], limit)
  }

  /** `ZREMRANGEBYRANK 0 -(n + 1)` keeps the last n. */
  function LastN(entries: seq<Sample>, n: nat): seq<Sample> {
    if |entries| <= n then entries else LastN(entries[1..], n)
  }

  function Recorded(z: Zset, x: Sample, retention: int, maxPoints: nat): Zset {
    Zset(LastN(KeepAbove(Add(Visible(z, x.ts), x), x.ts - retention), maxPoints), Some(x.ts + retention))
  }

  /** The key after the first n samples of a history. */
  function Store(history: seq<Sample>, n: nat, retention: int, maxPoints: nat): Zset
    requires n <= |history|
  {
    if n == 0 then EMPTY
    else Recorded(Store(history, n - 1, retention, maxPoints), history[n - 1], retention, maxPoints)
  }

  /** How many of the first n samples are later than a time. */
  function CountNewer(history: seq<Sample>, n: nat, limit: int): (k: nat)
    requires n <= |history|
    ensures k <= n
  {
    if n == 0 then 0 else CountNewer(history, n - 1, limit) + (if history[n - 1].ts > limit then 1 else 0)
  }

  function Min(a: nat, b: nat): nat {
    if a <= b then a else b
  }

  class RedisMetricsStore {
    const retention: int
    const maxPoints: nat
    var zset: Zset

    constructor (retention: int, maxPoints: nat)
      ensures this.retention == retention && this.maxPoints == maxPoints && zset == EMPTY
    {
      this.retention, this.maxPoints, zset := retention, maxPoints, EMPTY;
    }

    method Record(body: string, now: int)
      modifies this
      ensures zset == Recorded(old(zset), Sample(now, body), retention, maxPoints)
    {
      var entries := Add(Visible(zset, now), Sample(now, body));
      entries := KeepAbove(entries, now - retention);
      entries := LastN(entries, maxPoints);
      zset := Zset(entries, Some(now + retention));
    }

    /** `since` of None or zero asks for everything. */
    method Query(since: Option<int>, now: int) returns (samples: seq<Sample>)
      ensures samples == Answer(zset, since, now)
    {
      var entries := Visible(zset, now);
      samples := [];
      for i := 0 to |entries|
        invariant samples == Select(entries[..i], since, now)
      {
        assert entries[..i + 1][..i] == entries[..i];
        var x := entries[i];
        if (since.None? || since.value == 0 || x.ts >= now - since.value) && x.ts <= now {
          samples := samples + [x];
        }
      }
      assert entries[..|entries|] == entries;
    }
  }

  /** `ZRANGEBYSCORE`, both ends included. */
  function Select(entries: seq<Sample>, since: Option<int>, now: int): seq<Sample> {
    if entries == [] then []
    else
      var last := entries[|entries| - 1];
      var wanted := (since.None? || since.value == 0 || last.ts >= now - since.value) && last.ts <= now;
      Select(entries[..|entries| - 1], since, now) + (if wanted then [last] else [])
  }

  /** The window holds exactly the entries from its start to now. */
  lemma {:induction false} SelectExactly(entries: seq<Sample>, since: Option<int>, now: int, x: Sample)
    ensures x in Select(entries, since, now) <==>
      x in entries && x.ts <= now && (since.None? || since.value == 0 || now - since.value <= x.ts)
    decreases |entries|
  {
    if entries != [] {
      var init, last := entries[..|entries| - 1], entries[|entries| - 1];
      SelectExactly(init, since, now, x);
      assert entries == init + [last];
    }
  }

  /** It holds them in their order. */
  lemma {:induction false} SelectRises(entries: seq<Sample>, since: Option<int>, now: int)
    requires Rising(entries)
    ensures Rising(Select(entries, since, now))
    decreases |entries|
  {
    if entries != [] {
      var init, last := entries[..|entries| - 1], entries[|entries| - 1];
      RisingPrefix(entries);
      SelectRises(init, since, now);
      forall x | x in Select(init, since, now) ensures x in init {
        SelectExactly(init, since, now, x);
      }
      RisingSnoc(Select(init, since, now), last);
    }
  }

  lemma {:induction false} RisingPrefix(s: seq<Sample>)
    requires s != [] && Rising(s)
    ensures var init, last := s[..|s| - 1], s[|s| - 1]; Rising(init) && forall x :: x in init ==> x.ts < last.ts
  {
    var init := s[..|s| - 1];
    forall j | 0 <= j < |init| ensures AfterAllBefore(init, j) {
      assert AfterAllBefore(s, j);
      assert forall i :: 0 <= i < j ==> init[i] == s[i];
    }
    assert AfterAllBefore(s, |s| - 1);
  }

  lemma {:induction false} RisingSnoc(s: seq<Sample>, last: Sample)
    requires Rising(s) && forall x :: x in s ==> x.ts < last.ts
    ensures Rising(s + [last]) && Rising(s + [])
  {
    assert s + [] == s;
    forall j | 0 <= j < |s + [last]| ensures AfterAllBefore(s + [last], j) {
      if j < |s| {
        assert AfterAllBefore(s, j);
        assert forall i :: 0 <= i <= j ==> (s + [last])[i] == s[i];
      } else {
        assert forall i :: 0 <= i < j ==> (s + [last])[i] in s;
      }
    }
  }

  function Answer(z: Zset, since: Option<int>, now: int): seq<Sample> {
    Select(Visible(z, now), since, now)
  }

  lemma {:induction false} CountIsBeyondCut(s: seq<Sample>, n: nat, limit: int)
    requires Rising(s) && n <= |s|
    ensures CountNewer(s, n, limit) == n - CutBelow(s, limit, n)
    decreases n
  {
    if n > 0 {
      CountIsBeyondCut(s, n - 1, limit);
      assert AfterAllBefore(s, n - 1);
    }
  }

  lemma {:induction false} CutSplits(s: seq<Sample>, i: nat, n: nat, limit: int)
    requires Rising(s) && i < n <= |s|
    ensures s[i].ts <= limit <==> i < CutBelow(s, limit, n)
  {
    var cut := CutBelow(s, limit, n);
    if i < cut {
      assert AfterAllBefore(s, cut - 1);
    } else {
      assert AfterAllBefore(s, i);
    }
  }

  lemma {:induction false} KeepAboveSlice(s: seq<Sample>, from: nat, n: nat, limit: int)
    requires Rising(s) && from <= n <= |s|
    ensures var cut := CutBelow(s, limit, n);
      KeepAbove(s[from..n], limit) == s[if from <= cut then cut else from..n]
    decreases n - from
  {
    if from < n {
      CutSplits(s, from, n, limit);
    }
    if from < n && s[from].ts <= limit {
      assert s[from..n][1..] == s[from + 1..n];
      KeepAboveSlice(s, from + 1, n, limit);
    }
  }

  lemma {:induction false} LastNSlice(s: seq<Sample>, from: nat, n: nat, count: nat)
    requires from <= n <= |s|
    ensures LastN(s[from..n], count) == s[if n - from <= count then from else n - count..n]
    decreases n - from
  {
    if n - from > count {
      assert s[from..n][1..] == s[from + 1..n];
      LastNSlice(s, from + 1, n, count);
    }
  }

  /** Where the kept samples among the first n start. */
  function KeptFrom(history: seq<Sample>, n: nat, limit: int, maxPoints: nat): nat
    requires n <= |history|
  {
    if n - CutBelow(history, limit, n) <= maxPoints then CutBelow(history, limit, n) else n - maxPoints
  }

  /** One trim of a slice of the history that begins no later than it has to. */
  lemma {:induction false} TrimSlice(history: seq<Sample>, from: nat, n: nat, limit: int, maxPoints: nat)
    requires Rising(history) && from <= n <= |history| && from <= KeptFrom(history, n, limit, maxPoints)
    ensures LastN(KeepAbove(history[from..n], limit), maxPoints) == history[KeptFrom(history, n, limit, maxPoints)..n]
  {
    var cut := CutBelow(history, limit, n);
    KeepAboveSlice(history, from, n, limit);
    LastNSlice(history, if from <= cut then cut else from, n, maxPoints);
  }

  lemma {:induction false} CutAdvances(s: seq<Sample>, n: nat, earlier: int, limit: int)
    requires Rising(s) && 0 < n <= |s| && earlier <= limit
    ensures CutBelow(s, earlier, n - 1) <= CutBelow(s, limit, n)
  {
    var a := CutBelow(s, earlier, n - 1);
    if a > 0 {
      CutSplits(s, a - 1, n, limit);
    }
  }

  lemma {:induction false} AddLatest(history: seq<Sample>, from: nat, n: nat)
    requires Rising(history) && from <= n < |history|
    ensures Add(history[from..n], history[n]) == history[from..n + 1]
  {
    var kept := history[from..n];
    assert kept != [] ==> kept[|kept| - 1] == history[n - 1];
    assert AfterAllBefore(history, n);
  }

  /** The key holds what one trim of the first n samples would leave. */
  ghost predicate Kept(z: Zset, history: seq<Sample>, n: nat, retention: int, maxPoints: nat)
    requires n <= |history|
  {
    && (n == 0 ==> z == EMPTY)
    && (n > 0 ==>
          && z.expiresAt == Some(history[n - 1].ts + retention)
          && z.entries == history[KeptFrom(history, n, history[n - 1].ts - retention, maxPoints)..n])
  }

  lemma {:induction false} KeptAdvances(history: seq<Sample>, n: nat, earlier: int, limit: int, maxPoints: nat)
    requires Rising(history) && 0 < n <= |history| && earlier <= limit
    ensures KeptFrom(history, n - 1, earlier, maxPoints) <= KeptFrom(history, n, limit, maxPoints)
  {
    CutAdvances(history, n, earlier, limit);
  }

  /** What a write still finds is a slice that begins no later than it has to. */
  lemma {:induction false} FoundByWrite(z: Zset, history: seq<Sample>, n: nat, retention: int, maxPoints: nat) returns (from: nat)
    requires n < |history| && Rising(history) && retention > 0 && Kept(z, history, n, retention, maxPoints)
    ensures from <= n && from <= KeptFrom(history, n + 1, history[n].ts - retention, maxPoints)
    ensures Visible(z, history[n].ts) == history[from..n]
  {
    if n == 0 {
      assert history[0..0] == [];
      return 0;
    }
    assert AfterAllBefore(history, n);
    CutSplits(history, n - 1, n + 1, history[n].ts - retention);
    if history[n - 1].ts + retention <= history[n].ts {
      return n;
    }
    KeptAdvances(history, n + 1, history[n - 1].ts - retention, history[n].ts - retention, maxPoints);
    from := KeptFrom(history, n, history[n - 1].ts - retention, maxPoints);
  }

  lemma {:induction false} RecordSlice(z: Zset, history: seq<Sample>, from: nat, n: nat, retention: int, maxPoints: nat)
    requires Rising(history) && from <= n < |history| && Visible(z, history[n].ts) == history[from..n]
    requires from <= KeptFrom(history, n + 1, history[n].ts - retention, maxPoints)
    ensures Recorded(z, history[n], retention, maxPoints).entries
         == history[KeptFrom(history, n + 1, history[n].ts - retention, maxPoints)..n + 1]
  {
    AddLatest(history, from, n);
    TrimSlice(history, from, n + 1, history[n].ts - retention, maxPoints);
  }

  lemma {:induction false} WriteKeeps(z: Zset, history: seq<Sample>, n: nat, retention: int, maxPoints: nat)
    requires n < |history| && Rising(history) && retention > 0 && Kept(z, history, n, retention, maxPoints)
    ensures Kept(Recorded(z, history[n], retention, maxPoints), history, n + 1, retention, maxPoints)
  {
    var from := FoundByWrite(z, history, n, retention, maxPoints);
    RecordSlice(z, history, from, n, retention, maxPoints);
  }

  /** What one trim of the first n samples leaves. */
  ghost function TrimmedOnce(history: seq<Sample>, n: nat, retention: int, maxPoints: nat): (z: Zset)
    requires n <= |history|
    ensures Kept(z, history, n, retention, maxPoints)
  {
    if n == 0 then EMPTY
    else
      var last := history[n - 1].ts;
      Zset(history[KeptFrom(history, n, last - retention, maxPoints)..n], Some(last + retention))
  }

  lemma {:induction false} KeptIsTrimmed(z: Zset, history: seq<Sample>, n: nat, retention: int, maxPoints: nat)
    requires n <= |history| && Kept(z, history, n, retention, maxPoints)
    ensures z == TrimmedOnce(history, n, retention, maxPoints)
  {
  }

  lemma {:induction false} TrimmedNext(history: seq<Sample>, m: nat, n: nat, retention: int, maxPoints: nat)
    requires m + 1 == n <= |history| && Rising(history) && retention > 0
    ensures Recorded(TrimmedOnce(history, m, retention, maxPoints), history[m], retention, maxPoints)
         == TrimmedOnce(history, n, retention, maxPoints)
  {
    var z := TrimmedOnce(history, m, retention, maxPoints);
    WriteKeeps(z, history, m, retention, maxPoints);
    KeptIsTrimmed(Recorded(z, history[m], retention, maxPoints), history, n, retention, maxPoints);
  }

  lemma {:induction false} StoreIsTrimmed(history: seq<Sample>, n: nat, retention: int, maxPoints: nat)
    requires n <= |history| && Rising(history) && retention > 0
    ensures Store(history, n, retention, maxPoints) == TrimmedOnce(history, n, retention, maxPoints)
    decreases n
  {
    if n > 0 {
      StoreIsTrimmed(history, n - 1, retention, maxPoints);
      TrimmedNext(history, n - 1, n, retention, maxPoints);
    }
  }

  lemma {:induction false} StoreKeeps(history: seq<Sample>, n: nat, retention: int, maxPoints: nat)
    requires n <= |history| && Rising(history) && retention > 0
    ensures Kept(Store(history, n, retention, maxPoints), history, n, retention, maxPoints)
  {
    StoreIsTrimmed(history, n, retention, maxPoints);
  }

  /** For every history with rising times, trimming sample by sample, with the key expiring in
      between, leaves exactly the last min(maxPoints, k) samples, k being how many are newer than
      the last time minus the retention. */
  lemma {:induction false} IncrementalEqualsOneShot(history: seq<Sample>, retention: int, maxPoints: nat)
    requires history != [] && Rising(history) && retention > 0
    ensures var n := |history|; var k := CountNewer(history, n, history[n - 1].ts - retention);
      Store(history, n, retention, maxPoints).entries == history[n - Min(maxPoints, k)..]
  {
    var n := |history|;
    var limit := history[n - 1].ts - retention;
    assert n - Min(maxPoints, CountNewer(history, n, limit)) == KeptFrom(history, n, limit, maxPoints) by {
      CountIsBeyondCut(history, n, limit);
    }
    StoreKeeps(history, n, retention, maxPoints);
  }

  /** A query sees its window of the kept samples until the retention time after the last sample
      has passed, and nothing from then on. */
  lemma {:induction false} QuerySeesTheWindow(history: seq<Sample>, retention: int, maxPoints: nat, since: Option<int>, now: int)
    requires history != [] && Rising(history) && retention > 0
    ensures var n := |history|; var last := history[n - 1].ts; var k := CountNewer(history, n, last - retention);
      Answer(Store(history, n, retention, maxPoints), since, now) ==
        if now < last + retention then Select(history[n - Min(maxPoints, k)..], since, now) else []
  {
    StoreKeeps(history, |history|, retention, maxPoints);
    IncrementalEqualsOneShot(history, retention, maxPoints);
  }
}
