/** Heartbeats and the periodic sweep that reports stale nodes. The sweep reads the node rows first
    and decides later, so a heartbeat may fall between the two. Sweeps follow one another. */
module NodeHealth {
  import opened Wrappers
  import opened Nodes

  /** Accepted heartbeats and NODE_OFFLINE events of one node, in order. */
  datatype Entry = Beat(at: int) | OfflineEvent(at: int)

  /** What the sweep remembers of the row it read. */
  datatype RowCopy = RowCopy(admin: AdminState, lastSeen: Option<int>, agentActive: Option<bool>)

  datatype State = State(
    now: int,
    admin: AdminState,
    lastSeen: Option<int>,
    agentActive: Option<bool>,
    history: seq<Entry>,
    onlineEvents: seq<int>,
    sweep: Option<RowCopy>)

  datatype Event =
    | Heartbeat(at: int, versionSupported: bool)
    | SetAdmin(at: int, admin: AdminState)
    | SetAgent(at: int, agentActive: Option<bool>)
    | SweepReads(at: int)
    | SweepDecides(at: int)

  function Since(lastSeen: Option<int>, createdAt: int): int {
    if lastSeen.Some? then lastSeen.value else createdAt
  }

  /** An event not older than the last heartbeat the sweep knows of. */
  predicate AlreadyNotified(history: seq<Entry>, since: int) {
    exists i :: 0 <= i < |history| && history[i].OfflineEvent? && history[i].at >= since
  }

  function Step(createdAt: int, threshold: int, s: State, e: Event): State {
    if e.at <= s.now then s else
    var t := s.(now := e.at);
    match e
    case Heartbeat(at, versionSupported) =>
      if !versionSupported then t else
      t.(lastSeen := Some(at),
         history := s.history + [Beat(at)],
         onlineEvents := if EffectiveStatus(s.admin, s.lastSeen, s.agentActive, threshold, at) == Online
                         then s.onlineEvents else s.onlineEvents + [at])
    case SetAdmin(_, admin) => t.(admin := admin)
    case SetAgent(_, agentActive) => t.(agentActive := agentActive)
    case SweepReads(_) =>
      if s.sweep.Some? || s.admin != Active then t else t.(sweep := Some(RowCopy(s.admin, s.lastSeen, s.agentActive)))
    case SweepDecides(at) =>
      if s.sweep.None? then t else
      var c := s.sweep.value;
      var done := t.(sweep := None);
      if EffectiveStatus(c.admin, c.lastSeen, c.agentActive, threshold, at) != Offline then done
      else if AlreadyNotified(s.history, Since(c.lastSeen, createdAt)) then done
      else done.(history := s.history + [OfflineEvent(at)])
  }

  /** An accepted heartbeat is the last sign of life from then on, and reports the node online exactly
      if it was disabled, in maintenance, unseen, seen too long ago or its agent not active. */
  lemma {:induction false} HeartbeatExactly(createdAt: int, threshold: int, s: State, at: int)
    requires s.now < at
    ensures var next := Step(createdAt, threshold, s, Heartbeat(at, true));
      && next.lastSeen == Some(at) && next.history == s.history + [Beat(at)] && next.admin == s.admin && next.sweep == s.sweep
      && next.onlineEvents ==
           if s.admin == Active && s.lastSeen.Some? && at - s.lastSeen.value <= threshold && 2 * (at - s.lastSeen.value) <= threshold
              && s.agentActive != Some(false)
           then s.onlineEvents else s.onlineEvents + [at]
    ensures Step(createdAt, threshold, s, Heartbeat(at, false)) == s.(now := at)
  {
    StatusExactly(s.admin, s.lastSeen, s.agentActive, threshold, at);
  }

  /** A sweep that read the row reports the node offline exactly if the row was active and not seen
      within the threshold, and no event is as late as what the row says was seen last. */
  lemma {:induction false} SweepExactly(createdAt: int, threshold: int, s: State, at: int)
    requires s.now < at && s.sweep.Some?
    ensures var c := s.sweep.value;
      var since := if c.lastSeen.Some? then c.lastSeen.value else createdAt;
      var stale := c.admin == Active && (c.lastSeen.None? || at - c.lastSeen.value > threshold);
      var told := exists i :: 0 <= i < |s.history| && s.history[i].OfflineEvent? && s.history[i].at >= since;
      Step(createdAt, threshold, s, SweepDecides(at)) ==
        s.(now := at, sweep := None, history := if stale && !told then s.history + [OfflineEvent(at)] else s.history)
  {
    var c := s.sweep.value;
    StatusExactly(c.admin, c.lastSeen, c.agentActive, threshold, at);
  }

  function Start(createdAt: int): State {
    State(createdAt, Active, None, None, [], [], None)
  }

  function Run(createdAt: int, threshold: int, es: seq<Event>): State {
    if es == [] then Start(createdAt)
    else Step(createdAt, threshold, Run(createdAt, threshold, es[..|es| - 1]), es[|es| - 1])
  }

  /** NODE_OFFLINE events since the latest heartbeat. */
  function OfflinesInGap(history: seq<Entry>): nat {
    if history == [] || history[|history| - 1].Beat? then 0 else 1 + OfflinesInGap(history[..|history| - 1])
  }

  function LastBeat(history: seq<Entry>): Option<int> {
    if history == [] then None
    else if history[|history| - 1].Beat? then Some(history[|history| - 1].at)
    else LastBeat(history[..|history| - 1])
  }

  ghost predicate LaterThanBefore(history: seq<Entry>, j: nat)
    requires j < |history|
  {
    forall i :: 0 <= i < j ==> history[i].at < history[j].at
  }

  ghost predicate InOrder(createdAt: int, history: seq<Entry>, now: int) {
    && (forall i :: 0 <= i < |history| ==> createdAt < history[i].at <= now)
    && (forall j :: 0 <= j < |history| ==> LaterThanBefore(history, j))
  }

  ghost predicate SpacedAt(history: seq<Entry>, j: nat)
    requires j < |history|
  {
    forall i :: 0 <= i < j && history[i].OfflineEvent? && history[j].OfflineEvent? ==>
      exists k :: i < k < j && history[k].Beat?
  }

  /** Between any two NODE_OFFLINE events there is a heartbeat. */
  ghost predicate Spaced(history: seq<Entry>) {
    forall j :: 0 <= j < |history| ==> SpacedAt(history, j)
  }

  ghost predicate HistoryInv(createdAt: int, history: seq<Entry>, now: int) {
    InOrder(createdAt, history, now) && Spaced(history) && OfflinesInGap(history) <= 1
  }

  ghost predicate Inv(createdAt: int, s: State) {
    && createdAt <= s.now
    && HistoryInv(createdAt, s.history, s.now)
    && s.lastSeen == LastBeat(s.history)
    && (s.sweep.Some? ==> Since(s.sweep.value.lastSeen, createdAt) <= Since(s.lastSeen, createdAt))
  }

  lemma {:induction false} OrderOfPrefix(createdAt: int, history: seq<Entry>, now: int)
    requires history != [] && InOrder(createdAt, history, now)
    ensures InOrder(createdAt, history[..|history| - 1], now)
  {
    var init := history[..|history| - 1];
    forall j | 0 <= j < |init| ensures LaterThanBefore(init, j) {
      assert LaterThanBefore(history, j);
    }
  }

  /** In an ordered history the gap holds an event exactly if one is as late as its start. */
  lemma {:induction false} GapIsFromLastBeat(createdAt: int, history: seq<Entry>, now: int)
    requires InOrder(createdAt, history, now)
    ensures OfflinesInGap(history) > 0 <==> AlreadyNotified(history, Since(LastBeat(history), createdAt))
    ensures history != [] ==> Since(LastBeat(history), createdAt) <= history[|history| - 1].at
    decreases |history|
  {
    if history != [] {
      var n := |history| - 1;
      OrderOfPrefix(createdAt, history, now);
      GapIsFromLastBeat(createdAt, history[..n], now);
      assert LaterThanBefore(history, n);
      if history[n].OfflineEvent? {
        var since := Since(LastBeat(history), createdAt);
        assert n > 0 ==> history[..n][n - 1].at < history[n].at;
        assert history[n].at >= since;
        assert AlreadyNotified(history, since);
      }
    }
  }

  lemma {:induction false} NotifiedSinceEarlier(history: seq<Entry>, earlier: int, later: int)
    requires earlier <= later && AlreadyNotified(history, later)
    ensures AlreadyNotified(history, earlier)
  {
  }

  lemma {:induction false} AppendSpaced(history: seq<Entry>, x: Entry)
    requires Spaced(history) && (x.OfflineEvent? ==> OfflinesInGap(history) == 0)
    ensures Spaced(history + [x])
  {
    var n := |history|;
    var all := history + [x];
    forall j | 0 <= j < |all|
      ensures SpacedAt(all, j)
    {
      if j < n {
        assert SpacedAt(history, j);
        forall i | 0 <= i < j && all[i].OfflineEvent? && all[j].OfflineEvent?
          ensures exists k :: i < k < j && all[k].Beat?
        {
          assert history[i] == all[i] && history[j] == all[j];
          var k :| i < k < j && history[k].Beat?;
          assert all[k].Beat?;
        }
      } else if n > 0 {
        assert all[n - 1] == history[n - 1];
      }
    }
  }

  lemma {:induction false} AppendInOrder(createdAt: int, history: seq<Entry>, now: int, x: Entry)
    requires InOrder(createdAt, history, now) && createdAt <= now < x.at
    ensures InOrder(createdAt, history + [x], x.at)
  {
    var all := history + [x];
    forall j | 0 <= j < |all| ensures LaterThanBefore(all, j) {
      if j < |history| {
        assert LaterThanBefore(history, j);
      }
    }
  }

  lemma {:induction false} AppendEntry(createdAt: int, history: seq<Entry>, now: int, x: Entry)
    requires HistoryInv(createdAt, history, now) && createdAt <= now < x.at
    requires x.OfflineEvent? ==> OfflinesInGap(history) == 0
    ensures HistoryInv(createdAt, history + [x], x.at)
    ensures LastBeat(history + [x]) == if x.Beat? then Some(x.at) else LastBeat(history)
  {
    var all := history + [x];
    assert all[..|all| - 1] == history;
    AppendSpaced(history, x);
    AppendInOrder(createdAt, history, now, x);
  }

  lemma {:induction false} StepKeepsInv(createdAt: int, threshold: int, s: State, e: Event)
    requires Inv(createdAt, s)
    ensures Inv(createdAt, Step(createdAt, threshold, s, e))
  {
    var s' := Step(createdAt, threshold, s, e);
    if s'.history == s.history {
      assert InOrder(createdAt, s.history, s'.now);
    } else if e.Heartbeat? {
      GapIsFromLastBeat(createdAt, s.history, s.now);
      AppendEntry(createdAt, s.history, s.now, Beat(e.at));
    } else {
      GapIsFromLastBeat(createdAt, s.history, s.now);
      var since := Since(s.sweep.value.lastSeen, createdAt);
      if OfflinesInGap(s.history) > 0 {
        NotifiedSinceEarlier(s.history, since, Since(s.lastSeen, createdAt));
      }
      AppendEntry(createdAt, s.history, s.now, OfflineEvent(e.at));
    }
  }

  lemma {:induction false} RunKeepsInv(createdAt: int, threshold: int, es: seq<Event>)
    ensures Inv(createdAt, Run(createdAt, threshold, es))
    decreases |es|
  {
    if es != [] {
      RunKeepsInv(createdAt, threshold, es[..|es| - 1]);
      StepKeepsInv(createdAt, threshold, Run(createdAt, threshold, es[..|es| - 1]), es[|es| - 1]);
    }
  }

  /** Over every schedule, no gap between heartbeats ever holds two NODE_OFFLINE events. */
  lemma {:induction false} AtMostOneOfflinePerGap(createdAt: int, threshold: int, es: seq<Event>, i: nat, j: nat)
    requires var h := Run(createdAt, threshold, es).history;
      i < j < |h| && h[i].OfflineEvent? && h[j].OfflineEvent?
    ensures var h := Run(createdAt, threshold, es).history; exists k :: i < k < j && h[k].Beat?
  {
    RunKeepsInv(createdAt, threshold, es);
    assert SpacedAt(Run(createdAt, threshold, es).history, j);
  }

  /** A sweep that decides on an up-to-date copy of a node past the threshold leaves exactly one
      event in the gap, whether it emitted it or found it. */
  lemma {:induction false} ExactlyOneOfflineOnceSeen(createdAt: int, threshold: int, es: seq<Event>, at: int)
    requires var s := Run(createdAt, threshold, es);
      && s.now < at && s.sweep.Some? && s.sweep.value.lastSeen == s.lastSeen
      && EffectiveStatus(s.sweep.value.admin, s.lastSeen, s.sweep.value.agentActive, threshold, at) == Offline
    ensures var h := Run(createdAt, threshold, es + [SweepDecides(at)]).history;
      OfflinesInGap(h) == 1 && LastBeat(h) == Run(createdAt, threshold, es).lastSeen
  {
    var s := Run(createdAt, threshold, es);
    var all := es + [SweepDecides(at)];
    assert all[..|all| - 1] == es;
    RunKeepsInv(createdAt, threshold, es);
    RunKeepsInv(createdAt, threshold, all);
    GapIsFromLastBeat(createdAt, s.history, s.now);
    var s' := Run(createdAt, threshold, all);
    if s'.history != s.history {
      assert s'.history[..|s'.history| - 1] == s.history;
    }
  }

  /** It stays exactly one until the next heartbeat that is accepted, whatever else happens. */
  lemma {:induction false} OneOfflineUntilTheNextBeat(createdAt: int, threshold: int, es: seq<Event>, at: int, later: seq<Event>)
    requires var s := Run(createdAt, threshold, es);
      && s.now < at && s.sweep.Some? && s.sweep.value.lastSeen == s.lastSeen
      && EffectiveStatus(s.sweep.value.admin, s.lastSeen, s.sweep.value.agentActive, threshold, at) == Offline
    requires forall i :: 0 <= i < |later| ==> !(later[i].Heartbeat? && later[i].versionSupported)
    ensures var h := Run(createdAt, threshold, es + [SweepDecides(at)] + later).history;
      OfflinesInGap(h) == 1 && LastBeat(h) == Run(createdAt, threshold, es).lastSeen
    decreases |later|
  {
    var all := es + [SweepDecides(at)] + later;
    if later == [] {
      assert all == es + [SweepDecides(at)];
      ExactlyOneOfflineOnceSeen(createdAt, threshold, es, at);
    } else {
      var n := |later| - 1;
      assert all[..|all| - 1] == es + [SweepDecides(at)] + later[..n];
      OneOfflineUntilTheNextBeat(createdAt, threshold, es, at, later[..n]);
      RunKeepsInv(createdAt, threshold, all[..|all| - 1]);
      RunKeepsInv(createdAt, threshold, all);
      NoBeatKeepsGap(createdAt, threshold, Run(createdAt, threshold, all[..|all| - 1]), later[n]);
    }
  }

  lemma {:induction false} NoBeatKeepsGap(createdAt: int, threshold: int, s: State, e: Event)
    requires !(e.Heartbeat? && e.versionSupported)
    ensures var h := Step(createdAt, threshold, s, e).history;
      OfflinesInGap(h) >= OfflinesInGap(s.history) && LastBeat(h) == LastBeat(s.history)
  {
    var h := Step(createdAt, threshold, s, e).history;
    if h != s.history {
      assert h[..|h| - 1] == s.history;
    }
  }

  /** The node row and its events in the database. */
  class Registry {
    const createdAt: int
    const threshold: int
    var admin: AdminState
    var lastSeen: Option<int>
    var agentActive: Option<bool>
    var history: seq<Entry>
    var onlineEvents: seq<int>

    ghost function Value(now: int, sweep: Option<RowCopy>): State
      reads this
    {
      State(now, admin, lastSeen, agentActive, history, onlineEvents, sweep)
    }

    constructor (createdAt: int, threshold: int)
      ensures this.createdAt == createdAt && this.threshold == threshold
      ensures Value(createdAt, None) == Start(createdAt)
    {
      this.createdAt, this.threshold := createdAt, threshold;
      admin, lastSeen, agentActive, history, onlineEvents := Active, None, None, [], [];
    }

    method RecordHeartbeat(versionSupported: bool, at: int, ghost now: int, ghost sweep: Option<RowCopy>)
      requires now < at
      modifies this
      ensures Value(at, sweep) == Step(createdAt, threshold, old(Value(now, sweep)), Heartbeat(at, versionSupported))
    {
      if !versionSupported {
        return;
      }
      var wasOnline := EffectiveStatus(admin, lastSeen, agentActive, threshold, at) == Online;
      lastSeen := Some(at);
      history := history + [Beat(at)];
      if !wasOnline {
        onlineEvents := onlineEvents + [at];
      }
    }

    method MarkOfflineIfStale(node: RowCopy, at: int, ghost now: int) returns (emitted: bool)
      requires now < at
      modifies this
      ensures Value(at, None) == Step(createdAt, threshold, old(Value(now, Some(node))), SweepDecides(at))
      ensures emitted <==> history == old(history) + [OfflineEvent(at)]
    {
      if EffectiveStatus(node.admin, node.lastSeen, node.agentActive, threshold, at) != Offline {
        return false;
      }
      if AlreadyNotified(history, Since(node.lastSeen, createdAt)) {
        return false;
      }
      history := history + [OfflineEvent(at)];
      return true;
    }
  }
}
