/** Snapshot status: the request guards and the create, delete and rollback tasks, with failures at
    any point. Requests may arrive while a task runs; tasks on one snapshot run one at a time, in any
    order once queued. */
module Snapshots {
  import opened Wrappers

  datatype Status = CREATING | READY | DELETING | ROLLING_BACK | ERROR
  datatype Kind = Create | Delete | Rollback

  // ---- The tasks ----

  /** Where an attempt ends: before it gets the lock and the go-ahead of its job, on the agent's
      answer, after that, or not at all early. */
  datatype Outcome = NotEntered | AgentFailed | FailedAfter | Done

  /** The row after an attempt. */
  function After(kind: Kind, status: Status, outcome: Outcome): Option<Status> {
    match kind
    case Create => Some(if outcome == Done then READY else ERROR)
    case Delete => if outcome == Done || outcome == FailedAfter then None else Some(status)
    case Rollback => Some(READY)
  }

  class Table {
    var row: Option<Status>

    constructor ()
      ensures row == Some(CREATING)
    {
      row := Some(CREATING);
    }

    /** Saving a deleted row fails and leaves it deleted. */
    method Save(status: Status)
      modifies this
      ensures row == if old(row).Some? then Some(status) else None
    {
      if row.Some? {
        row := Some(status);
      }
    }

    method CreateTask(outcome: Outcome)
      modifies this
      ensures row == if old(row).Some? then After(Create, old(row).value, outcome) else None
    {
      if row.None? {
        return;
      }
      if outcome == FailedAfter || outcome == Done {
        Save(READY);
      }
      if outcome != Done {
        Save(ERROR);
      }
    }

    method DeleteTask(outcome: Outcome)
      modifies this
      ensures row == if old(row).Some? then After(Delete, old(row).value, outcome) else None
    {
      if row.None? {
        return;
      }
      var before := row.value;
      if outcome != NotEntered {
        Save(DELETING);
      }
      if outcome == FailedAfter || outcome == Done {
        row := None;
      }
      if outcome != Done {
        Save(before);
      }
    }

    method RollbackTask(outcome: Outcome)
      modifies this
      ensures row == if old(row).Some? then After(Rollback, old(row).value, outcome) else None
    {
      if row.None? {
        return;
      }
      if outcome != NotEntered {
        Save(ROLLING_BACK);
      }
      if outcome == FailedAfter || outcome == Done {
        Save(READY);
      }
      if outcome != Done {
        Save(READY);
      }
    }
  }

  // ---- Requests and tasks interleaved ----

  datatype Phase = Loaded | Working | Answered
  datatype Attempt = Attempt(kind: Kind, before: Status, phase: Phase)

  datatype State = State(row: Option<Status>, queued: seq<Kind>, running: Option<Attempt>)

  datatype Event =
    | Request(kind: Kind)   // a user asks for a delete or a rollback
    | Start(i: nat)         // a worker picks a queued task and reads the row
    | Enter                 // lock taken, job running: the working status is saved
    | Answer                // the agent has done its part
    | Finish
    | Fail                  // an exception, wherever the attempt is

  const BEGUN := State(Some(CREATING), [Create], None)

  predicate Permits(kind: Kind, status: Status) {
    match kind
    case Create => false
    case Delete => status == READY || status == ERROR
    case Rollback => status == READY
  }

  function Busy(kind: Kind, status: Status): Status {
    match kind
    case Create => status
    case Delete => DELETING
    case Rollback => ROLLING_BACK
  }

  function Handled(a: Attempt, row: Option<Status>): Option<Status> {
    if row.None? then None
    else
      match a.kind
      case Create => Some(ERROR)
      case Delete => Some(a.before)
      case Rollback => Some(READY)
  }

  /** Events that cannot happen in a state leave it as it is. */
  function Step(s: State, e: Event): State {
    match e
    case Request(kind) =>
      if s.row.Some? && Permits(kind, s.row.value) then s.(queued := s.queued + [kind]) else s
    case Start(i) =>
      if s.running.Some? || i >= |s.queued| then s
      else
        var rest := s.queued[..i] + s.queued[i + 1..];
        if s.row.None? then s.(queued := rest)
        else s.(queued := rest, running := Some(Attempt(s.queued[i], s.row.value, Loaded)))
    case Enter =>
      if s.running.Some? && s.running.value.phase == Loaded && s.row.Some?
      then s.(row := Some(Busy(s.running.value.kind, s.row.value)), running := Some(s.running.value.(phase := Working)))
      else s
    case Answer =>
      if s.running.Some? && s.running.value.phase == Working
      then s.(row := if s.running.value.kind == Delete then None else Some(READY), running := Some(s.running.value.(phase := Answered)))
      else s
    case Finish =>
      if s.running.Some? && s.running.value.phase == Answered then s.(running := None) else s
    case Fail =>
      if s.running.Some? then s.(row := Handled(s.running.value, s.row), running := None) else s
  }

  function RunFrom(s: State, events: seq<Event>): State {
    if events == [] then s else Step(RunFrom(s, events[..|events| - 1]), events[|events| - 1])
  }

  function Run(events: seq<Event>): State {
    RunFrom(BEGUN, events)
  }

  ghost predicate Settled(row: Option<Status>) {
    row.None? || row.value == READY || row.value == ERROR
  }

  ghost predicate AttemptFits(a: Attempt, row: Option<Status>) {
    match a.phase
    case Loaded => row == Some(a.before)
    case Working => row == Some(Busy(a.kind, a.before))
    case Answered => row == if a.kind == Delete then None else Some(READY)
  }

  ghost predicate Inv(s: State) {
    && (s.row == Some(CREATING) ==> s.queued == [] || s.queued == [Create])
    && (match s.running
        case None => if Create in s.queued then s.row == Some(CREATING) else Settled(s.row)
        case Some(a) =>
          && Create !in s.queued && AttemptFits(a, s.row)
          && (if a.kind == Create then a.before == CREATING else a.before == READY || a.before == ERROR))
  }

  lemma {:induction false} WithoutIth(queued: seq<Kind>, i: nat)
    requires i < |queued| && (Create in queued ==> queued == [Create])
    ensures Create !in queued[..i] + queued[i + 1..]
  {
  }

  lemma {:induction false} StepKeepsInv(s: State, e: Event)
    requires Inv(s)
    ensures Inv(Step(s, e))
  {
    if e.Start? && e.i < |s.queued| {
      WithoutIth(s.queued, e.i);
    }
  }

  lemma {:induction false} RunKeepsInv(events: seq<Event>)
    ensures Inv(Run(events))
    decreases |events|
  {
    if events != [] {
      RunKeepsInv(events[..|events| - 1]);
      StepKeepsInv(Run(events[..|events| - 1]), events[|events| - 1]);
    }
  }

  /** Whenever no task runs and the create attempt has ended, the snapshot is READY, in ERROR or
      gone; so a delete is permitted whenever there is something to delete. */
  lemma {:induction false} SnapshotsNeverGetStuck(events: seq<Event>)
    requires var s := Run(events); s.running.None? && Create !in s.queued
    ensures var s := Run(events);
      && (s.row.None? || s.row.value == READY || s.row.value == ERROR)
      && (s.row.Some? ==> Permits(Delete, s.row.value) && Step(s, Request(Delete)).queued == s.queued + [Delete])
  {
    RunKeepsInv(events);
  }

  /** The run up to an attempt's start, and the attempt with requests in between. */
  lemma {:induction false} BeforeIsTheStartingStatus(events: seq<Event>, during: seq<Event>, i: nat)
    requires Run(events).running.None? && i < |Run(events).queued| && Run(events).row.Some?
    requires forall j :: 0 <= j < |during| ==> during[j] != Finish && during[j] != Fail
    ensures var s := Run(events + [Start(i)] + during);
      && s.running.Some? && s.running.value.kind == Run(events).queued[i]
      && Some(s.running.value.before) == Run(events).row
    decreases |during|
  {
    var all := events + [Start(i)] + during;
    if during == [] {
      assert all[..|all| - 1] == events;
    } else {
      assert all[..|all| - 1] == events + [Start(i)] + during[..|during| - 1];
      assert all[|all| - 1] == during[|during| - 1];
      BeforeIsTheStartingStatus(events, during[..|during| - 1], i);
    }
  }

  /** A failed attempt, wherever it fails and whatever is requested meanwhile: a delete restores the
      status it started from or finds the row already gone; a rollback leaves READY, which is the
      status it started from exactly when that was READY. */
  lemma {:induction false} FailedAttemptRestores(events: seq<Event>, during: seq<Event>, i: nat)
    requires Run(events).running.None? && i < |Run(events).queued| && Run(events).row.Some?
    requires forall j :: 0 <= j < |during| ==> during[j] != Finish && during[j] != Fail
    ensures Run(events + [Start(i)] + during).running.Some?
    ensures var start, failing := Run(events), Run(events + [Start(i)] + during);
      var end := Step(failing, Fail);
      && end.running.None?
      && (start.queued[i] == Delete ==> end.row == if failing.row.None? then None else start.row)
      && (start.queued[i] == Rollback ==> end.row == Some(READY) && (end.row == start.row <==> start.row != Some(ERROR)))
      && (start.queued[i] == Create ==> end.row == Some(ERROR))
  {
    BeforeIsTheStartingStatus(events, during, i);
    RunKeepsInv(events);
    RunKeepsInv(events + [Start(i)] + during);
  }

  /** A request is queued exactly for a delete of a READY or failed snapshot, or a rollback to a READY one. */
  lemma {:induction false} RequestsExactly(s: State, kind: Kind)
    ensures var next := Step(s, Request(kind));
      if (kind == Delete && (s.row == Some(READY) || s.row == Some(ERROR))) || (kind == Rollback && s.row == Some(READY))
      then next == s.(queued := s.queued + [kind]) else next == s
  {
  }

  /** What users see of an attempt while the agent works, and what it leaves when nothing fails. */
  lemma {:induction false} SuccessfulAttempt(events: seq<Event>, during: seq<Event>, i: nat)
    requires Run(events).running.None? && i < |Run(events).queued| && Run(events).row.Some?
    requires forall j :: 0 <= j < |during| ==> during[j] != Finish && during[j] != Fail
    ensures Run(events + [Start(i)] + during).running.Some?
    ensures var kind, s := Run(events).queued[i], Run(events + [Start(i)] + during);
      && (s.running.value.phase == Working ==>
            s.row == match kind case Create => Some(CREATING) case Delete => Some(DELETING) case Rollback => Some(ROLLING_BACK))
      && (s.running.value.phase == Answered ==>
            Step(s, Finish).running.None? && Step(s, Finish).row == if kind == Delete then None else Some(READY))
  {
    BeforeIsTheStartingStatus(events, during, i);
    RunKeepsInv(events);
    RunKeepsInv(events + [Start(i)] + during);
  }

  lemma {:induction false} OneMore(s: State, events: seq<Event>, e: Event)
    ensures RunFrom(s, events + [e]) == Step(RunFrom(s, events), e)
  {
    assert (events + [e])[..|events|] == events;
  }

  lemma {:induction false} FirstSteps(s: State, a: Event, b: Event, c: Event)
    ensures RunFrom(s, [a, b]) == Step(Step(s, a), b)
    ensures RunFrom(s, [a, b, c]) == Step(Step(Step(s, a), b), c)
  {
    OneMore(s, [], a);
    OneMore(s, [a], b);
    OneMore(s, [a, b], c);
    assert [] + [a] == [a] && [a] + [b] == [a, b] && [a, b] + [c] == [a, b, c];
  }

  lemma {:induction false} Steps(s: State, a: Event, b: Event, c: Event, d: Event, e: Event)
    ensures RunFrom(s, [a, b]) == Step(Step(s, a), b)
    ensures RunFrom(s, [a, b, c]) == Step(Step(Step(s, a), b), c)
    ensures RunFrom(s, [a, b, c, d]) == Step(Step(Step(Step(s, a), b), c), d)
    ensures RunFrom(s, [a, b, c, d, e]) == Step(Step(Step(Step(Step(s, a), b), c), d), e)
  {
    FirstSteps(s, a, b, c);
    OneMore(s, [a, b, c], d);
    assert [a, b, c] + [d] == [a, b, c, d];
    OneMore(s, [a, b, c, d], e);
    assert [a, b, c, d] + [e] == [a, b, c, d, e];
  }

  lemma {:induction false} CreateFailsLate()
    ensures var s := Step(Step(Step(BEGUN, Start(0)), Enter), Answer);
      Step(Step(s, Request(Rollback)), Fail) == State(Some(ERROR), [Rollback], None)
  {
    assert Step(BEGUN, Start(0)) == State(Some(CREATING), [], Some(Attempt(Create, CREATING, Loaded)));
  }

  /** A rollback queued while the snapshot was READY can start from ERROR, because the create task
      still fails after saving READY when it cannot record its event; it then fails into READY. */
  lemma {:induction false} RollbackCanStartFromError(events: seq<Event>, attempt: seq<Event>)
    requires events == [Start(0), Enter, Answer, Request(Rollback), Fail] && attempt == [Start(0), Fail]
    ensures Run(events) == State(Some(ERROR), [Rollback], None)
    ensures RunFrom(Run(events), attempt) == State(Some(READY), [], None)
  {
    Steps(BEGUN, Start(0), Enter, Answer, Request(Rollback), Fail);
    CreateFailsLate();
    Steps(State(Some(ERROR), [Rollback], None), Start(0), Fail, Fail, Fail, Fail);
  }

  /** How an attempt with a given outcome shows up as steps. */
  function StepsOf(outcome: Outcome): seq<Event> {
    match outcome
    case NotEntered => [Start(0), Fail]
    case AgentFailed => [Start(0), Enter, Fail]
    case FailedAfter => [Start(0), Enter, Answer, Fail]
    case Done => [Start(0), Enter, Answer, Finish]
  }

  lemma {:induction false} StartFirst(s: State)
    requires s.running.None? && s.queued != [] && s.row.Some?
    ensures Step(s, Start(0)) == State(s.row, s.queued[1..], Some(Attempt(s.queued[0], s.row.value, Loaded)))
  {
  }

  lemma {:induction false} EndsAs(s: State, kind: Kind, status: Status)
    requires s.row == Some(status) && s.running == Some(Attempt(kind, status, Loaded))
    ensures var working := Step(s, Enter);
      var answered := Step(working, Answer);
      && Step(s, Fail) == State(After(kind, status, NotEntered), s.queued, None)
      && Step(working, Fail) == State(After(kind, status, AgentFailed), s.queued, None)
      && Step(answered, Fail) == State(After(kind, status, FailedAfter), s.queued, None)
      && Step(answered, Finish) == State(After(kind, status, Done), s.queued, None)
  {
  }

  /** The tasks as methods and the tasks as steps leave the same row. */
  lemma {:induction false} StepsMakeTheAttempt(s: State, outcome: Outcome)
    requires s.running.None? && s.queued != [] && s.row.Some?
    ensures RunFrom(s, StepsOf(outcome)) == State(After(s.queued[0], s.row.value, outcome), s.queued[1..], None)
  {
    StartFirst(s);
    EndsAs(Step(s, Start(0)), s.queued[0], s.row.value);
    match outcome {
      case NotEntered => Steps(s, Start(0), Fail, Fail, Fail, Fail);
      case AgentFailed => Steps(s, Start(0), Enter, Fail, Fail, Fail);
      case FailedAfter => Steps(s, Start(0), Enter, Answer, Fail, Fail);
      case Done => Steps(s, Start(0), Enter, Answer, Finish, Fail);
    }
  }
}
