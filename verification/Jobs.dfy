/** The job row, its status table and the services that write to it.
    Tasks and API handlers hold copies of a row that are never refreshed, so every
    service is stated as a write against the row as it is in the database. */
module Jobs {
  import opened Wrappers

  datatype Status = Queued | Running | Success | Failed | Canceling | Canceled

  const TERMINAL_STATUSES: set<Status> := {Success, Failed, Canceled}

  predicate IsTerminal(s: Status) {
    s in TERMINAL_STATUSES
  }

  function ValidTransitions(s: Status): set<Status> {
    match s
    case Queued => {Running, Canceling, Canceled, Failed}
    case Running => {Success, Failed, Canceling}
    case Canceling => {Canceled, Failed, Success}
    case Success | Failed | Canceled => {}
  }

  /** `transition` also lets a status through to itself. */
  predicate Permits(from: Status, to: Status) {
    to in ValidTransitions(from) || to == from
  }

  datatype Row = Row(
    status: Status,
    progress: int,
    message: string,
    error: string,
    logs: seq<string>,
    startedAt: Option<int>,
    finishedAt: Option<int>)

  const NEW_ROW: Row := Row(Queued, 0, "", "", [], None, None)

  function Or<T>(update: Option<T>, current: T): T {
    if update.Some? then update.value else current
  }

  /** The row an accepted transition leaves behind. */
  function Moved(row: Row, to: Status, message: Option<string>, error: Option<string>, now: int): Row {
    row.(
      status := to,
      message := Or(message, row.message),
      error := Or(error, row.error),
      startedAt := if to == Running && row.startedAt.None? then Some(now) else row.startedAt,
      finishedAt := if IsTerminal(to) then Some(now) else row.finishedAt,
      progress := if to == Success then 100 else row.progress
    )
  }

  function Clamp(progress: int): (r: int)
    ensures 0 <= r <= 100 && (0 <= progress <= 100 ==> r == progress)
    ensures (progress < 0 ==> r == 0) && (progress > 100 ==> r == 100)
  {
    if progress < 0 then 0 else if progress > 100 then 100 else progress
  }

  const CANCEL_MESSAGE := "Cancellation requested"

  /** The row in the database. `seen` parameters are fields of a caller's copy. */
  class Job {
    var status: Status
    var progress: int
    var message: string
    var error: string
    var logs: seq<string>
    var startedAt: Option<int>
    var finishedAt: Option<int>

    ghost function Value(): Row
      reads this
    {
      Row(status, progress, message, error, logs, startedAt, finishedAt)
    }

    constructor ()
      ensures Value() == NEW_ROW
    {
      status, progress, message, error := Queued, 0, "", "";
      logs, startedAt, finishedAt := [], None, None;
    }

    method Transition(newStatus: Status, newMessage: Option<string>, newError: Option<string>, now: int)
      returns (accepted: bool)
      modifies this
      ensures accepted == Permits(old(status), newStatus)
      ensures Value() == Apply(old(Value()), Write.Transition(newStatus, newMessage, newError, now))
    {
      if newStatus !in ValidTransitions(status) && newStatus != status {
        return false;
      }
      status := newStatus;
      if newMessage.Some? {
        message := newMessage.value;
      }
      if newError.Some? {
        error := newError.value;
      }
      if newStatus == Running && startedAt.None? {
        startedAt := Some(now);
      }
      if newStatus in {Success, Failed, Canceled} {
        finishedAt := Some(now);
        if newStatus == Success {
          progress := 100;
        }
      }
      return true;
    }

    method SetProgress(newProgress: int, seenMessage: string)
      modifies this
      ensures Value() == Apply(old(Value()), Write.SetProgress(newProgress, seenMessage))
    {
      progress := Clamp(newProgress);
      message := seenMessage;
    }

    /** The list is read and written by two statements, so the list that is extended
        may be older than the row. */
    method AppendLog(seenLogs: seq<string>, line: string)
      modifies this
      ensures Value() == Apply(old(Value()), Write.AppendLog(seenLogs, line))
    {
      logs := seenLogs + [line];
    }

    method RequestCancel(seenStatus: Status, now: int) returns (accepted: bool)
      modifies this
      ensures Value() == Apply(old(Value()), Write.RequestCancel(seenStatus, now))
      ensures accepted == (seenStatus in {Queued, Running} && Permits(old(status), Canceling))
    {
      if seenStatus !in {Queued, Running} {
        return false;
      }
      accepted := Transition(Canceling, Some(CANCEL_MESSAGE), None, now);
    }
  }

  /** Everything that can happen to a row, by whoever holds whatever copy of it. */
  datatype Write =
    | Transition(to: Status, message: Option<string>, error: Option<string>, now: int)
    | SetProgress(progress: int, seenMessage: string)
    | AppendLog(seenLogs: seq<string>, line: string)
    | RequestCancel(seenStatus: Status, now: int)
    | FailUnlessTerminal(seenStatus: Status, reason: string, now: int)

  function Apply(row: Row, w: Write): Row {
    match w
    case Transition(to, message, error, now) =>
      if Permits(row.status, to) then Moved(row, to, message, error, now) else row
    case SetProgress(progress, message) =>
      row.(progress := Clamp(progress), message := message)
    case AppendLog(seenLogs, line) =>
      row.(logs := seenLogs + [line])
    case RequestCancel(seen, now) =>
      if seen in {Queued, Running} && Permits(row.status, Canceling)
      then Moved(row, Canceling, Some(CANCEL_MESSAGE), None, now)
      else row
    case FailUnlessTerminal(seen, reason, now) =>
      if !IsTerminal(seen) && Permits(row.status, Failed)
      then Moved(row, Failed, None, Some(reason), now)
      else row
  }

  /** A transition the table permits writes the status, the texts it was given and the stamps, and
      nothing else; one it does not permit writes nothing. */
  lemma {:induction false} TransitionExactly(row: Row, to: Status, message: Option<string>, error: Option<string>, now: int)
    ensures var next := Apply(row, Write.Transition(to, message, error, now));
      if to == row.status || to in ValidTransitions(row.status) then
        && next.status == to && next.logs == row.logs
        && next.message == (match message case Some(m) => m case None => row.message)
        && next.error == (match error case Some(e) => e case None => row.error)
        && next.progress == (if to == Success then 100 else row.progress)
        && next.startedAt == (if to == Running && row.startedAt == None then Some(now) else row.startedAt)
        && next.finishedAt == (if to == Success || to == Failed || to == Canceled then Some(now) else row.finishedAt)
      else next == row
  {
  }

  /** The other writes, field by field. */
  lemma {:induction false} OtherWritesExactly(row: Row, progress: int, message: string, logs: seq<string>, line: string,
                                              seen: Status, reason: string, now: int)
    ensures Apply(row, Write.SetProgress(progress, message))
         == row.(message := message, progress := if progress < 0 then 0 else if progress > 100 then 100 else progress)
    ensures Apply(row, Write.AppendLog(logs, line)) == row.(logs := logs + [line])
    ensures Apply(row, Write.RequestCancel(seen, now)) ==
      if (seen == Queued || seen == Running) && row.status in {Queued, Running, Canceling}
      then row.(status := Canceling, message := "Cancellation requested") else row
    ensures Apply(row, FailUnlessTerminal(seen, reason, now)) ==
      if seen in {Queued, Running, Canceling} && row.status in {Queued, Running, Canceling, Failed}
      then row.(status := Failed, error := reason, finishedAt := Some(now)) else row
  {
  }

  /** The table, entry by entry. */
  lemma {:induction false} TableExactly(a: Status, b: Status)
    ensures b in ValidTransitions(a) <==>
      || (a == Queued && (b == Running || b == Canceling || b == Canceled || b == Failed))
      || (a == Running && (b == Success || b == Failed || b == Canceling))
      || (a == Canceling && (b == Canceled || b == Failed || b == Success))
  {
  }

  /** In every run progress is a percentage, and a job that is SUCCESS was put at 100 when it became so. */
  lemma {:induction false} ProgressIsAPercentage(writes: seq<Write>, i: nat)
    requires i <= |writes|
    ensures 0 <= Run(NEW_ROW, writes)[i].progress <= 100
    ensures i < |writes| && Run(NEW_ROW, writes)[i].status != Success && Run(NEW_ROW, writes)[i + 1].status == Success ==>
      Run(NEW_ROW, writes)[i + 1].progress == 100
    decreases i
  {
    if i > 0 {
      ProgressIsAPercentage(writes, i - 1);
      NextIsApplied(writes, i - 1);
    }
    if i < |writes| {
      NextIsApplied(writes, i);
    }
  }

  /** Every row value of a run, the starting one first. */
  function Run(row: Row, writes: seq<Write>): (rows: seq<Row>)
    ensures |rows| == |writes| + 1
    ensures rows[0] == row
    decreases |writes|
  {
    if writes == [] then [row] else [row] + Run(Apply(row, writes[0]), writes[1..])
  }

  /** How many times the status really changed along a run. */
  function Changes(rows: seq<Row>): nat {
    if |rows| < 2 then 0
    else (if rows[0].status == rows[1].status then 0 else 1) + Changes(rows[1..])
  }

  /** The longest table path that leaves a status. */
  function Height(s: Status): nat {
    match s
    case Queued => 3
    case Running => 2
    case Canceling => 1
    case Success | Failed | Canceled => 0
  }

  ghost predicate Stamped(row: Row) {
    && (row.finishedAt.Some? <==> IsTerminal(row.status))
    && (row.startedAt.Some? ==> row.status != Queued)
    && (row.status == Running ==> row.startedAt.Some?)
  }

  /** What one row value says about every later one. */
  ghost predicate Precedes(earlier: Row, later: Row) {
    && (IsTerminal(earlier.status) ==> later.status == earlier.status)
    && (earlier.startedAt.Some? ==> later.startedAt == earlier.startedAt)
    && (earlier.status != Queued ==> later.status != Queued)
    && (earlier.status != Queued && earlier.startedAt.None? ==> later.startedAt.None?)
    && Height(later.status) <= Height(earlier.status)
  }

  lemma {:induction false} OneWrite(row: Row, w: Write)
    requires Stamped(row)
    ensures var next := Apply(row, w);
      && Stamped(next) && Precedes(row, next)
      && (next.status != row.status ==> Height(next.status) < Height(row.status))
  {
  }

  lemma {:induction false} PrecedesTransitive(a: Row, b: Row, c: Row)
    requires Precedes(a, b) && Precedes(b, c)
    ensures Precedes(a, c)
  {
  }

  lemma {:induction false} RunStaysAfter(row: Row, writes: seq<Write>)
    requires Stamped(row)
    ensures var rows := Run(row, writes);
      forall j :: 0 <= j < |rows| ==> Stamped(rows[j]) && Precedes(row, rows[j])
    ensures Changes(Run(row, writes)) <= Height(row.status)
    decreases |writes|
  {
    if writes != [] {
      var next := Apply(row, writes[0]);
      OneWrite(row, writes[0]);
      RunStaysAfter(next, writes[1..]);
      var rows := Run(row, writes);
      var tail := Run(next, writes[1..]);
      assert rows == [row] + tail && rows[1..] == tail;
      forall j | 0 <= j < |tail| ensures Precedes(row, tail[j]) {
        PrecedesTransitive(row, next, tail[j]);
      }
    }
  }

  /** A run is cut anywhere into a run up to that point and a run from there on. */
  lemma {:induction false} RunFrom(row: Row, writes: seq<Write>, i: nat)
    requires i <= |writes|
    ensures Run(row, writes)[i..] == Run(Run(row, writes)[i], writes[i..])
    decreases i
  {
    if i == 0 {
      assert writes[0..] == writes;
      assert Run(row, writes)[0..] == Run(row, writes);
    } else {
      var tail := Run(Apply(row, writes[0]), writes[1..]);
      assert Run(row, writes) == [row] + tail;
      RunFrom(Apply(row, writes[0]), writes[1..], i - 1);
      assert writes[1..][i - 1..] == writes[i..];
      assert Run(row, writes)[i..] == tail[i - 1..];
    }
  }

  ghost predicate PathInTable(rows: seq<Row>) {
    forall i :: 0 <= i < |rows| - 1 ==>
      rows[i].status == rows[i + 1].status || rows[i + 1].status in ValidTransitions(rows[i].status)
  }

  ghost predicate TerminalIsFinal(rows: seq<Row>) {
    forall i, j :: 0 <= i <= j < |rows| && IsTerminal(rows[i].status) ==> rows[j].status == rows[i].status
  }

  ghost predicate FinishedIffTerminal(rows: seq<Row>) {
    forall i :: 0 <= i < |rows| ==> (rows[i].finishedAt.Some? <==> IsTerminal(rows[i].status))
  }

  ghost predicate StartedOnce(rows: seq<Row>) {
    forall i, j :: 0 <= i <= j < |rows| && rows[i].startedAt.Some? ==> rows[j].startedAt == rows[i].startedAt
  }

  /** The job invariants, over every interleaving of every service from a new row. */
  lemma {:induction false} JobHistory(writes: seq<Write>)
    ensures var rows := Run(NEW_ROW, writes);
      PathInTable(rows) && TerminalIsFinal(rows) && FinishedIffTerminal(rows) && StartedOnce(rows) && Changes(rows) <= 3
  {
    FollowsTheTable(writes);
    KeepsWhatItHas(writes);
    RunStaysAfter(NEW_ROW, writes);
  }

  lemma {:induction false} FollowsTheTable(writes: seq<Write>)
    ensures PathInTable(Run(NEW_ROW, writes))
  {
    var rows := Run(NEW_ROW, writes);
    forall i | 0 <= i < |rows| - 1
      ensures rows[i].status == rows[i + 1].status || rows[i + 1].status in ValidTransitions(rows[i].status)
    {
      NextIsApplied(writes, i);
    }
  }

  lemma {:induction false} KeepsWhatItHas(writes: seq<Write>)
    ensures TerminalIsFinal(Run(NEW_ROW, writes)) && StartedOnce(Run(NEW_ROW, writes))
  {
    var rows := Run(NEW_ROW, writes);
    forall i, j | 0 <= i <= j < |rows| ensures Precedes(rows[i], rows[j]) {
      LaterIsAfter(writes, i, j);
    }
  }

  lemma {:induction false} LaterIsAfter(writes: seq<Write>, i: nat, j: nat)
    requires i <= j <= |writes|
    ensures Precedes(Run(NEW_ROW, writes)[i], Run(NEW_ROW, writes)[j])
  {
    var rows := Run(NEW_ROW, writes);
    RunStaysAfter(NEW_ROW, writes);
    RunFrom(NEW_ROW, writes, i);
    RunStaysAfter(rows[i], writes[i..]);
    assert rows[j] == rows[i..][j - i];
  }

  lemma {:induction false} NextIsApplied(writes: seq<Write>, i: nat)
    requires i < |writes|
    ensures Run(NEW_ROW, writes)[i + 1] == Apply(Run(NEW_ROW, writes)[i], writes[i])
  {
    var rows := Run(NEW_ROW, writes);
    RunFrom(NEW_ROW, writes, i);
    assert rows[i + 1] == rows[i..][1] == Apply(rows[i], writes[i..][0]);
  }

  lemma {:induction false} RunOne(row: Row, a: Write)
    ensures Run(row, [a]) == [row, Apply(row, a)]
  {
    assert [a][1..] == [];
  }

  lemma {:induction false} RunThree(row: Row, a: Write, b: Write, c: Write)
    ensures var r := Apply(row, a); var s := Apply(r, b); Run(row, [a, b, c]) == [row, r, s, Apply(s, c)]
  {
    var r := Apply(row, a);
    var s := Apply(r, b);
    RunOne(s, c);
    assert [b, c][1..] == [c] && [a, b, c][1..] == [b, c];
    assert Run(r, [b, c]) == [r] + Run(s, [c]);
  }

  lemma {:induction false} ThreeChanges(a: Row, b: Row, c: Row, d: Row)
    requires a.status != b.status && b.status != c.status && c.status != d.status
    ensures Changes([a, b, c, d]) == 3
  {
    assert [a, b, c, d][1..] == [b, c, d] && [b, c, d][1..] == [c, d] && [c, d][1..] == [d];
    assert Changes([c, d]) == 1 && Changes([b, c, d]) == 2;
  }

  /** The bound of three changes is reached, and a job that never ran can still be
      closed as SUCCESS by the table: nothing forces `startedAt` on it. */
  lemma {:induction false} JobHistoryIsTight()
    ensures exists writes :: Changes(Run(NEW_ROW, writes)) == 3
    ensures exists writes :: var rows := Run(NEW_ROW, writes);
      rows[|rows| - 1].status == Success && rows[|rows| - 1].startedAt.None?
  {
    var run, cancel := Transition(Running, None, None, 0), RequestCancel(Running, 1);
    var done := Transition(Success, None, None, 2);
    var writes := [run, cancel, done];
    RunThree(NEW_ROW, run, cancel, done);
    var rows := Run(NEW_ROW, writes);
    ThreeChanges(rows[0], rows[1], rows[2], rows[3]);
    assert Changes(Run(NEW_ROW, writes)) == 3;
    ClosedUnstarted();
  }

  lemma {:induction false} ClosedUnstarted()
    ensures exists writes :: var rows := Run(NEW_ROW, writes);
      rows[|rows| - 1].status == Success && rows[|rows| - 1].startedAt.None?
  {
    var cancel, close := RequestCancel(Queued, 0), Transition(Success, None, None, 1);
    var writes := [cancel, close, close];
    RunThree(NEW_ROW, cancel, close, close);
    var rows := Run(NEW_ROW, writes);
    assert rows[|rows| - 1].status == Success && rows[|rows| - 1].startedAt.None?;
  }
}
