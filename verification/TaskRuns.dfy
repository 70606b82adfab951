/** How a Celery task drives its job: `job_run` blocks, the task's `except` handler and
    `JobBoundTask.on_failure`, with users cancelling between any two database accesses.
    A task reads its job once; the copy it keeps is never refreshed. One delivery per job. */
module TaskRuns {
  import opened Wrappers
  import opened Jobs

  datatype Error = JobCancelled | InvalidTransition | LockBusy | AgentError | MissingRow | DatabaseError

  datatype Exit = Returned | Raised(error: Error)

  /** The task's own copy of the row. Only progress and message ever change in it. */
  class JobCopy {
    const status: Status
    var progress: int
    var message: string

    constructor (job: Job)
      ensures status == job.status && progress == job.progress && message == job.message
    {
      status, progress, message := job.status, job.progress, job.message;
    }
  }

  /** What users who only cancel can have done between two row values. */
  ghost predicate CancelsOnly(before: Row, after: Row) {
    || after == before
    || (!IsTerminal(before.status) && after == before.(status := Canceling, message := CANCEL_MESSAGE))
  }

  /** Whether something outside the task goes wrong at some point; nothing does while all is `calm`. */
  method Trouble(calm: bool) returns (trouble: bool)
    ensures calm ==> !trouble
  {
    trouble := *;
    trouble := trouble && !calm;
  }

  /** Any number of users, each looking at any stale status, ask for cancellation; none while `calm`. */
  method Interfere(job: Job, calm: bool)
    modifies job
    ensures CancelsOnly(old(job.Value()), job.Value())
    ensures calm ==> job.Value() == old(job.Value())
  {
    var requests: int := *;
    while requests > 0 && !calm
      invariant calm ==> job.Value() == old(job.Value())
      invariant CancelsOnly(old(job.Value()), job.Value())
    {
      var seen: Status := *;
      var now: int := *;
      var _ := job.RequestCancel(seen, now);
      requests := requests - 1;
    }
  }

  /** The task is under way: nobody but the task closes the row, and a copy taken after a
      cancellation was requested still finds it requested. */
  ghost predicate Open(job: Job, copy: JobCopy)
    reads job
  {
    && !IsTerminal(job.status)
    && copy.status in {Queued, Canceling}
    && (copy.status == Canceling ==> job.status == Canceling)
  }

  /** `job_run` up to its `yield`; each of its accesses to the database may fail. */
  method EnterJobRun(job: Job, copy: JobCopy, step: string, calm: bool) returns (exit: Exit)
    requires Open(job, copy)
    modifies job, copy
    ensures Open(job, copy)
    ensures exit.Returned? ==> job.status in {Running, Canceling} && job.startedAt.Some?
    ensures old(job.status) == Canceling ==> exit.Raised? && job.status == Canceling
    ensures exit.Raised? ==> exit.error in {JobCancelled, InvalidTransition, DatabaseError}
    ensures exit.Raised? && exit.error != DatabaseError ==> job.status == Canceling
    ensures old(job.startedAt.Some?) ==> job.startedAt == old(job.startedAt)
    ensures calm && old(job.status) != Canceling ==> exit.Returned? && job.status == Running
    ensures calm && exit.Returned? ==> job.message == step && job.logs == old(job.logs) + [step] && copy.message == step
  {
    if copy.status == Queued {
      Interfere(job, calm);
      var databaseDown := Trouble(calm);
      if databaseDown {
        return Raised(DatabaseError);
      }
      var now: int := *;
      var accepted := job.Transition(Running, None, None, now);
      if !accepted {
        return Raised(InvalidTransition);
      }
    }
    Interfere(job, calm);
    if job.status == Canceling {
      return Raised(JobCancelled);
    }
    exit := ReportStep(job, copy, step, calm);
  }

  /** Progress and log line, between which users may cancel. */
  method ReportStep(job: Job, copy: JobCopy, step: string, calm: bool) returns (exit: Exit)
    requires !IsTerminal(job.status)
    modifies job, copy
    ensures exit in {Returned, Raised(DatabaseError)}
    ensures job.status in {old(job.status), Canceling} && job.startedAt == old(job.startedAt)
    ensures calm ==>
      && exit.Returned? && job.status == old(job.status)
      && job.message == step && job.logs == old(job.logs) + [step] && copy.message == step
  {
    Interfere(job, calm);
    copy.progress, copy.message := Clamp(copy.progress), step;
    var progressFails := Trouble(calm);
    if progressFails {
      return Raised(DatabaseError);
    }
    job.SetProgress(copy.progress, copy.message);
    Interfere(job, calm);
    var logFails := Trouble(calm);
    if logFails {
      return Raised(DatabaseError);
    }
    var seenLogs := job.logs;
    Interfere(job, calm);
    job.AppendLog(seenLogs, step);
    Interfere(job, calm);
    return Returned;
  }

  /** `job_run` when the block it wraps raised anything but a cancellation. */
  method LeaveJobRunFailed(job: Job, copy: JobCopy, calm: bool) returns (accepted: bool)
    requires Open(job, copy)
    modifies job
    ensures accepted && job.status == Failed
  {
    Interfere(job, calm);
    var now: int := *;
    accepted := job.Transition(Failed, None, Some("error"), now);
  }

  /** `if not <status>.is_terminal: transition(job, FAILED)`. The guard reads the row, or,
      in the lock handler of `provision_vm`, the task's own copy of it. */
  method FailUnlessTerminal(job: Job, copy: JobCopy, reread: bool, calm: bool) returns (accepted: bool)
    requires Open(job, copy) || (reread && IsTerminal(job.status))
    modifies job
    ensures accepted
    ensures if old(IsTerminal(job.status)) then job.Value() == old(job.Value()) else job.status == Failed
  {
    accepted := true;
    Interfere(job, calm);
    var seen := if reread then job.status else copy.status;
    if !IsTerminal(seen) {
      Interfere(job, calm);
      var now: int := *;
      accepted := job.Transition(Failed, None, Some("error"), now);
    }
  }

  /** The `try` part: the lock, `blocks` sections under `job_run`, the closing SUCCESS, and
      whatever the task still does after it. Every section may raise. */
  method TryBody(job: Job, copy: JobCopy, blocks: nat, calm: bool) returns (exit: Exit, rejected: bool)
    requires Open(job, copy) && blocks > 0
    modifies job, copy
    ensures !rejected
    ensures Open(job, copy) || job.status in {Success, Failed}
    ensures exit.Returned? ==> job.status == Success && job.progress == 100
    ensures job.status == Success ==> job.startedAt.Some?
    ensures old(job.status) == Canceling ==> exit.Raised? && job.status == Canceling
    ensures exit == Raised(LockBusy) || exit == Raised(JobCancelled) ==> Open(job, copy)
    ensures calm && old(job.status) != Canceling ==> exit.Returned?
  {
    rejected := false;
    var lockBusy := Trouble(calm);
    if lockBusy {
      Interfere(job, calm);
      return Raised(LockBusy), false;
    }
    for i := 0 to blocks
      invariant Open(job, copy)
      invariant i > 0 ==> job.status in {Running, Canceling} && job.startedAt.Some?
      invariant old(job.status) == Canceling ==> i == 0 && job.status == Canceling
      invariant calm && old(job.status) != Canceling ==> job.status != Canceling
    {
      exit := EnterJobRun(job, copy, "step", calm);
      if exit.Raised? {
        return;
      }
      var bodyRaises := Trouble(calm);
      if bodyRaises {
        var accepted := LeaveJobRunFailed(job, copy, calm);
        return Raised(AgentError), !accepted;
      }
      Interfere(job, calm);
      var betweenRaises := Trouble(calm);
      if betweenRaises {
        return Raised(MissingRow), false;
      }
    }
    var closingRaises := Trouble(calm);
    if closingRaises {
      return Raised(DatabaseError), false;
    }
    var now: int := *;
    var closed := job.Transition(Success, Some("done"), None, now);
    rejected := !closed;
    var epilogueRaises := Trouble(calm);
    exit := if epilogueRaises then Raised(AgentError) else Returned;
  }

  /** One delivery of a task, from the worker picking it up to `on_failure` having run.
      `settleOnLock` distinguishes `provision_vm`, whose lock handler looks at its copy. */
  method RunTask(job: Job, blocks: nat, settleOnLock: bool, calm: bool) returns (exit: Exit, rejected: bool)
    requires blocks > 0
    requires job.status in {Queued, Canceling} && job.startedAt.None?
    modifies job
    ensures !rejected
    ensures job.status in {Success, Failed}
    ensures exit.Returned? ==> job.status == Success && job.progress == 100
    ensures job.status == Success ==> job.startedAt.Some?
    ensures old(job.status) == Canceling || exit == Raised(JobCancelled) ==> job.status == Failed
    ensures calm && old(job.status) == Queued ==> exit.Returned?
  {
    Interfere(job, calm);
    var copy := new JobCopy(job);
    var rowMissing := Trouble(calm);
    rejected := false;
    if rowMissing {
      exit := Raised(MissingRow);
    } else {
      exit, rejected := TryBody(job, copy, blocks, calm);
      var handlerRaises := Trouble(calm);
      if exit.Raised? && !handlerRaises {
        var accepted := FailUnlessTerminal(job, copy, !(settleOnLock && exit.error == LockBusy), calm);
        rejected := rejected || !accepted;
      }
    }
    if exit.Raised? {
      var accepted := FailUnlessTerminal(job, copy, true, calm);
      rejected := rejected || !accepted;
    }
  }
}
