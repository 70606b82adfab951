/** Remote calls to the agents as a distributed protocol. Any number of tasks call any number of
    nodes. A command reaches only the agent of the node it names; it may be relayed late, several
    times or never, and so may every response. A response lands under a Redis key made of its
    request id, lives there for a minute, and is taken by whoever polls that key. */
module AgentRpc {
  import opened Wrappers
  import Jobs

  type TaskId = nat
  type NodeId = nat
  type RequestId = string

  datatype Command = Command(id: RequestId, node: NodeId, operation: string)

  datatype Message = Message(id: RequestId, success: bool, data: string)

  /** An agent ran a command and produced its response. */
  datatype Execution = Execution(node: NodeId, command: Command, message: Message)

  datatype Stored = Stored(message: Message, expiresAt: int)

  const RESPONSE_TTL := 60000

  /** A task is in its `try` body, in its handler after an exception, or over. */
  datatype Stage = Body | Handler | Ended

  datatype Pending = Pending(id: RequestId, deadline: int)

  /** `answers[k]` is what the k-th call got; None is a timeout. */
  datatype Task = Task(
    stage: Stage,
    job: Jobs.Status,
    issued: seq<Command>,
    answers: seq<Option<Message>>,
    pending: Option<Pending>)

  /** Which call a request id was generated for: ids are drawn fresh. */
  datatype Call = Call(task: TaskId, index: nat)

  datatype World = World(
    now: int,
    used: map<RequestId, Call>,
    sent: set<Command>,
    executions: set<Execution>,
    responses: map<RequestId, Stored>,
    tasks: map<TaskId, Task>)

  const START: World := World(0, map[], {}, {}, map[], map[])

  /** What a task, or a user on its job, does next. */
  datatype Action =
    | Cancel
    | BeginBlock
    | Send(id: RequestId, node: NodeId, operation: string, timeout: int)
    | Poll
    | GiveUp
    | Raise(insideBlock: bool)
    | Finish
    | Settle

  datatype Event =
    | Launch(task: TaskId)
    | Act(task: TaskId, action: Action)
    | Execute(node: NodeId, command: Command, success: bool, data: string)
    | Receive(execution: Execution)
    | Tick(elapsed: nat)

  predicate Available(w: World, id: RequestId) {
    id in w.responses && w.now < w.responses[id].expiresAt
  }

  predicate CanAct(w: World, t: Task, a: Action) {
    match a
    case Cancel => true
    case BeginBlock | Raise(_) | Finish => t.stage == Body && t.pending.None?
    case Send(id, _, _, _) => t.stage != Ended && t.pending.None? && id !in w.used
    case Poll => t.pending.Some? && w.now < t.pending.value.deadline && Available(w, t.pending.value.id)
    case GiveUp => t.pending.Some? && t.pending.value.deadline <= w.now
    case Settle => t.stage == Handler && t.pending.None?
  }

  /** An exception raised outside a `job_run` block: only the handler will touch the job. */
  function Left(t: Task): Task {
    if t.stage == Body then t.(stage := Handler) else t
  }

  /** An exception raised inside one: `job_run` fails the job on the way out if it can. In the
      handler exceptions of calls are swallowed. */
  function Thrown(t: Task): Task {
    if t.stage == Body then
      t.(stage := Handler, job := if Jobs.Permits(t.job, Jobs.Failed) then Jobs.Failed else t.job)
    else t
  }

  /** The caller fails on a response that is not a success. */
  function Answered(t: Task, message: Message): Task {
    var after := t.(pending := None, answers := t.answers + [Some(message)]);
    if message.success then after else Thrown(after)
  }

  function After(w: World, t: Task, a: Action): Task
    requires CanAct(w, t, a)
  {
    match a
    case Cancel => if Jobs.Permits(t.job, Jobs.Canceling) then t.(job := Jobs.Canceling) else t
    case BeginBlock => if Jobs.Permits(t.job, Jobs.Running) then t.(job := Jobs.Running) else Left(t)
    case Send(id, node, operation, timeout) =>
      t.(issued := t.issued + [Command(id, node, operation)], pending := Some(Pending(id, w.now + timeout)))
    case Poll => Answered(t, w.responses[t.pending.value.id].message)
    case GiveUp => Thrown(t.(pending := None, answers := t.answers + [None]))
    case Raise(insideBlock) => if insideBlock then Thrown(t) else Left(t)
    case Finish =>
      if Jobs.Permits(t.job, Jobs.Success) then t.(job := Jobs.Success, stage := Ended) else Left(t)
    case Settle => t.(stage := Ended, job := if Jobs.IsTerminal(t.job) then t.job else Jobs.Failed)
  }

  predicate Enabled(w: World, e: Event) {
    match e
    case Launch(t) => t !in w.tasks
    case Act(t, a) => t in w.tasks && CanAct(w, w.tasks[t], a)
    case Execute(node, command, success, data) => command in w.sent && command.node == node
    case Receive(x) => x in w.executions
    case Tick(_) => true
  }

  /** Sending publishes a command; polling a key that is there deletes it. */
  function StepAct(w: World, task: TaskId, a: Action): World
    requires task in w.tasks && CanAct(w, w.tasks[task], a)
  {
    var t := w.tasks[task];
    var w' := w.(tasks := w.tasks[task := After(w, t, a)]);
    if a.Send? then
      w'.(used := w.used[a.id := Call(task, |t.issued|)], sent := w.sent + {Command(a.id, a.node, a.operation)})
    else if a.Poll? then w'.(responses := w.responses - {t.pending.value.id})
    else w'
  }

  function Step(w: World, e: Event): World {
    if !Enabled(w, e) then w else
    match e
    case Launch(t) => w.(tasks := w.tasks[t := Task(Body, Jobs.Queued, [], [], None)])
    case Act(t, a) => StepAct(w, t, a)
    case Execute(node, command, success, data) =>
      w.(executions := w.executions + {Execution(node, command, Message(command.id, success, data))})
    case Receive(x) =>
      w.(responses := w.responses[x.message.id := Stored(x.message, w.now + RESPONSE_TTL)])
    case Tick(elapsed) => w.(now := w.now + elapsed)
  }

  function Run(es: seq<Event>): World {
    if es == [] then START else Step(Run(es[..|es| - 1]), es[|es| - 1])
  }

  /** The k-th call of a task was carried out by the agent of the node it was sent to, and what
      the task got is the response to that very request. */
  ghost predicate Honoured(executions: set<Execution>, t: Task, k: nat)
    requires k < |t.issued| && k < |t.answers| && t.answers[k].Some?
  {
    && t.answers[k].value.id == t.issued[k].id
    && Execution(t.issued[k].node, t.issued[k], t.answers[k].value) in executions
  }

  ghost predicate AllSucceeded(t: Task) {
    forall k :: 0 <= k < |t.answers| ==> t.answers[k].Some? && t.answers[k].value.success
  }

  /** Calls and answers line up, and only an unbroken body can have closed the job as SUCCESS. */
  ghost predicate Shape(t: Task) {
    && |t.issued| == |t.answers| + (if t.pending.Some? then 1 else 0)
    && (t.pending.Some? ==> t.issued[|t.answers|].id == t.pending.value.id && t.stage != Ended)
    && (t.stage == Body ==> AllSucceeded(t) && !Jobs.IsTerminal(t.job))
    && (t.job == Jobs.Success ==> t.stage == Ended && AllSucceeded(t))
    && (t.stage == Ended ==> Jobs.IsTerminal(t.job))
  }

  ghost predicate Backed(w: World, task: TaskId, t: Task)
    requires Shape(t)
  {
    && (forall k :: 0 <= k < |t.issued| ==>
          t.issued[k] in w.sent && t.issued[k].id in w.used && w.used[t.issued[k].id] == Call(task, k))
    && (forall k :: 0 <= k < |t.answers| && t.answers[k].Some? ==> Honoured(w.executions, t, k))
  }

  ghost predicate TaskInv(w: World, task: TaskId, t: Task) {
    Shape(t) && Backed(w, task, t)
  }

  ghost predicate ChannelInv(w: World) {
    && (forall c :: c in w.sent ==> c.id in w.used)
    && (forall c, d :: c in w.sent && d in w.sent && c.id == d.id ==> c == d)
    && (forall x :: x in w.executions ==>
          x.command in w.sent && x.node == x.command.node && x.message.id == x.command.id)
    && (forall id :: id in w.responses ==> Answers(w.executions, id, w.responses[id].message))
  }

  ghost predicate Answers(executions: set<Execution>, id: RequestId, m: Message) {
    m.id == id && exists x :: x in executions && x.message == m
  }

  ghost predicate Inv(w: World) {
    && ChannelInv(w)
    && (forall t :: t in w.tasks ==> TaskInv(w, t, w.tasks[t]))
  }

  /** Nothing sent or carried out is ever forgotten, and other tasks are not touched. */
  ghost predicate Grows(w: World, w': World) {
    && w.now <= w'.now
    && w.sent <= w'.sent
    && w.executions <= w'.executions
    && (forall id :: id in w.used ==> id in w'.used && w'.used[id] == w.used[id])
  }

  lemma {:induction false} StepGrows(w: World, e: Event)
    ensures Grows(w, Step(w, e))
    ensures forall t :: t in w.tasks && !(e.Act? && e.task == t) ==>
      t in Step(w, e).tasks && Step(w, e).tasks[t] == w.tasks[t]
  {
  }

  lemma {:induction false} AnswersGrow(executions: set<Execution>, executions': set<Execution>, id: RequestId, m: Message)
    requires Answers(executions, id, m) && executions <= executions'
    ensures Answers(executions', id, m)
  {
    var x :| x in executions && x.message == m;
    assert x in executions';
  }

  lemma {:induction false} StepKeepsChannels(w: World, e: Event)
    requires ChannelInv(w)
    ensures ChannelInv(Step(w, e))
  {
    StepKeepsAnswers(w, e);
    StepKeepsCommands(w, e);
  }

  lemma {:induction false} StepKeepsAnswers(w: World, e: Event)
    requires ChannelInv(w)
    ensures var w' := Step(w, e); forall id :: id in w'.responses ==> Answers(w'.executions, id, w'.responses[id].message)
  {
    var w' := Step(w, e);
    StepGrows(w, e);
    forall id | id in w'.responses ensures Answers(w'.executions, id, w'.responses[id].message) {
      if id in w.responses && w'.responses[id] == w.responses[id] {
        AnswersGrow(w.executions, w'.executions, id, w.responses[id].message);
      } else {
        assert e.execution in w'.executions;
      }
    }
  }

  lemma {:induction false} StepKeepsCommands(w: World, e: Event)
    requires ChannelInv(w)
    ensures var w' := Step(w, e);
      && (forall c :: c in w'.sent ==> c.id in w'.used)
      && (forall c, d :: c in w'.sent && d in w'.sent && c.id == d.id ==> c == d)
      && (forall x :: x in w'.executions ==>
            x.command in w'.sent && x.node == x.command.node && x.message.id == x.command.id)
  {
  }

  /** What stands about a task stands when more was sent and more was carried out. */
  lemma {:induction false} BackedGrows(w: World, w': World, task: TaskId, t: Task)
    requires TaskInv(w, task, t) && Grows(w, w')
    ensures TaskInv(w', task, t)
  {
    forall k | 0 <= k < |t.answers| && t.answers[k].Some? ensures Honoured(w'.executions, t, k) {
      assert Honoured(w.executions, t, k);
    }
  }

  /** A response found under a pending request's key answers that request. */
  lemma {:induction false} ReplyBelongsToRequest(w: World, task: TaskId, t: Task)
    requires ChannelInv(w) && TaskInv(w, task, t) && t.pending.Some? && Available(w, t.pending.value.id)
    ensures var m := w.responses[t.pending.value.id].message; var c := t.issued[|t.answers|];
      m.id == c.id && Execution(c.node, c, m) in w.executions
  {
    var id := t.pending.value.id;
    var c := t.issued[|t.answers|];
    assert Answers(w.executions, id, w.responses[id].message);
    var x :| x in w.executions && x.message == w.responses[id].message;
    assert x.command == c;
    assert x == Execution(c.node, c, x.message);
  }

  lemma {:induction false} ActKeepsShape(w: World, t: Task, a: Action)
    requires Shape(t) && CanAct(w, t, a)
    ensures Shape(After(w, t, a))
  {
  }

  /** The lists of calls and answers only grow, by what the action adds. */
  lemma {:induction false} ActExtendsLists(w: World, t: Task, a: Action)
    requires Shape(t) && CanAct(w, t, a)
    ensures After(w, t, a).issued == t.issued + (if a.Send? then [Command(a.id, a.node, a.operation)] else [])
    ensures After(w, t, a).answers == t.answers + (
      if a.Poll? then [Some(w.responses[t.pending.value.id].message)] else if a.GiveUp? then [None] else [])
  {
  }

  lemma {:induction false} BackedByMore(w: World, w': World, task: TaskId, t: Task, t': Task, calls: seq<Command>, answers: seq<Option<Message>>)
    requires TaskInv(w, task, t) && Grows(w, w') && Shape(t')
    requires t'.issued == t.issued + calls && t'.answers == t.answers + answers
    requires forall k :: 0 <= k < |calls| ==> calls[k] in w'.sent && calls[k].id in w'.used && w'.used[calls[k].id] == Call(task, |t.issued| + k)
    requires forall k :: 0 <= k < |answers| && answers[k].Some? ==> Honoured(w'.executions, t', |t.answers| + k)
    ensures Backed(w', task, t')
  {
    forall k | 0 <= k < |t'.answers| && t'.answers[k].Some? ensures Honoured(w'.executions, t', k) {
      if k < |t.answers| {
        assert Honoured(w.executions, t, k);
      } else {
        assert answers[k - |t.answers|] == t'.answers[k];
      }
    }
    forall k | 0 <= k < |t'.issued|
      ensures t'.issued[k] in w'.sent && t'.issued[k].id in w'.used && w'.used[t'.issued[k].id] == Call(task, k)
    {
      if k >= |t.issued| {
        assert calls[k - |t.issued|] == t'.issued[k];
      }
    }
  }

  lemma {:induction false} ActKeepsTask(w: World, task: TaskId, a: Action)
    requires Inv(w) && task in w.tasks && CanAct(w, w.tasks[task], a)
    ensures var w' := StepAct(w, task, a); TaskInv(w', task, w'.tasks[task])
  {
    var w' := StepAct(w, task, a);
    var t, t' := w.tasks[task], w'.tasks[task];
    assert TaskInv(w, task, t);
    ActKeepsShape(w, t, a);
    ActExtendsLists(w, t, a);
    StepGrows(w, Act(task, a));
    var calls := if a.Send? then [Command(a.id, a.node, a.operation)] else [];
    var answers := if a.Poll? then [Some(w.responses[t.pending.value.id].message)] else if a.GiveUp? then [None] else [];
    if a.Poll? {
      ReplyBelongsToRequest(w, task, t);
    }
    BackedByMore(w, w', task, t, t', calls, answers);
  }

  lemma {:induction false} StepKeepsInv(w: World, e: Event)
    requires Inv(w)
    ensures Inv(Step(w, e))
  {
    StepKeepsChannels(w, e);
    StepGrows(w, e);
    if Enabled(w, e) {
      var w' := Step(w, e);
      forall t | t in w'.tasks ensures TaskInv(w', t, w'.tasks[t]) {
        if e.Act? && e.task == t {
          ActKeepsTask(w, t, e.action);
        } else if t in w.tasks {
          BackedGrows(w, w', t, w.tasks[t]);
        }
      }
    }
  }

  lemma {:induction false} RunKeepsInv(es: seq<Event>)
    ensures Inv(Run(es))
    decreases |es|
  {
    if es != [] {
      RunKeepsInv(es[..|es| - 1]);
      StepKeepsInv(Run(es[..|es| - 1]), es[|es| - 1]);
    }
  }

  /** Over every interleaving: a job is SUCCESS only if every operation its task issued was
      carried out by the agent of its node and answered success under its own request id. */
  lemma {:induction false} SuccessMeansEverythingWasDone(es: seq<Event>, task: TaskId)
    requires task in Run(es).tasks && Run(es).tasks[task].job == Jobs.Success
    ensures var w := Run(es); var t := w.tasks[task];
      && |t.answers| == |t.issued|
      && forall k :: 0 <= k < |t.issued| ==>
           && t.answers[k].Some? && t.answers[k].value.success
           && t.answers[k].value.id == t.issued[k].id
           && Execution(t.issued[k].node, t.issued[k], t.answers[k].value) in w.executions
  {
    RunKeepsInv(es);
    var w := Run(es);
    var t := w.tasks[task];
    assert TaskInv(w, task, t);
    forall k | 0 <= k < |t.issued|
      ensures t.answers[k].Some? && Honoured(w.executions, t, k)
    {
    }
  }

  /** Whatever a task consumes, successful or not, answers its own request, and no other call of
      any task carries that id; a task that is over has closed its job. */
  lemma {:induction false} NoCallerTakesAnothersReply(es: seq<Event>, task: TaskId, k: nat, other: TaskId, j: nat)
    requires var w := Run(es); task in w.tasks && other in w.tasks
    requires var w := Run(es); k < |w.tasks[task].answers| && w.tasks[task].answers[k].Some?
    requires j < |Run(es).tasks[other].issued|
    ensures var w := Run(es);
      && k < |w.tasks[task].issued|
      && w.tasks[task].answers[k].value.id == w.tasks[task].issued[k].id
      && (w.tasks[other].issued[j].id == w.tasks[task].answers[k].value.id ==> other == task && j == k)
    ensures var w := Run(es); w.tasks[task].stage == Ended ==> Jobs.IsTerminal(w.tasks[task].job)
  {
    RunKeepsInv(es);
    var w := Run(es);
    assert TaskInv(w, task, w.tasks[task]) && TaskInv(w, other, w.tasks[other]);
    assert Honoured(w.executions, w.tasks[task], k);
  }

  datatype Outcome = Data(message: Message) | OperationFailed(message: Message) | Unavailable

  /** A task whose job users may have asked to cancel meanwhile. */
  ghost predicate CancelledAtMost(t: Task, t': Task) {
    t' == t || (t' == t.(job := Jobs.Canceling) && !Jobs.IsTerminal(t.job))
  }

  /** A task whose one call is carried out and answered in time closes its job as SUCCESS. */
  lemma {:induction false} AnsweredTaskSucceeds(id: RequestId, node: NodeId, operation: string, data: string, timeout: int)
    requires timeout > 0
    ensures var command, message := Command(id, node, operation), Message(id, true, data);
      var asked := Step(Step(Step(START, Launch(0)), Act(0, BeginBlock)), Act(0, Send(id, node, operation, timeout)));
      var answered := Step(Step(asked, Execute(node, command, true, data)), Receive(Execution(node, command, message)));
      var done := Step(Step(answered, Act(0, Poll)), Act(0, Finish));
      done.tasks == map[0 := Task(Ended, Jobs.Success, [command], [Some(message)], None)]
  {
    var command, message := Command(id, node, operation), Message(id, true, data);
    var queued := Task(Body, Jobs.Queued, [], [], None);
    var launched := START.(tasks := map[0 := queued]);
    assert Step(START, Launch(0)) == launched;
    var begun := START.(tasks := map[0 := queued.(job := Jobs.Running)]);
    assert Step(launched, Act(0, BeginBlock)) == begun;
    var waiting := Task(Body, Jobs.Running, [command], [], Some(Pending(id, timeout)));
    var asked := World(0, map[id := Call(0, 0)], {command}, {}, map[], map[0 := waiting]);
    assert Step(begun, Act(0, Send(id, node, operation, timeout))) == asked by {
      assert [] + [command] == [command] && {} + {command} == {command};
    }
    var x := Execution(node, command, message);
    var executed := asked.(executions := {x});
    assert Step(asked, Execute(node, command, true, data)) == executed by {
      assert {} + {x} == {x};
    }
    var answered := executed.(responses := map[id := Stored(message, RESPONSE_TTL)]);
    assert Step(executed, Receive(x)) == answered;
    assert [] + [Some(message)] == [Some(message)];
  }

  // ---- What a caller sees while it waits ----

  /** The caller itself does nothing while it waits; its job may be cancelled. */
  predicate Own(e: Event, task: TaskId) {
    e.Act? && e.task == task && !e.action.Cancel?
  }

  /** The world after everyone else did something. */
  function Meanwhile(w: World, task: TaskId, es: seq<Event>): World {
    if es == [] then w
    else
      var before, e := Meanwhile(w, task, es[..|es| - 1]), es[|es| - 1];
      if Own(e, task) then before else Step(before, e)
  }

  /** The world at the k-th poll: `script[k]` is what the others do before it, and the caller sleeps
      between polls. */
  function AtPoll(sent: World, task: TaskId, script: seq<seq<Event>>, interval: nat, k: nat): World {
    var round := if k < |script| then script[k] else [];
    Meanwhile(if k == 0 then sent else Step(AtPoll(sent, task, script, interval, k - 1), Tick(interval)), task, round)
  }

  lemma {:induction false} MeanwhileKeeps(w: World, task: TaskId, es: seq<Event>)
    ensures w.now <= Meanwhile(w, task, es).now
    ensures task in w.tasks ==> task in Meanwhile(w, task, es).tasks && CancelledAtMost(w.tasks[task], Meanwhile(w, task, es).tasks[task])
    decreases |es|
  {
    if es != [] {
      var before, e := Meanwhile(w, task, es[..|es| - 1]), es[|es| - 1];
      MeanwhileKeeps(w, task, es[..|es| - 1]);
      if !Own(e, task) {
        StepGrows(before, e);
      }
    }
  }

  lemma {:induction false} MeanwhileKeepsInv(w: World, task: TaskId, es: seq<Event>)
    requires Inv(w)
    ensures Inv(Meanwhile(w, task, es))
    decreases |es|
  {
    if es != [] {
      MeanwhileKeepsInv(w, task, es[..|es| - 1]);
      StepKeepsInv(Meanwhile(w, task, es[..|es| - 1]), es[|es| - 1]);
    }
  }

  lemma {:induction false} PollsAdvance(sent: World, task: TaskId, script: seq<seq<Event>>, interval: nat, j: nat, k: nat)
    requires j <= k
    ensures AtPoll(sent, task, script, interval, j).now <= AtPoll(sent, task, script, interval, k).now
    decreases k
  {
    if j < k {
      PollsAdvance(sent, task, script, interval, j, k - 1);
      var before := Step(AtPoll(sent, task, script, interval, k - 1), Tick(interval));
      MeanwhileKeeps(before, task, if k < |script| then script[k] else []);
    }
  }

  /** A response to the request lies in Redis and has not expired. */
  ghost predicate Lies(w: World, id: RequestId) {
    id in w.responses && w.now < w.responses[id].expiresAt
  }

  /** The k-th poll comes in time, is the first to find a response, and finds this one. */
  ghost predicate FirstFinds(sent: World, task: TaskId, script: seq<seq<Event>>, interval: nat, start: int, timeout: int,
    id: RequestId, k: nat, m: Message)
  {
    && AtPoll(sent, task, script, interval, k).now < start + timeout
    && Lies(AtPoll(sent, task, script, interval, k), id)
    && m == AtPoll(sent, task, script, interval, k).responses[id].message
    && forall j: nat :: j < k ==> !Lies(AtPoll(sent, task, script, interval, j), id)
  }

  /** No poll in time finds a response. */
  ghost predicate NoneFinds(sent: World, task: TaskId, script: seq<seq<Event>>, interval: nat, start: int, timeout: int, id: RequestId) {
    forall k: nat :: AtPoll(sent, task, script, interval, k).now < start + timeout ==>
      !Lies(AtPoll(sent, task, script, interval, k), id)
  }

  lemma {:induction false} NoneAfter(sent: World, task: TaskId, script: seq<seq<Event>>, interval: nat, deadline: int, polls: nat)
    requires AtPoll(sent, task, script, interval, polls).now >= deadline
    ensures forall k: nat :: k >= polls ==> AtPoll(sent, task, script, interval, k).now >= deadline
  {
    forall k: nat | k >= polls ensures AtPoll(sent, task, script, interval, k).now >= deadline {
      PollsAdvance(sent, task, script, interval, polls, k);
    }
  }

  /** No other task takes a response to a request that is pending here. */
  lemma {:induction false} OthersLeaveReply(w: World, task: TaskId, e: Event)
    requires Inv(w) && task in w.tasks && w.tasks[task].pending.Some? && !Own(e, task)
    ensures var id := w.tasks[task].pending.value.id;
      id in w.responses && !(e.Receive? && e.execution.message.id == id) ==>
        id in Step(w, e).responses && Step(w, e).responses[id] == w.responses[id]
  {
    var t := w.tasks[task];
    assert TaskInv(w, task, t);
    if e.Act? && e.action.Poll? && e.task in w.tasks && CanAct(w, w.tasks[e.task], Poll) {
      var u := w.tasks[e.task];
      assert TaskInv(w, e.task, u);
      assert w.used[u.issued[|u.answers|].id] == Call(e.task, |u.answers|);
      assert w.used[t.issued[|t.answers|].id] == Call(task, |t.answers|);
    }
  }

  /** A response that arrives for a pending request lies there for a minute: whatever the others do,
      a poll finds it exactly if it comes less than 60 seconds later. */
  lemma {:induction false} ReplyLivesAMinute(es: seq<Event>, task: TaskId, x: Execution, others: seq<Event>)
    requires var w := Run(es);
      && task in w.tasks && w.tasks[task].pending.Some? && x in w.executions
      && x.message.id == w.tasks[task].pending.value.id
    requires forall e :: e in others ==> !(e.Receive? && e.execution.message.id == x.message.id)
    ensures var w := Run(es);
      var later := Meanwhile(Step(w, Receive(x)), task, others);
      && (Lies(later, x.message.id) <==> later.now < w.now + 60_000)
      && x.message.id in later.responses && later.responses[x.message.id].message == x.message
    decreases |others|
  {
    var w := Run(es);
    RunKeepsInv(es);
    StepKeepsInv(w, Receive(x));
    ReplyStays(Step(w, Receive(x)), task, x.message.id, others);
  }

  lemma {:induction false} ReplyStays(w: World, task: TaskId, id: RequestId, others: seq<Event>)
    requires Inv(w) && task in w.tasks && w.tasks[task].pending.Some? && w.tasks[task].pending.value.id == id && id in w.responses
    requires forall e :: e in others ==> !(e.Receive? && e.execution.message.id == id)
    ensures id in Meanwhile(w, task, others).responses && Meanwhile(w, task, others).responses[id] == w.responses[id]
    decreases |others|
  {
    if others != [] {
      var init, e := others[..|others| - 1], others[|others| - 1];
      ReplyStays(w, task, id, init);
      MeanwhileKeeps(w, task, init);
      MeanwhileKeepsInv(w, task, init);
      if !Own(e, task) {
        OthersLeaveReply(Meanwhile(w, task, init), task, e);
      }
    }
  }

  /** The controller and everything around it, with the events so far. */
  class System {
    var world: World
    ghost var trace: seq<Event>

    ghost predicate Valid()
      reads this
    {
      world == Run(trace)
    }

    constructor ()
      ensures Valid() && world == START
    {
      world, trace := START, [];
    }

    method Do(e: Event)
      requires Valid()
      modifies this
      ensures Valid() && world == Step(old(world), e) && trace == old(trace) + [e]
    {
      assert (trace + [e])[..|trace + [e]| - 1] == trace;
      world, trace := Step(world, e), trace + [e];
    }

    /** What the others do, event by event. */
    method Play(task: TaskId, es: seq<Event>)
      requires Valid()
      modifies this
      ensures Valid() && old(trace) <= trace && world == Meanwhile(old(world), task, es)
    {
      for i := 0 to |es|
        invariant Valid() && old(trace) <= trace && world == Meanwhile(old(world), task, es[..i])
      {
        assert es[..i + 1][..i] == es[..i];
        if !Own(es[i], task) {
          Do(es[i]);
        }
      }
      assert es[..|es|] == es;
    }

    /** Taking the response that lies under the pending request's key. */
    method TakeReply(task: TaskId, command: Command) returns (outcome: Outcome)
      requires Valid() && task in world.tasks && CanAct(world, world.tasks[task], Poll)
      requires world.tasks[task].issued != [] && world.tasks[task].issued[|world.tasks[task].issued| - 1] == command
      modifies this
      ensures Valid() && old(trace) <= trace && task in world.tasks && world.tasks[task].pending.None?
      ensures world.tasks[task].issued == old(world.tasks[task].issued) && !outcome.Unavailable?
      ensures outcome.message.id == command.id && Execution(command.node, command, outcome.message) in world.executions
      ensures outcome.message.success == outcome.Data?
      ensures outcome.message == old(world.responses[world.tasks[task].pending.value.id].message)
      ensures world.tasks[task].answers == old(world.tasks[task].answers) + [Some(outcome.message)]
      ensures world.tasks[task].stage == if outcome.Data? then old(world.tasks[task].stage) else Handler
    {
      RunKeepsInv(trace);
      assert TaskInv(world, task, world.tasks[task]);
      ReplyBelongsToRequest(world, task, world.tasks[task]);
      var m := world.responses[world.tasks[task].pending.value.id].message;
      StepGrows(world, Act(task, Poll));
      Do(Act(task, Poll));
      outcome := if m.success then Data(m) else OperationFailed(m);
    }

    /** The polling loop, while the others follow a script. */
    method Await(task: TaskId, command: Command, start: int, timeout: int, interval: nat, script: seq<seq<Event>>) returns (outcome: Outcome)
      requires Valid() && interval > 0 && task in world.tasks
      requires world.tasks[task].pending == Some(Pending(command.id, start + timeout)) && world.tasks[task].stage != Ended
      requires world.tasks[task].issued != [] && world.tasks[task].issued[|world.tasks[task].issued| - 1] == command
      modifies this
      ensures Valid() && old(trace) <= trace && task in world.tasks && world.tasks[task].pending.None?
      ensures world.tasks[task].issued == old(world.tasks[task].issued)
      ensures outcome.Unavailable? <==> NoneFinds(old(world), task, script, interval, start, timeout, command.id)
      ensures outcome.Unavailable? ==> world.now >= start + timeout && world.tasks[task].stage == Handler
      ensures !outcome.Unavailable? ==>
        && outcome.message.id == command.id && Execution(command.node, command, outcome.message) in world.executions
        && outcome.message.success == outcome.Data?
        && world.tasks[task].answers == old(world.tasks[task].answers) + [Some(outcome.message)]
        && world.tasks[task].stage == (if outcome.Data? then old(world.tasks[task].stage) else Handler)
        && exists k :: FirstFinds(old(world), task, script, interval, start, timeout, command.id, k, outcome.message)
    {
      var found, polls := Watch(task, command.id, start + timeout, interval, script);
      if found {
        outcome := TakeReply(task, command);
        assert FirstFinds(old(world), task, script, interval, start, timeout, command.id, polls, outcome.message);
      } else {
        NoneAfter(old(world), task, script, interval, start + timeout, polls);
        Do(Act(task, GiveUp));
        outcome := Unavailable;
      }
    }

    /** Polls until a response lies there or the time is up. */
    method Watch(task: TaskId, id: RequestId, deadline: int, interval: nat, script: seq<seq<Event>>) returns (found: bool, polls: nat)
      requires Valid() && interval > 0 && task in world.tasks
      modifies this
      ensures Valid() && old(trace) <= trace
      ensures world == AtPoll(old(world), task, script, interval, polls)
      ensures forall j: nat :: j < polls ==> !Lies(AtPoll(old(world), task, script, interval, j), id)
      ensures task in world.tasks && CancelledAtMost(old(world.tasks[task]), world.tasks[task])
      ensures if found then world.now < deadline && Lies(world, id) else world.now >= deadline
    {
      polls := 0;
      PlayRound(task, script, 0);
      while world.now < deadline
        invariant Valid() && old(trace) <= trace
        invariant world == AtPoll(old(world), task, script, interval, polls)
        invariant forall j: nat :: j < polls ==> !Lies(AtPoll(old(world), task, script, interval, j), id)
        invariant task in world.tasks && CancelledAtMost(old(world.tasks[task]), world.tasks[task])
        decreases deadline - world.now
      {
        if Available(world, id) {
          return true, polls;
        }
        Do(Tick(interval));
        polls := polls + 1;
        PlayRound(task, script, polls);
      }
      return false, polls;
    }

    method PlayRound(task: TaskId, script: seq<seq<Event>>, k: nat)
      requires Valid() && task in world.tasks
      modifies this
      ensures Valid() && old(trace) <= trace && world == Meanwhile(old(world), task, if k < |script| then script[k] else [])
      ensures world.now >= old(world.now) && task in world.tasks && CancelledAtMost(old(world.tasks[task]), world.tasks[task])
    {
      var round := if k < |script| then script[k] else [];
      MeanwhileKeeps(world, task, round);
      Play(task, round);
    }

    /** `send_operation` once the agent was found connected. */
    method SendOperation(task: TaskId, id: RequestId, node: NodeId, operation: string, timeout: int, interval: nat,
                         script: seq<seq<Event>>)
      returns (outcome: Outcome)
      requires Valid() && interval > 0
      requires task in world.tasks && CanAct(world, world.tasks[task], Send(id, node, operation, timeout))
      modifies this
      ensures Valid() && old(trace) <= trace && task in world.tasks
      ensures world.tasks[task].pending.None?
      ensures world.tasks[task].issued == old(world.tasks[task].issued) + [Command(id, node, operation)]
      ensures match outcome
        case Data(m) =>
          && m.success && m.id == id && Execution(node, Command(id, node, operation), m) in world.executions
          && world.tasks[task].answers == old(world.tasks[task].answers) + [Some(m)]
          && world.tasks[task].stage == old(world.tasks[task].stage)
        case OperationFailed(m) =>
          && !m.success && m.id == id && Execution(node, Command(id, node, operation), m) in world.executions
          && world.tasks[task].stage == Handler
        case Unavailable =>
          world.now >= old(world.now) + timeout && world.tasks[task].stage == Handler
      ensures var sent := Step(old(world), Act(task, Send(id, node, operation, timeout)));
        && (outcome.Unavailable? <==> NoneFinds(sent, task, script, interval, old(world.now), timeout, id))
        && (!outcome.Unavailable? ==>
              exists k :: FirstFinds(sent, task, script, interval, old(world.now), timeout, id, k, outcome.message))
    {
      var start := world.now;
      Do(Act(task, Send(id, node, operation, timeout)));
      outcome := Await(task, Command(id, node, operation), start, timeout, interval, script);
    }
  }
}
