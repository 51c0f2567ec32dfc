/** The IPC router: an accept loop behind a semaphore, tracked tasks with done-callbacks, and a draining
    shutdown. Each method is one stretch of event-loop code between two awaits. */
module ZmqRouter {
  import opened Outcomes

  type TaskId = nat

  /** What a client sent, as its job sees it after decoding. */
  datatype Payload =
    | Undecodable
    | NotAnObject
    | Message(requestId: Option<string>, messageType: Option<string>, version: Option<string>)

  datatype Request = Request(client: string, payload: Payload)

  datatype Reply = Reply(client: string, requestId: string, messageType: string, success: bool)

  /** How a task ended. */
  datatype End = Sent | SendFailed | NotSerializable | Cancelled

  datatype Status = Running | Replying(reply: Reply) | Ended(end: End)

  datatype Task = Task(request: Request, status: Status)

  datatype Phase = Accepting | Draining | Cancelling | Closed | Aborted

  datatype State = State(
    permits: int,
    tracked: set<TaskId>,
    tasks: map<TaskId, Task>,
    phase: Phase,
    running: bool,
    awaited: set<TaskId>,
    sent: seq<(TaskId, Reply)>)

  function Initial(maxJobs: nat): State {
    State(maxJobs, {}, map[], Accepting, true, {}, [])
  }

  // ----- what a task answers -----

  function OrUnknown(field: Option<string>): string {
    if field.Some? then field.value else "UNKNOWN"
  }

  function ParsedId(payload: Payload): string {
    if payload.Message? then OrUnknown(payload.requestId) else "UNKNOWN"
  }

  function ParsedType(payload: Payload): string {
    if payload.Message? then OrUnknown(payload.messageType) else "UNKNOWN"
  }

  /** Whether a handler is called at all: the schema is supported and the type is registered. */
  predicate Dispatches(payload: Payload, handlers: set<string>) {
    payload.Message? && payload.version == Some("1.0") && ParsedType(payload) != "" && ParsedType(payload) in handlers
  }

  /** The reply of a task whose handler, if called, succeeded or raised. */
  function ReplyFor(request: Request, handlers: set<string>, handlerSucceeded: bool): Reply {
    Reply(request.client, ParsedId(request.payload), ParsedType(request.payload),
          Dispatches(request.payload, handlers) && handlerSucceeded)
  }

  // ----- the steps -----

  datatype Step =
    | Accept(request: Request)
    | Respond(task: TaskId, handlers: set<string>, handlerSucceeded: bool)
    | FailToSerialize(task: TaskId)
    | Send(task: TaskId)
    | FailToSend(task: TaskId)
    | Cancel(task: TaskId)
    | Callback(task: TaskId)
    | Stop
    | BeginShutdown
    | DrainTimeout
    | CloseSocket
    | AbandonShutdown

  predicate HasEnded(s: State, t: TaskId) {
    t in s.tasks && s.tasks[t].status.Ended?
  }

  /** When the event loop may take a step. Accepting needs a permit; the socket is closed only after every
      awaited task is done; a second cancellation can abandon the shutdown at one of its awaits. */
  ghost predicate Enabled(s: State, step: Step) {
    match step
    case Accept(_) => s.phase.Accepting? && s.permits > 0
    case Respond(t, _, _) => t in s.tasks && s.tasks[t].status.Running?
    case FailToSerialize(t) => t in s.tasks && s.tasks[t].status.Replying?
    case Send(t) => t in s.tasks && s.tasks[t].status.Replying? && !s.phase.Closed?
    case FailToSend(t) => t in s.tasks && s.tasks[t].status.Replying?
    case Cancel(t) => t in s.tasks && !s.tasks[t].status.Ended?
    case Callback(t) => HasEnded(s, t) && t in s.tracked
    case Stop => true
    case BeginShutdown => s.phase.Accepting?
    case DrainTimeout => s.phase.Draining?
    case CloseSocket => (s.phase.Draining? || s.phase.Cancelling?) && forall t :: t in s.awaited ==> HasEnded(s, t)
    case AbandonShutdown => s.phase.Draining? || s.phase.Cancelling?
  }

  function SetStatus(s: State, t: TaskId, status: Status): State
    requires t in s.tasks
  {
    s.(tasks := s.tasks[t := s.tasks[t].(status := status)])
  }

  /** Task ids are taken in order of acceptance. */
  function NextId(s: State): TaskId {
    |s.tasks|
  }

  ghost function Take(s: State, step: Step): State
    requires Enabled(s, step)
  {
    match step
    case Accept(request) =>
      s.(permits := s.permits - 1,
         tracked := s.tracked + {NextId(s)},
         tasks := s.tasks[NextId(s) := Task(request, Running)])
    case Respond(t, handlers, ok) => SetStatus(s, t, Replying(ReplyFor(s.tasks[t].request, handlers, ok)))
    case FailToSerialize(t) => SetStatus(s, t, Ended(NotSerializable))
    case Send(t) => SetStatus(s, t, Ended(Sent)).(sent := s.sent + [(t, s.tasks[t].status.reply)])
    case FailToSend(t) => SetStatus(s, t, Ended(SendFailed))
    case Cancel(t) => SetStatus(s, t, Ended(Cancelled))
    case Callback(t) => s.(permits := s.permits + 1, tracked := s.tracked - {t})
    case Stop => s.(running := false)
    case BeginShutdown => s.(phase := Draining, running := false, awaited := s.tracked)
    case DrainTimeout => s.(phase := Cancelling)
    case CloseSocket => s.(phase := Closed)
    case AbandonShutdown => s.(phase := Aborted)
  }

  ghost predicate IsRun(states: seq<State>, steps: seq<Step>) {
    && |states| == |steps| + 1
    && forall k :: 0 <= k < |steps| ==> Enabled(states[k], steps[k]) && states[k + 1] == Take(states[k], steps[k])
  }

  // ----- the invariant -----

  /** Ids are dense, so the next one is always new. */
  ghost predicate Dense(s: State) {
    forall t :: t in s.tasks <==> 0 <= t < |s.tasks|
  }

  function RepliesOf(sent: seq<(TaskId, Reply)>, t: TaskId): seq<Reply> {
    if sent == [] then []
    else RepliesOf(sent[..|sent| - 1], t) + if sent[|sent| - 1].0 == t then [sent[|sent| - 1].1] else []
  }

  /** The one reply of a task that sent it, to its own client and with its own request id. */
  predicate Answered(task: Task, replies: seq<Reply>) {
    if task.status == Ended(Sent) then
      |replies| == 1 && replies[0].client == task.request.client
        && replies[0].requestId == ParsedId(task.request.payload)
    else replies == []
  }

  predicate Addressed(task: Task) {
    task.status.Replying? ==>
      task.status.reply.client == task.request.client && task.status.reply.requestId == ParsedId(task.request.payload)
  }

  ghost predicate Conserved(s: State, maxJobs: nat) {
    && s.permits >= 0 && s.permits + |s.tracked| == maxJobs
    && s.tracked <= s.tasks.Keys
    && (forall t :: t in s.tasks && t !in s.tracked ==> s.tasks[t].status.Ended?)
  }

  ghost predicate Drained(s: State) {
    && (!s.phase.Accepting? ==> !s.running && forall t :: t in s.tasks && !s.tasks[t].status.Ended? ==> t in s.awaited)
    && (s.phase.Closed? ==> forall t :: t in s.tasks ==> s.tasks[t].status.Ended?)
    && s.awaited <= s.tasks.Keys
  }

  ghost predicate Structured(s: State, maxJobs: nat) {
    Dense(s) && Conserved(s, maxJobs) && Drained(s)
  }

  ghost predicate Safe(s: State, maxJobs: nat) {
    Structured(s, maxJobs) && forall t: TaskId :: Accounted(s.tasks, s.sent, t)
  }

  /** The replies sent for one task id are as many, and as addressed, as its status says. */
  predicate Accounted(tasks: map<TaskId, Task>, sent: seq<(TaskId, Reply)>, t: TaskId) {
    if t in tasks then Addressed(tasks[t]) && Answered(tasks[t], RepliesOf(sent, t))
    else RepliesOf(sent, t) == []
  }

  lemma SendReplies(sent: seq<(TaskId, Reply)>, t: TaskId, reply: Reply, u: TaskId)
    ensures RepliesOf(sent + [(t, reply)], u) == RepliesOf(sent, u) + if u == t then [reply] else []
  {
    assert (sent + [(t, reply)])[..|sent + [(t, reply)]| - 1] == sent;
  }

  lemma StatusStructured(s: State, maxJobs: nat, t: TaskId, status: Status, sent: seq<(TaskId, Reply)>)
    requires Structured(s, maxJobs) && t in s.tasks && !s.tasks[t].status.Ended?
    ensures Structured(SetStatus(s, t, status).(sent := sent), maxJobs)
  {
    assert SetStatus(s, t, status).tasks.Keys == s.tasks.Keys;
  }

  lemma StatusSafe(s: State, maxJobs: nat, t: TaskId, status: Status)
    requires Safe(s, maxJobs) && t in s.tasks && !s.tasks[t].status.Ended?
    requires status.Replying? ==> Addressed(Task(s.tasks[t].request, status))
    requires status.Ended? ==> status.end != Sent
    ensures Safe(SetStatus(s, t, status), maxJobs)
  {
    StatusStructured(s, maxJobs, t, status, s.sent);
    forall u: TaskId
      ensures Accounted(SetStatus(s, t, status).tasks, s.sent, u)
    {
      assert Accounted(s.tasks, s.sent, u);
    }
  }

  lemma SendAccounted(s: State, t: TaskId, u: TaskId)
    requires t in s.tasks && s.tasks[t].status.Replying?
    requires Accounted(s.tasks, s.sent, t) && Accounted(s.tasks, s.sent, u)
    ensures Accounted(SetStatus(s, t, Ended(Sent)).tasks, s.sent + [(t, s.tasks[t].status.reply)], u)
  {
    SendReplies(s.sent, t, s.tasks[t].status.reply, u);
  }

  lemma SendSafe(s: State, maxJobs: nat, t: TaskId)
    requires Safe(s, maxJobs) && Enabled(s, Send(t))
    ensures Safe(Take(s, Send(t)), maxJobs)
  {
    var s' := Take(s, Send(t));
    StatusStructured(s, maxJobs, t, Ended(Sent), s'.sent);
    forall u: TaskId
      ensures Accounted(s'.tasks, s'.sent, u)
    {
      assert Accounted(s.tasks, s.sent, t) && Accounted(s.tasks, s.sent, u);
      SendAccounted(s, t, u);
    }
  }

  lemma AcceptSafe(s: State, maxJobs: nat, request: Request)
    requires Safe(s, maxJobs) && Enabled(s, Accept(request))
    ensures Safe(Take(s, Accept(request)), maxJobs)
  {
    var s' := Take(s, Accept(request));
    assert s'.tasks.Keys == s.tasks.Keys + {NextId(s)};
    assert |s'.tasks| == |s.tasks| + 1;
    forall u: TaskId
      ensures Accounted(s'.tasks, s'.sent, u)
    {
      assert Accounted(s.tasks, s.sent, u);
    }
  }

  lemma TakeSafe(s: State, maxJobs: nat, step: Step)
    requires Safe(s, maxJobs) && Enabled(s, step)
    ensures Safe(Take(s, step), maxJobs)
  {
    match step
    case Accept(request) => AcceptSafe(s, maxJobs, request);
    case Respond(t, handlers, ok) => StatusSafe(s, maxJobs, t, Replying(ReplyFor(s.tasks[t].request, handlers, ok)));
    case FailToSerialize(t) => StatusSafe(s, maxJobs, t, Ended(NotSerializable));
    case Send(t) => SendSafe(s, maxJobs, t);
    case FailToSend(t) => StatusSafe(s, maxJobs, t, Ended(SendFailed));
    case Cancel(t) => StatusSafe(s, maxJobs, t, Ended(Cancelled));
    case _ =>
  }

  lemma {:induction false} EveryRunIsSafe(states: seq<State>, steps: seq<Step>, maxJobs: nat)
    requires IsRun(states, steps) && states[0] == Initial(maxJobs)
    ensures Safe(states[|steps|], maxJobs)
  {
    if steps != [] {
      var k := |steps| - 1;
      EveryRunIsSafe(states[..k + 1], steps[..k], maxJobs);
      assert states[..k + 1][k] == states[k];
      TakeSafe(states[k], maxJobs, steps[k]);
    }
  }

  // ----- the theorems -----

  function ActiveTasks(s: State): set<TaskId> {
    set t | t in s.tasks && !s.tasks[t].status.Ended?
  }

  /** Free permits and tracked tasks always add up to the limit, however tasks end; so no more than that
      many handlers run at once, and with no task tracked every permit is free. */
  lemma PermitsAreConserved(states: seq<State>, steps: seq<Step>, maxJobs: nat)
    requires IsRun(states, steps) && states[0] == Initial(maxJobs)
    ensures var s := states[|steps|];
            && 0 <= s.permits && s.permits + |s.tracked| == maxJobs
            && |ActiveTasks(s)| <= maxJobs
            && (s.tracked == {} ==> s.permits == maxJobs)
  {
    EveryRunIsSafe(states, steps, maxJobs);
    var s := states[|steps|];
    var rest := s.tracked - ActiveTasks(s);
    assert s.tracked == ActiveTasks(s) + rest;
    assert |s.tracked| == |ActiveTasks(s)| + |rest|;
  }

  // ----- what a reply says -----

  /** The reply a request deserves, by its fields: success exactly for a message of version 1.0 whose type is
      registered and not empty, if its handler succeeded. Missing fields read as UNKNOWN. */
  predicate Deserves(request: Request, handlers: set<string>, handlerSucceeded: bool, reply: Reply) {
    match request.payload
    case Message(id, kind, version) =>
      && reply.client == request.client
      && (id.Some? ==> reply.requestId == id.value) && (id.None? ==> reply.requestId == "UNKNOWN")
      && (kind.Some? ==> reply.messageType == kind.value) && (kind.None? ==> reply.messageType == "UNKNOWN")
      && (reply.success <==>
            version == Some("1.0") && handlerSucceeded && reply.messageType in handlers && reply.messageType != "")
    case _ =>
      reply == Reply(request.client, "UNKNOWN", "UNKNOWN", false)
  }

  /** Step `k` is the one in which the task's handler ended, and this is what it answered. */
  ghost predicate AnsweredAt(steps: seq<Step>, k: nat, t: TaskId, request: Request, reply: Reply) {
    && k < |steps| && steps[k].Respond? && steps[k].task == t
    && Deserves(request, steps[k].handlers, steps[k].handlerSucceeded, reply)
  }

  ghost predicate Responds(steps: seq<Step>, k: nat, t: TaskId) {
    k < |steps| && steps[k].Respond? && steps[k].task == t
  }

  /** The reply a task is about to send, or has sent. */
  function ReplyOf(s: State, t: TaskId): Option<Reply>
    requires t in s.tasks
  {
    match s.tasks[t].status
    case Replying(reply) => Some(reply)
    case Ended(Sent) => var replies := RepliesOf(s.sent, t); if replies == [] then None else Some(replies[0])
    case _ => None
  }

  ghost predicate Explained(steps: seq<Step>, s: State, t: TaskId) {
    if t !in s.tasks then forall k: nat :: !Responds(steps, k, t)
    else
      && (s.tasks[t].status.Running? ==> forall k: nat :: !Responds(steps, k, t))
      && (forall k: nat, n: nat :: Responds(steps, k, t) && Responds(steps, n, t) ==> k == n)
      && (ReplyOf(s, t).Some? ==>
            exists k: nat :: AnsweredAt(steps, k, t, s.tasks[t].request, ReplyOf(s, t).value))
  }

  lemma StepExplained(steps: seq<Step>, s: State, step: Step, maxJobs: nat, t: TaskId)
    requires Safe(s, maxJobs) && Enabled(s, step) && Explained(steps, s, t)
    ensures Explained(steps + [step], Take(s, step), t)
  {
    var s', longer := Take(s, step), steps + [step];
    assert forall k: nat ::
        Responds(longer, k, t) <==> Responds(steps, k, t) || (k == |steps| && step.Respond? && step.task == t);
    assert Accounted(s.tasks, s.sent, t);
    if step.Send? {
      SendReplies(s.sent, step.task, s.tasks[step.task].status.reply, t);
    }
    if t in s'.tasks && ReplyOf(s', t).Some? {
      if step.Respond? && step.task == t {
        assert AnsweredAt(longer, |steps|, t, s'.tasks[t].request, ReplyOf(s', t).value);
      } else {
        assert t in s.tasks && ReplyOf(s, t) == ReplyOf(s', t);
        var k: nat :| AnsweredAt(steps, k, t, s.tasks[t].request, ReplyOf(s, t).value);
        assert AnsweredAt(longer, k, t, s'.tasks[t].request, ReplyOf(s', t).value);
      }
    }
  }

  lemma {:induction false} EveryRunIsExplained(states: seq<State>, steps: seq<Step>, maxJobs: nat, t: TaskId)
    requires IsRun(states, steps) && states[0] == Initial(maxJobs)
    ensures Explained(steps, states[|steps|], t)
  {
    if steps != [] {
      var k := |steps| - 1;
      EveryRunIsSafe(states[..k + 1], steps[..k], maxJobs);
      EveryRunIsExplained(states[..k + 1], steps[..k], maxJobs, t);
      assert states[..k + 1][k] == states[k] && steps[..k] + [steps[k]] == steps;
      StepExplained(steps[..k], states[k], steps[k], maxJobs, t);
    }
  }

  /** Each accepted request is answered at most once, by its own task; exactly once unless it is unfinished, was
      cancelled, or its reply could not be serialised or sent. The answer is the one its fields and its handler
      deserve, at the one step at which the handler ended. */
  lemma RepliesAreExact(states: seq<State>, steps: seq<Step>, maxJobs: nat, t: TaskId)
    requires IsRun(states, steps) && states[0] == Initial(maxJobs)
    requires t in states[|steps|].tasks
    ensures var s := states[|steps|];
            var replies := RepliesOf(s.sent, t);
            && |replies| <= 1
            && (|replies| == 1 <==> s.tasks[t].status == Ended(Sent))
            && (forall k: nat, n: nat :: Responds(steps, k, t) && Responds(steps, n, t) ==> k == n)
            && (forall r :: r in replies ==>
                  exists k: nat :: AnsweredAt(steps, k, t, s.tasks[t].request, r))
  {
    EveryRunIsSafe(states, steps, maxJobs);
    EveryRunIsExplained(states, steps, maxJobs, t);
    var s := states[|steps|];
    assert Accounted(s.tasks, s.sent, t);
    var replies := RepliesOf(s.sent, t);
    if replies != [] {
      assert replies == [replies[0]] && ReplyOf(s, t) == Some(replies[0]);
    }
  }

  /** Once shutdown begins no task is created. The socket closes only when every accepted task has ended,
      so no task ever finds the socket closed under its reply. */
  lemma ShutdownDrains(states: seq<State>, steps: seq<Step>, maxJobs: nat, i: nat, j: nat)
    requires IsRun(states, steps) && states[0] == Initial(maxJobs)
    requires i <= j <= |steps|
    ensures !states[i].phase.Accepting? ==> !states[j].phase.Accepting? && states[j].tasks.Keys == states[i].tasks.Keys
    ensures states[j].phase.Closed? ==>
              forall t :: t in states[j].tasks ==> states[j].tasks[t].status.Ended?
  {
    EveryRunIsSafe(states[..j + 1], steps[..j], maxJobs);
    assert states[..j + 1][j] == states[j];
    if !states[i].phase.Accepting? {
      NoTaskAfterShutdown(states, steps, i, j);
    }
  }

  lemma {:induction false} NoTaskAfterShutdown(states: seq<State>, steps: seq<Step>, i: nat, j: nat)
    requires IsRun(states, steps) && i <= j <= |steps| && !states[i].phase.Accepting?
    ensures !states[j].phase.Accepting? && states[j].tasks.Keys == states[i].tasks.Keys
    decreases j - i
  {
    if i < j {
      NoTaskAfterShutdown(states, steps, i, j - 1);
      var s, step := states[j - 1], steps[j - 1];
      assert Enabled(s, step) && states[j] == Take(s, step);
      assert Take(s, step).tasks.Keys == s.tasks.Keys;
    }
  }

  lemma RunGrows(s: State, step: Step, states: seq<State>, steps: seq<Step>)
    requires Enabled(s, step) && IsRun(states, steps) && states[0] == Take(s, step)
    ensures IsRun([s] + states, [step] + steps)
  {
  }

  /** A shutdown can always be brought to its end: cancelling what still runs lets the socket close. */
  lemma {:induction false} ShutdownCanEnd(s: State, maxJobs: nat) returns (states: seq<State>, steps: seq<Step>)
    requires Safe(s, maxJobs) && (s.phase.Draining? || s.phase.Cancelling?)
    ensures IsRun(states, steps) && states[0] == s && states[|steps|].phase.Closed?
    decreases |ActiveTasks(s)|
  {
    var step: Step := CloseSocket;
    if t :| t in ActiveTasks(s) {
      step := Cancel(t);
      TakeSafe(s, maxJobs, step);
      assert ActiveTasks(Take(s, step)) == ActiveTasks(s) - {t};
      states, steps := ShutdownCanEnd(Take(s, step), maxJobs);
    } else {
      assert forall t :: t in s.awaited ==> t in s.tasks && t !in ActiveTasks(s);
      states, steps := [Take(s, step)], [];
    }
    RunGrows(s, step, states, steps);
    states, steps := [s] + states, [step] + steps;
  }

  /** So from every state of a run before its shutdown was abandoned, the router can still be closed. */
  lemma RouterCanBeClosed(states: seq<State>, steps: seq<Step>, maxJobs: nat)
    returns (later: seq<State>, further: seq<Step>)
    requires IsRun(states, steps) && states[0] == Initial(maxJobs) && !states[|steps|].phase.Aborted?
    ensures IsRun(later, further) && later[0] == states[|steps|] && later[|further|].phase.Closed?
  {
    EveryRunIsSafe(states, steps, maxJobs);
    var s := states[|steps|];
    if s.phase.Closed? {
      later, further := [s], [];
    } else if s.phase.Accepting? {
      TakeSafe(s, maxJobs, BeginShutdown);
      later, further := ShutdownCanEnd(Take(s, BeginShutdown), maxJobs);
      RunGrows(s, BeginShutdown, later, further);
      later, further := [s] + later, [BeginShutdown] + further;
    } else {
      later, further := ShutdownCanEnd(s, maxJobs);
    }
  }

  // ----- the router itself -----

  /** What becomes of a reply. */
  function Sending(task: TaskId, serializes: bool, sends: bool): Step {
    if !serializes then FailToSerialize(task) else if sends then Send(task) else FailToSend(task)
  }

  class Router {
    const maxConcurrentJobs: nat
    var permits: int
    var backgroundTasks: set<TaskId>
    var tasks: map<TaskId, Task>
    var isRunning: bool
    var shutdownStarted: bool
    var socketClosed: bool
    var sent: seq<(TaskId, Reply)>
    ghost var phase: Phase
    ghost var awaited: set<TaskId>

    constructor (maxConcurrentJobs: nat)
      ensures View() == Initial(maxConcurrentJobs) && Valid()
      ensures this.maxConcurrentJobs == maxConcurrentJobs
    {
      this.maxConcurrentJobs, permits := maxConcurrentJobs, maxConcurrentJobs;
      backgroundTasks, tasks, sent := {}, map[], [];
      isRunning, shutdownStarted, socketClosed := true, false, false;
      phase, awaited := Accepting, {};
    }

    ghost function View(): State
      reads this
    {
      State(permits, backgroundTasks, tasks, phase, isRunning, awaited, sent)
    }

    ghost predicate Valid()
      reads this
    {
      && Safe(View(), maxConcurrentJobs)
      && (shutdownStarted <==> !phase.Accepting?)
      && (socketClosed <==> phase.Closed?)
    }

    /** After a well-formed message and a permit: start a job and track it. */
    method CreateTask(request: Request) returns (task: TaskId)
      requires Valid() && phase.Accepting? && permits > 0
      modifies this
      ensures Valid()
      ensures View() == Take(old(View()), Accept(request)) && task == NextId(old(View()))
    {
      TakeSafe(View(), maxConcurrentJobs, Accept(request));
      task := |tasks|;
      permits := permits - 1;
      tasks := tasks[task := Task(request, Running)];
      backgroundTasks := backgroundTasks + {task};
    }

    /** The done-callback: give the permit back and stop tracking. */
    method OnTaskDone(task: TaskId)
      requires Valid() && HasEnded(View(), task) && task in backgroundTasks
      modifies this
      ensures Valid()
      ensures View() == Take(old(View()), Callback(task))
    {
      TakeSafe(View(), maxConcurrentJobs, Callback(task));
      permits := permits + 1;
      backgroundTasks := backgroundTasks - {task};
    }

    /** The wrapper once the handler is done, or the request was refused without one. */
    method BuildReply(task: TaskId, handlers: set<string>, handlerSucceeded: bool)
      requires Valid() && task in tasks && tasks[task].status.Running?
      modifies this
      ensures Valid()
      ensures View() == Take(old(View()), Respond(task, handlers, handlerSucceeded))
      ensures tasks[task].status.Replying?
        && Deserves(old(tasks)[task].request, handlers, handlerSucceeded, tasks[task].status.reply)
    {
      TakeSafe(View(), maxConcurrentJobs, Respond(task, handlers, handlerSucceeded));
      var reply := ReplyFor(tasks[task].request, handlers, handlerSucceeded);
      tasks := tasks[task := tasks[task].(status := Replying(reply))];
    }

    /** Serialise, look at the socket, send. A task never finds the socket closed under its reply, so the
        wrapper's early return is never taken. */
    method SendReply(task: TaskId, serializes: bool, sends: bool)
      requires Valid() && task in tasks && tasks[task].status.Replying?
      modifies this
      ensures Valid() && !socketClosed
      ensures View() == Take(old(View()), Sending(task, serializes, sends))
      ensures tasks[task].status
           == Ended(if !serializes then NotSerializable else if sends then Sent else SendFailed)
      ensures sent == if serializes && sends then old(sent) + [(task, old(tasks)[task].status.reply)] else old(sent)
    {
      assert !socketClosed;
      TakeSafe(View(), maxConcurrentJobs, Sending(task, serializes, sends));
      var reply := tasks[task].status.reply;
      if serializes && sends {
        sent := sent + [(task, reply)];
      }
      var end := if !serializes then NotSerializable else if sends then Sent else SendFailed;
      tasks := tasks[task := tasks[task].(status := Ended(end))];
    }

    method Stop()
      requires Valid()
      modifies this
      ensures Valid()
      ensures View() == Take(old(View()), Step.Stop)
    {
      isRunning := false;
    }

    /** Leaving the accept loop; a second call finds the shutdown under way and does nothing. */
    method StartShutdown() returns (first: bool)
      requires Valid()
      modifies this
      ensures Valid()
      ensures first == old(phase.Accepting?)
      ensures View() == if first then Take(old(View()), BeginShutdown) else old(View())
    {
      if shutdownStarted {
        return false;
      }
      shutdownStarted, isRunning := true, false;
      phase, awaited := Draining, backgroundTasks;
      first := true;
    }

    /** After the last wait: every awaited task is done. */
    method Close()
      requires Valid() && Enabled(View(), CloseSocket)
      modifies this
      ensures Valid() && socketClosed
      ensures View() == Take(old(View()), CloseSocket)
    {
      TakeSafe(View(), maxConcurrentJobs, CloseSocket);
      socketClosed := true;
      phase := Closed;
    }
  }
}
