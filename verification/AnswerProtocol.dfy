/**
 Answers handled together (src/ela/api/approvals.py): any number of approve and deny requests,
 interleaved at every await, while the executor asks new questions, the engine moves tasks for
 other reasons, and the process may stop anywhere.

 A run is a sequence of steps. A step that cannot be taken leaves the system as it is, so every
 sequence is a run and a theorem about all sequences is one about all interleavings.
 */
module AnswerProtocol {
  import opened Options
  import opened Approvals

  type HandlerId = nat

  /** The await a handler is at, with what it has read. */
  datatype Await =
    | Getting
    | ReadingTask(found: Approval)
    | Responding
    | GettingAgain
    | Moving(answered: Approval)
    | Recording
    | Finished(answer: Answered)

  datatype Handler = Handler(task: TaskId, id: ApprovalId, yes: bool, at: Await)

  /** What happened, in order: an answer stored, and a task moved by an answer while it waited for
      the request `waited`. */
  datatype Event =
    | Stored(id: ApprovalId, status: Status)
    | MovedBy(task: TaskId, id: ApprovalId, yes: bool, waited: Option<ApprovalId>)

  /** `locks` holds, for a task the engine is writing, the handler it writes for: the engine saves the
      task and then appends the event that records the operation, under the lock of the task. */
  datatype System = System(
    world: World, handlers: map<HandlerId, Handler>, locks: map<TaskId, HandlerId>, log: seq<Event>)

  datatype Step =
    | Arrive(h: HandlerId, task: TaskId, id: ApprovalId, yes: bool)
    | Advance(h: HandlerId, now: int, clockWentBack: bool)
    | Crash
    | CreateTask(task: TaskId)
    | AddRequest(id: ApprovalId, task: TaskId, expires: Option<int>)
    | Ask(task: TaskId, id: ApprovalId, recorded: bool)
    | Otherwise(task: TaskId, operation: Operation, recorded: bool)

  const START := System(World(map[], map[]), map[], map[], [])

  /** A handler runs to its next await. */
  function Advanced(s: System, h: HandlerId, now: int, clockWentBack: bool): System
    requires h in s.handlers
  {
    match s.handlers[h].at
    case Getting => AfterGet(s, h)
    case ReadingTask(found) => AfterRead(s, h, found)
    case Responding => AfterRespond(s, h, now)
    case GettingAgain => AfterGetAgain(s, h)
    case Moving(_) => AfterMove(s, h, clockWentBack)
    case Recording => AfterRecord(s, h)
    case Finished(_) => s
  }

  function AfterGet(s: System, h: HandlerId): System
    requires h in s.handlers
  {
    var handler, approvals := s.handlers[h], s.world.approvals;
    if handler.id !in approvals || approvals[handler.id].task != handler.task then Finish(s, h, Err(NotFound))
    else At(s, h, ReadingTask(approvals[handler.id]))
  }

  function AfterRead(s: System, h: HandlerId, found: Approval): System
    requires h in s.handlers
  {
    var handler, tasks := s.handlers[h], s.world.tasks;
    if handler.task !in tasks then Finish(s, h, Err(NotFound))
    else if tasks[handler.task].state != WAITING_APPROVAL then
      Finish(s, h, Settled(tasks[handler.task], found, handler.yes))
    else At(s, h, Responding)
  }

  function AfterRespond(s: System, h: HandlerId, now: int): System
    requires h in s.handlers
  {
    var handler := s.handlers[h];
    var (written, responded) := Respond(s.world.approvals, handler.id, StatusOf(handler.yes), now);
    match responded
    case Ok(answered) =>
      At(s.(world := World(written, s.world.tasks), log := s.log + [Stored(handler.id, StatusOf(handler.yes))]),
         h, Moving(answered))
    case Err(refusal) =>
      if refusal == AlreadyAnswered then At(s, h, GettingAgain) else Finish(s, h, Err(refusal))
  }

  function AfterGetAgain(s: System, h: HandlerId): System
    requires h in s.handlers
  {
    var handler, approvals := s.handlers[h], s.world.approvals;
    if handler.id !in approvals then Finish(s, h, Err(NotFound))
    else if approvals[handler.id].status != StatusOf(handler.yes) then Finish(s, h, Err(AlreadyAnswered))
    else At(s, h, Moving(approvals[handler.id]))
  }

  /** The engine, under the lock of the task: the check, and the save of the new state. */
  function AfterMove(s: System, h: HandlerId, clockWentBack: bool): System
    requires h in s.handlers
  {
    var handler, tasks := s.handlers[h], s.world.tasks;
    if handler.task in s.locks then s
    else if handler.task !in tasks then Finish(s, h, Err(NotFound))
    else
      var task := tasks[handler.task];
      var change := Change(OperationOf(handler.yes), Some(handler.id));
      match VerdictOf(task, change)
      case Already => Finish(s, h, Ok(task.state))
      case Refuses => Finish(s, h, Err(EngineRefused))
      case Moves =>
        if clockWentBack then Finish(s, h, Err(EngineRefused))
        else
          At(System(World(s.world.approvals, tasks[handler.task := task.(state := Target(change.operation))]),
                    s.handlers, s.locks[handler.task := h],
                    s.log + [MovedBy(handler.task, handler.id, handler.yes, WaitsFor(task))]),
             h, Recording)
  }

  /** The event that says which operation moved the task, and the lock released. */
  function AfterRecord(s: System, h: HandlerId): System
    requires h in s.handlers
  {
    var handler := s.handlers[h];
    if handler.task !in s.world.tasks then s
    else
      var task := s.world.tasks[handler.task].(last := Some(Change(OperationOf(handler.yes), Some(handler.id))));
      Finish(s.(world := World(s.world.approvals, s.world.tasks[handler.task := task]),
                locks := s.locks - {handler.task}),
             h, Ok(task.state))
  }

  function At(s: System, h: HandlerId, at: Await): System
    requires h in s.handlers
  {
    s.(handlers := s.handlers[h := s.handlers[h].(at := at)])
  }

  function Finish(s: System, h: HandlerId, answer: Answered): System
    requires h in s.handlers
  {
    At(s, h, Finished(answer))
  }

  /** An operation of the engine that is not an answer. A crash between its two writes leaves the
      state changed and the operation unrecorded. */
  function Applied(s: System, id: TaskId, change: Change, recorded: bool): System {
    if id !in s.world.tasks || id in s.locks || VerdictOf(s.world.tasks[id], change) != Moves then s
    else
      var task := s.world.tasks[id];
      var moved := Task(Target(change.operation), if recorded then Some(change) else task.last);
      s.(world := s.world.(tasks := s.world.tasks[id := moved]))
  }

  function Next(s: System, step: Step): System {
    match step
    case Arrive(h, task, id, yes) =>
      if h in s.handlers then s else s.(handlers := s.handlers[h := Handler(task, id, yes, Getting)])
    case Advance(h, now, clockWentBack) =>
      if h in s.handlers then Advanced(s, h, now, clockWentBack) else s
    case Crash => s.(handlers := map[], locks := map[])
    case CreateTask(task) =>
      if task in s.world.tasks then s
      else s.(world := s.world.(tasks := s.world.tasks[task := Task(CREATED, None)]))
    case AddRequest(id, task, expires) =>
      if id in s.world.approvals then s
      else s.(world := s.world.(approvals := s.world.approvals[id := Approval(task, PENDING, expires)]))
    case Ask(task, id, recorded) =>
      if id in s.world.approvals && s.world.approvals[id].task == task then
        Applied(s, task, Change(RequestApproval, Some(id)), recorded)
      else s
    case Otherwise(task, operation, recorded) =>
      if operation in {RequestApproval, Approve, DenyByApproval} then s
      else Applied(s, task, Change(operation, None), recorded)
  }

  function Run(s: System, steps: seq<Step>): System
    decreases |steps|
  {
    if steps == [] then s else Run(Next(s, steps[0]), steps[1..])
  }

  lemma {:induction false} RunInTwo(s: System, first: seq<Step>, rest: seq<Step>)
    ensures Run(s, first + rest) == Run(Run(s, first), rest)
    decreases |first|
  {
    if first == [] {
      assert first + rest == rest;
    } else {
      assert (first + rest)[1..] == first[1..] + rest;
      RunInTwo(Next(s, first[0]), first[1..], rest);
    }
  }

  // ------------------------------------------------------------------------------------------
  // What every step keeps
  // ------------------------------------------------------------------------------------------

  /** The request a handler is past checking is one of its task. */
  predicate Checked(s: System, handler: Handler) {
    handler.id in s.world.approvals && s.world.approvals[handler.id].task == handler.task
  }

  /** The answer of a handler is in the store. */
  predicate IsStored(s: System, handler: Handler) {
    Checked(s, handler) && s.world.approvals[handler.id].status == StatusOf(handler.yes)
  }

  /** A handler about to tell the engine, telling it, or having handed back a task has its own answer in
      the store, and an answer it has read is still there. */
  predicate HandlerHolds(s: System, handler: Handler) {
    match handler.at
    case Getting => true
    case ReadingTask(found) =>
      Checked(s, handler) && (found.status != PENDING ==> s.world.approvals[handler.id].status == found.status)
    case Responding => Checked(s, handler)
    case GettingAgain => Checked(s, handler)
    case Moving(answered) => IsStored(s, handler) && answered == s.world.approvals[handler.id]
    case Recording =>
      IsStored(s, handler)
      && handler.task in s.world.tasks && s.world.tasks[handler.task].state == Target(OperationOf(handler.yes))
    case Finished(answer) => answer.Ok? ==> IsStored(s, handler)
  }

  /** An answer in the log is the answer in the store. */
  ghost predicate LogIsStored(log: seq<Event>, approvals: map<ApprovalId, Approval>) {
    forall i :: 0 <= i < |log| && log[i].Stored? ==>
      && log[i].status in {GRANTED, REJECTED}
      && log[i].id in approvals && approvals[log[i].id].status == log[i].status
  }

  /** A request is answered once. */
  ghost predicate StoredOnce(log: seq<Event>) {
    forall i, j :: 0 <= i < j < |log| && log[i].Stored? && log[j].Stored? ==> log[i].id != log[j].id
  }

  ghost predicate StoredBefore(log: seq<Event>, n: nat, id: ApprovalId, status: Status) {
    exists i :: 0 <= i < n && i < |log| && log[i] == Stored(id, status)
  }

  /** Every answer in the store went through `respond`. */
  ghost predicate StoreIsLogged(log: seq<Event>, approvals: map<ApprovalId, Approval>) {
    forall id :: id in approvals && approvals[id].status != PENDING ==>
      StoredBefore(log, |log|, id, approvals[id].status)
  }

  /** The engine moves after the store: a task moves only by an answer about it, stored before. */
  ghost predicate MovesFollow(log: seq<Event>, approvals: map<ApprovalId, Approval>) {
    forall j :: 0 <= j < |log| && log[j].MovedBy? ==>
      && log[j].id in approvals && approvals[log[j].id].task == log[j].task
      && StoredBefore(log, j, log[j].id, StatusOf(log[j].yes))
  }

  ghost predicate LogHolds(log: seq<Event>, approvals: map<ApprovalId, Approval>) {
    LogIsStored(log, approvals) && StoredOnce(log) && StoreIsLogged(log, approvals) && MovesFollow(log, approvals)
  }

  lemma StoredBeforeLasts(log: seq<Event>, event: Event, n: nat, m: nat, id: ApprovalId, status: Status)
    requires StoredBefore(log, n, id, status) && n <= m
    ensures StoredBefore(log + [event], m, id, status)
  {
    var i :| 0 <= i < n && i < |log| && log[i] == Stored(id, status);
    assert (log + [event])[i] == log[i];
  }

  /** The log still tells the story when requests are only added. */
  lemma LogKept(log: seq<Event>, before: map<ApprovalId, Approval>, after: map<ApprovalId, Approval>)
    requires LogHolds(log, before) && Grows(before, after)
    requires forall id :: id in after && after[id].status != PENDING ==> id in before && before[id] == after[id]
    ensures LogHolds(log, after)
  {
  }

  lemma LogStores(log: seq<Event>, approvals: map<ApprovalId, Approval>, id: ApprovalId, status: Status)
    requires LogHolds(log, approvals) && status in {GRANTED, REJECTED}
    requires id in approvals && approvals[id].status == PENDING
    ensures LogHolds(log + [Stored(id, status)], approvals[id := approvals[id].(status := status)])
  {
    var event := Stored(id, status);
    var log', after := log + [event], approvals[id := approvals[id].(status := status)];
    assert log'[|log|] == event;
    forall i | i in after && after[i].status != PENDING
      ensures StoredBefore(log', |log'|, i, after[i].status)
    {
      if i != id {
        StoredBeforeLasts(log, event, |log|, |log'|, i, after[i].status);
      }
    }
    forall j | 0 <= j < |log'| && log'[j].MovedBy?
      ensures StoredBefore(log', j, log'[j].id, StatusOf(log'[j].yes))
    {
      StoredBeforeLasts(log, event, j, j, log[j].id, StatusOf(log[j].yes));
    }
  }

  lemma LogMoves(log: seq<Event>, approvals: map<ApprovalId, Approval>, event: Event)
    requires LogHolds(log, approvals) && event.MovedBy?
    requires event.id in approvals && approvals[event.id].task == event.task
    requires approvals[event.id].status == StatusOf(event.yes)
    ensures LogHolds(log + [event], approvals)
  {
    var log' := log + [event];
    forall i | i in approvals && approvals[i].status != PENDING
      ensures StoredBefore(log', |log'|, i, approvals[i].status)
    {
      StoredBeforeLasts(log, event, |log|, |log'|, i, approvals[i].status);
    }
    forall j | 0 <= j < |log'| && log'[j].MovedBy?
      ensures log'[j].id in approvals && approvals[log'[j].id].task == log'[j].task
      ensures StoredBefore(log', j, log'[j].id, StatusOf(log'[j].yes))
    {
      if j < |log| {
        StoredBeforeLasts(log, event, j, j, log[j].id, StatusOf(log[j].yes));
      } else {
        StoredBeforeLasts(log, event, |log|, j, event.id, StatusOf(event.yes));
      }
    }
  }

  /** A task the engine queued or denied for an answer has that answer in the store. */
  predicate TaskHolds(s: System, id: TaskId, task: Task) {
    task.last.Some? && task.last.value.operation in {Approve, DenyByApproval} ==>
      && task.last.value.key.Some?
      && task.last.value.key.value in s.world.approvals
      && s.world.approvals[task.last.value.key.value].task == id
      && s.world.approvals[task.last.value.key.value].status == StatusOf(task.last.value.operation == Approve)
  }

  /** The request a task was last made to wait for is one of its own. */
  predicate WaitHolds(s: System, id: TaskId, task: Task) {
    task.last.Some? && task.last.value.operation == RequestApproval ==>
      && task.last.value.key.Some?
      && task.last.value.key.value in s.world.approvals
      && s.world.approvals[task.last.value.key.value].task == id
  }

  predicate LockHolds(s: System, id: TaskId) {
    id in s.locks ==>
      && s.locks[id] in s.handlers
      && s.handlers[s.locks[id]].task == id
      && s.handlers[s.locks[id]].at.Recording?
  }

  ghost predicate HandlersHold(s: System) {
    && (forall h :: h in s.handlers ==> HandlerHolds(s, s.handlers[h]))
    && (forall h :: h in s.handlers && s.handlers[h].at.Recording? ==>
          s.handlers[h].task in s.locks && s.locks[s.handlers[h].task] == h)
    && (forall id :: id in s.locks ==> LockHolds(s, id))
  }

  ghost predicate Inv(s: System) {
    && HandlersHold(s)
    && (forall id :: id in s.world.tasks ==> TaskHolds(s, id, s.world.tasks[id]) && WaitHolds(s, id, s.world.tasks[id]))
    && LogHolds(s.log, s.world.approvals)
  }

  /** No step rewrites what was asked, nor an answer once it is stored. */
  predicate Grows(before: map<ApprovalId, Approval>, after: map<ApprovalId, Approval>) {
    forall id :: id in before ==>
      && id in after
      && after[id].task == before[id].task && after[id].expires == before[id].expires
      && (before[id].status != PENDING ==> after[id] == before[id])
  }

  lemma StepGrows(s: System, step: Step)
    ensures Grows(s.world.approvals, Next(s, step).world.approvals)
  {
    if step.Advance? && step.h in s.handlers {
      AdvanceGrows(s, step.h, step.now, step.clockWentBack);
    }
  }

  lemma AdvanceGrows(s: System, h: HandlerId, now: int, clockWentBack: bool)
    requires h in s.handlers
    ensures Grows(s.world.approvals, Advanced(s, h, now, clockWentBack).world.approvals)
  {
  }

  lemma {:induction false} RunGrows(s: System, steps: seq<Step>)
    ensures Grows(s.world.approvals, Run(s, steps).world.approvals)
    decreases |steps|
  {
    if steps != [] {
      StepGrows(s, steps[0]);
      RunGrows(Next(s, steps[0]), steps[1..]);
    }
  }

  lemma StepKeepsLog(s: System, step: Step)
    requires Inv(s)
    ensures LogHolds(Next(s, step).log, Next(s, step).world.approvals)
  {
    if step.Advance? && step.h in s.handlers {
      AdvanceKeepsLog(s, step.h, step.now, step.clockWentBack);
    } else {
      StepGrows(s, step);
      LogKept(s.log, s.world.approvals, Next(s, step).world.approvals);
    }
  }

  lemma AdvanceKeepsLog(s: System, h: HandlerId, now: int, clockWentBack: bool)
    requires Inv(s) && h in s.handlers
    ensures LogHolds(Advanced(s, h, now, clockWentBack).log, Advanced(s, h, now, clockWentBack).world.approvals)
  {
    var handler, t := s.handlers[h], Advanced(s, h, now, clockWentBack);
    assert HandlerHolds(s, handler);
    if t.log != s.log {
      if handler.at.Responding? {
        LogStores(s.log, s.world.approvals, handler.id, StatusOf(handler.yes));
      } else {
        var waited := WaitsFor(s.world.tasks[handler.task]);
        LogMoves(s.log, s.world.approvals, MovedBy(handler.task, handler.id, handler.yes, waited));
      }
    }
  }

  /** A step of another handler, or of the engine, leaves a handler what it holds. */
  lemma HandlerKeeps(s: System, t: System, handler: Handler)
    requires HandlerHolds(s, handler) && Grows(s.world.approvals, t.world.approvals)
    requires handler.at.Recording? && handler.task in s.world.tasks ==>
               handler.task in t.world.tasks && t.world.tasks[handler.task].state == s.world.tasks[handler.task].state
    ensures HandlerHolds(t, handler)
  {
  }

  lemma TaskKeeps(s: System, t: System, id: TaskId, task: Task)
    requires Grows(s.world.approvals, t.world.approvals)
    ensures TaskHolds(s, id, task) ==> TaskHolds(t, id, task)
    ensures WaitHolds(s, id, task) ==> WaitHolds(t, id, task)
  {
  }

  /** What a step may do to the tasks and the locks. */
  datatype Effect = Nothing | Locked(task: TaskId) | Recorded(task: TaskId)

  /** `t` follows `s` by one step of handler `h`: nothing else of the handlers changes, and the tasks
      and the locks change as `effect` says. */
  ghost predicate Follows(s: System, t: System, h: HandlerId, effect: Effect) {
    && h in s.handlers && t.handlers.Keys == s.handlers.Keys
    && (forall k :: k in s.handlers && k != h ==> t.handlers[k] == s.handlers[k])
    && t.handlers[h] == s.handlers[h].(at := t.handlers[h].at)
    && match effect
       case Nothing =>
         t.world.tasks == s.world.tasks && t.locks == s.locks
         && (t.handlers[h].at.Recording? <==> s.handlers[h].at.Recording?)
       case Locked(task) =>
         && task == s.handlers[h].task && task in s.world.tasks && task !in s.locks
         && t.locks == s.locks[task := h] && t.handlers[h].at.Recording?
         && t.world.tasks == s.world.tasks[task :=
              Task(Target(OperationOf(s.handlers[h].yes)), s.world.tasks[task].last)]
         && t.world.approvals == s.world.approvals && s.handlers[h].at.Moving?
       case Recorded(task) =>
         && task == s.handlers[h].task && task in s.world.tasks && s.handlers[h].at.Recording?
         && t.locks == s.locks - {task} && t.handlers[h].at.Finished?
         && t.world.tasks == s.world.tasks[task := Task(s.world.tasks[task].state,
              Some(Change(OperationOf(s.handlers[h].yes), Some(s.handlers[h].id))))]
         && t.world.approvals == s.world.approvals
  }

  lemma AdvanceFollows(s: System, h: HandlerId, now: int, clockWentBack: bool) returns (effect: Effect)
    requires h in s.handlers
    ensures Follows(s, Advanced(s, h, now, clockWentBack), h, effect)
  {
    match s.handlers[h].at {
      case Moving(_) => effect := MoveFollows(s, h, clockWentBack);
      case Recording => effect := RecordFollows(s, h);
      case _ => effect := Nothing;
    }
  }

  lemma MoveFollows(s: System, h: HandlerId, clockWentBack: bool) returns (effect: Effect)
    requires h in s.handlers && s.handlers[h].at.Moving?
    ensures Follows(s, AfterMove(s, h, clockWentBack), h, effect)
  {
    effect := if AfterMove(s, h, clockWentBack).handlers[h].at.Recording? then Locked(s.handlers[h].task) else Nothing;
  }

  lemma RecordFollows(s: System, h: HandlerId) returns (effect: Effect)
    requires h in s.handlers && s.handlers[h].at.Recording?
    ensures Follows(s, AfterRecord(s, h), h, effect)
  {
    effect := if s.handlers[h].task in s.world.tasks then Recorded(s.handlers[h].task) else Nothing;
  }

  lemma FollowerKeepsTasks(s: System, t: System, h: HandlerId, effect: Effect)
    requires Inv(s) && Follows(s, t, h, effect) && Grows(s.world.approvals, t.world.approvals)
    ensures forall id :: id in t.world.tasks ==>
              TaskHolds(t, id, t.world.tasks[id]) && WaitHolds(t, id, t.world.tasks[id])
  {
    forall id | id in t.world.tasks
      ensures TaskHolds(t, id, t.world.tasks[id]) && WaitHolds(t, id, t.world.tasks[id])
    {
      TaskKeeps(s, t, id, s.world.tasks[id]);
      assert HandlerHolds(s, s.handlers[h]);
    }
  }

  lemma FollowerKeepsHandlers(s: System, t: System, h: HandlerId, effect: Effect)
    requires Inv(s) && Follows(s, t, h, effect) && Grows(s.world.approvals, t.world.approvals)
    requires HandlerHolds(t, t.handlers[h])
    ensures HandlersHold(t)
  {
    forall k | k in t.handlers
      ensures HandlerHolds(t, t.handlers[k])
    {
      assert HandlerHolds(s, s.handlers[k]);
      if k != h {
        HandlerKeeps(s, t, s.handlers[k]);
      }
    }
    FollowerKeepsLocks(s, t, h, effect);
  }

  lemma FollowerKeepsLocks(s: System, t: System, h: HandlerId, effect: Effect)
    requires HandlersHold(s) && Follows(s, t, h, effect)
    ensures forall k :: k in t.handlers && t.handlers[k].at.Recording? ==>
              t.handlers[k].task in t.locks && t.locks[t.handlers[k].task] == k
    ensures forall id :: id in t.locks ==> LockHolds(t, id)
  {
    forall id | id in t.locks
      ensures LockHolds(t, id)
    {
      if id in s.locks {
        assert LockHolds(s, id);
      }
    }
  }

  /** A step that is not of a handler, from a world whose tasks it may move outside the locks. */
  lemma AsideKeepsHandlers(s: System, t: System)
    requires Inv(s) && Grows(s.world.approvals, t.world.approvals)
    requires t.locks == s.locks
    requires forall h :: h in s.handlers ==> h in t.handlers && t.handlers[h] == s.handlers[h]
    requires forall h :: h in t.handlers && h !in s.handlers ==> t.handlers[h].at.Getting?
    requires forall id :: id in s.locks && id in s.world.tasks ==>
               id in t.world.tasks && t.world.tasks[id] == s.world.tasks[id]
    ensures HandlersHold(t)
  {
    forall k | k in t.handlers
      ensures HandlerHolds(t, t.handlers[k])
    {
      if k in s.handlers {
        assert HandlerHolds(s, s.handlers[k]);
        HandlerKeeps(s, t, s.handlers[k]);
      }
    }
    forall id | id in t.locks
      ensures LockHolds(t, id)
    {
      assert LockHolds(s, id);
    }
  }

  lemma AsideKeepsTasks(s: System, step: Step)
    requires Inv(s) && !step.Advance?
    ensures var t := Next(s, step);
            forall id :: id in t.world.tasks ==>
              TaskHolds(t, id, t.world.tasks[id]) && WaitHolds(t, id, t.world.tasks[id])
  {
    var t := Next(s, step);
    StepGrows(s, step);
    forall id | id in t.world.tasks
      ensures TaskHolds(t, id, t.world.tasks[id]) && WaitHolds(t, id, t.world.tasks[id])
    {
      if id in s.world.tasks {
        TaskKeeps(s, t, id, s.world.tasks[id]);
      }
    }
  }

  lemma AdvanceHolds(s: System, h: HandlerId, now: int, clockWentBack: bool)
    requires Inv(s) && h in s.handlers
    ensures var t := Advanced(s, h, now, clockWentBack);
            h in t.handlers && HandlerHolds(t, t.handlers[h])
  {
    assert HandlerHolds(s, s.handlers[h]);
    match s.handlers[h].at {
      case Responding => RespondHolds(s, h, now);
      case Moving(_) => MoveHolds(s, h, clockWentBack);
      case _ =>
    }
  }

  lemma RespondHolds(s: System, h: HandlerId, now: int)
    requires h in s.handlers && s.handlers[h].at.Responding? && HandlerHolds(s, s.handlers[h])
    ensures var t := AfterRespond(s, h, now);
            h in t.handlers && HandlerHolds(t, t.handlers[h])
  {
  }

  lemma MoveHolds(s: System, h: HandlerId, clockWentBack: bool)
    requires h in s.handlers && s.handlers[h].at.Moving? && HandlerHolds(s, s.handlers[h])
    ensures var t := AfterMove(s, h, clockWentBack);
            h in t.handlers && HandlerHolds(t, t.handlers[h])
  {
  }

  lemma AdvanceKeepsInv(s: System, h: HandlerId, now: int, clockWentBack: bool)
    requires Inv(s) && h in s.handlers
    ensures HandlersHold(Advanced(s, h, now, clockWentBack))
    ensures var t := Advanced(s, h, now, clockWentBack);
            forall id :: id in t.world.tasks ==>
              TaskHolds(t, id, t.world.tasks[id]) && WaitHolds(t, id, t.world.tasks[id])
  {
    var t := Advanced(s, h, now, clockWentBack);
    AdvanceGrows(s, h, now, clockWentBack);
    var effect := AdvanceFollows(s, h, now, clockWentBack);
    AdvanceHolds(s, h, now, clockWentBack);
    FollowerKeepsTasks(s, t, h, effect);
    FollowerKeepsHandlers(s, t, h, effect);
  }

  lemma AsideKeepsInv(s: System, step: Step)
    requires Inv(s) && !step.Advance? && !step.Crash?
    ensures HandlersHold(Next(s, step))
  {
    StepGrows(s, step);
    AsideKeepsHandlers(s, Next(s, step));
  }

  /** Every step keeps the invariant. */
  lemma StepKeepsInv(s: System, step: Step)
    requires Inv(s)
    ensures Inv(Next(s, step))
  {
    StepKeepsLog(s, step);
    match step {
      case Advance(h, now, clockWentBack) =>
        if h in s.handlers {
          AdvanceKeepsInv(s, h, now, clockWentBack);
        }
      case Crash => AsideKeepsTasks(s, step);
      case _ =>
        AsideKeepsTasks(s, step);
        AsideKeepsInv(s, step);
    }
  }

  lemma {:induction false} RunKeepsInv(s: System, steps: seq<Step>)
    requires Inv(s)
    ensures Inv(Run(s, steps))
    decreases |steps|
  {
    if steps != [] {
      StepKeepsInv(s, steps[0]);
      RunKeepsInv(Next(s, steps[0]), steps[1..]);
    }
  }

  lemma StartHolds()
    ensures Inv(START)
  {
  }

  // ------------------------------------------------------------------------------------------
  // Every run
  // ------------------------------------------------------------------------------------------

  /** One answer, ever: in every run the log holds one answer at most for a request, and once a
      request has left PENDING no continuation changes it. */
  lemma AnsweredOnce(steps: seq<Step>, more: seq<Step>, id: ApprovalId)
    ensures StoredOnce(Run(START, steps).log)
    ensures var s := Run(START, steps);
            id in s.world.approvals && s.world.approvals[id].status != PENDING ==>
              && StoredBefore(s.log, |s.log|, id, s.world.approvals[id].status)
              && id in Run(START, steps + more).world.approvals
              && Run(START, steps + more).world.approvals[id] == s.world.approvals[id]
  {
    StartHolds();
    RunKeepsInv(START, steps);
    RunInTwo(START, steps, more);
    RunGrows(Run(START, steps), more);
  }

  /** In every run, a handler that handed back a task has its own answer in the store, on a request of
      its task. */
  lemma HandedBackIsStored(steps: seq<Step>, h: HandlerId)
    requires h in Run(START, steps).handlers
    requires Run(START, steps).handlers[h].at.Finished? && Run(START, steps).handlers[h].at.answer.Ok?
    ensures IsStored(Run(START, steps), Run(START, steps).handlers[h])
  {
    StartHolds();
    RunKeepsInv(START, steps);
    assert HandlerHolds(Run(START, steps), Run(START, steps).handlers[h]);
  }

  /** Two opposite answers to one request are never both accepted: not together, and not one in a run and
      the other in a continuation of it, crashes included. */
  lemma OppositesAreNeverBothAccepted(steps: seq<Step>, more: seq<Step>, h: HandlerId, k: HandlerId)
    requires h in Run(START, steps).handlers && k in Run(START, steps + more).handlers
    requires Run(START, steps).handlers[h].at.Finished? && Run(START, steps).handlers[h].at.answer.Ok?
    requires Run(START, steps + more).handlers[k].at.Finished? && Run(START, steps + more).handlers[k].at.answer.Ok?
    requires Run(START, steps).handlers[h].id == Run(START, steps + more).handlers[k].id
    ensures Run(START, steps).handlers[h].yes == Run(START, steps + more).handlers[k].yes
  {
    HandedBackIsStored(steps, h);
    HandedBackIsStored(steps + more, k);
    AnsweredOnce(steps, more, Run(START, steps).handlers[h].id);
  }

  /** The store first, the engine after: in every run, whenever an answer moved a task, that same
      answer to a request of that task was stored before, and is in the store for good. */
  lemma EngineMovesAfterTheStore(steps: seq<Step>, j: nat)
    requires j < |Run(START, steps).log| && Run(START, steps).log[j].MovedBy?
    ensures var s := Run(START, steps);
            && StoredBefore(s.log, j, s.log[j].id, StatusOf(s.log[j].yes))
            && s.log[j].id in s.world.approvals
            && s.world.approvals[s.log[j].id].task == s.log[j].task
            && s.world.approvals[s.log[j].id].status == StatusOf(s.log[j].yes)
  {
    StartHolds();
    RunKeepsInv(START, steps);
    var s := Run(START, steps);
    var i :| 0 <= i < j && s.log[i] == Stored(s.log[j].id, StatusOf(s.log[j].yes));
  }

  /** In every run, a task that an answer queued names a GRANTED request of its own, and one that an
      answer denied names a REJECTED one. */
  lemma QueuedIsGranted(steps: seq<Step>, task: TaskId)
    requires task in Run(START, steps).world.tasks
    ensures var s := Run(START, steps);
            var last := s.world.tasks[task].last;
            last.Some? && last.value.operation in {Approve, DenyByApproval} ==>
              && last.value.key.Some? && last.value.key.value in s.world.approvals
              && s.world.approvals[last.value.key.value].task == task
              && s.world.approvals[last.value.key.value].status
                 == (if last.value.operation == Approve then GRANTED else REJECTED)
  {
    StartHolds();
    RunKeepsInv(START, steps);
    assert TaskHolds(Run(START, steps), task, Run(START, steps).world.tasks[task]);
  }

  /** A task that waits is queued or denied by an answer and by nothing else, and at that instant the
      answer is in the store. */
  lemma OnlyAnAnswerEndsTheWait(steps: seq<Step>, step: Step, task: TaskId)
    requires task in Run(START, steps).world.tasks
    requires Run(START, steps).world.tasks[task].state == WAITING_APPROVAL
    ensures task in Next(Run(START, steps), step).world.tasks
    ensures EndsTheWait(Run(START, steps), Next(Run(START, steps), step), task)
  {
    StartHolds();
    RunKeepsInv(START, steps);
    WaitEndsByAnswer(Run(START, steps), step, task);
  }

  lemma WaitEndsByAnswer(s: System, step: Step, task: TaskId)
    requires Inv(s) && task in s.world.tasks && s.world.tasks[task].state == WAITING_APPROVAL
    ensures task in Next(s, step).world.tasks && EndsTheWait(s, Next(s, step), task)
  {
    if step.Advance? {
      if step.h in s.handlers {
        WaitEndsByAdvance(s, step.h, step.now, step.clockWentBack, task);
      }
    } else {
      WaitGoesOnAside(s, step, task);
    }
  }

  /** Nothing but an answer takes a waiting task to QUEUED or DENIED. */
  lemma WaitGoesOnAside(s: System, step: Step, task: TaskId)
    requires !step.Advance? && task in s.world.tasks && s.world.tasks[task].state == WAITING_APPROVAL
    ensures task in Next(s, step).world.tasks && Next(s, step).world.tasks[task].state !in {QUEUED, DENIED}
    ensures Next(s, step).log == s.log
  {
  }

  /** The step logged a move of the task by an answer. */
  predicate LogsAMove(s: System, t: System, task: TaskId) {
    |t.log| == |s.log| + 1 && t.log[|s.log|].MovedBy? && t.log[|s.log|].task == task
  }

  /** The task left for QUEUED or DENIED exactly when the step is the engine's move for a stored answer:
      for QUEUED by a yes, for DENIED by a no. */
  predicate EndsTheWait(s: System, t: System, task: TaskId)
    requires task in t.world.tasks
  {
    && (t.world.tasks[task].state in {QUEUED, DENIED} <==> LogsAMove(s, t, task))
    && (LogsAMove(s, t, task) ==>
          var event := t.log[|s.log|];
          && t.world.tasks[task].state == (if event.yes then QUEUED else DENIED)
          && event.id in s.world.approvals
          && s.world.approvals[event.id].status == (if event.yes then GRANTED else REJECTED))
  }

  lemma WaitEndsByAdvance(s: System, h: HandlerId, now: int, clockWentBack: bool, task: TaskId)
    requires Inv(s) && h in s.handlers
    requires task in s.world.tasks && s.world.tasks[task].state == WAITING_APPROVAL
    ensures task in Advanced(s, h, now, clockWentBack).world.tasks
    ensures EndsTheWait(s, Advanced(s, h, now, clockWentBack), task)
  {
    assert HandlerHolds(s, s.handlers[h]);
    var effect := AdvanceFollows(s, h, now, clockWentBack);
    if s.handlers[h].at.Moving? {
      assert Advanced(s, h, now, clockWentBack) == AfterMove(s, h, clockWentBack);
    }
  }

  /** In every run, a move by an answer is of a task that waited, and leaves it QUEUED when the answer is a
      yes and DENIED when it is a no; of the tasks nothing else changes. */
  lemma AMoveLeavesItThere(steps: seq<Step>, step: Step)
    requires var s := Run(START, steps);
             |Next(s, step).log| == |s.log| + 1 && Next(s, step).log[|s.log|].MovedBy?
    ensures var s := Run(START, steps);
            var event := Next(s, step).log[|s.log|];
            && event.task in s.world.tasks && s.world.tasks[event.task].state == WAITING_APPROVAL
            && Next(s, step).world.tasks
               == s.world.tasks[event.task :=
                    s.world.tasks[event.task].(state := if event.yes then QUEUED else DENIED)]
  {
    var s := Run(START, steps);
    MovesAreLogged(s, step.h, step.clockWentBack);
  }

  lemma MovesAreLogged(s: System, h: HandlerId, clockWentBack: bool)
    requires h in s.handlers && AfterMove(s, h, clockWentBack).log != s.log
    ensures var t, handler := AfterMove(s, h, clockWentBack), s.handlers[h];
            && handler.task in s.world.tasks && s.world.tasks[handler.task].state == WAITING_APPROVAL
            && t.log == s.log + [MovedBy(handler.task, handler.id, handler.yes, WaitsFor(s.world.tasks[handler.task]))]
            && t.world.tasks
               == s.world.tasks[handler.task :=
                    s.world.tasks[handler.task].(state := if handler.yes then QUEUED else DENIED)]
  {
  }

  /** What the engine does when a handler tells it: a task that waits is moved, one that the same answer has
      moved is handed back, and any other is refused. */
  lemma TheEngineDecides(s: System, h: HandlerId, now: int)
    requires h in s.handlers && s.handlers[h].at.Moving?
    requires s.handlers[h].task in s.world.tasks && s.handlers[h].task !in s.locks
    ensures var handler := s.handlers[h];
            var task, t := s.world.tasks[handler.task], Advanced(s, h, now, false);
            && (task.state == WAITING_APPROVAL ==>
                  t.handlers[h].at == Recording && LogsAMove(s, t, handler.task))
            && (task == MovedTask(handler.yes, handler.id) ==>
                  t == Finish(s, h, Ok(if handler.yes then QUEUED else DENIED)))
            && (task.state != WAITING_APPROVAL && task != MovedTask(handler.yes, handler.id) ==>
                  t == Finish(s, h, Err(EngineRefused)))
  {
  }

  /** A step takes a task from one state to another only along the table, and a task is never forgotten: what
      has ended stays as it ended. */
  lemma StepsFollowTheTable(s: System, step: Step, task: TaskId)
    requires task in s.world.tasks
    ensures task in Next(s, step).world.tasks
    ensures var before, after := s.world.tasks[task].state, Next(s, step).world.tasks[task].state;
            after == before || after in Transitions(before)
  {
    if step.Advance? && step.h in s.handlers {
      var effect := AdvanceFollows(s, step.h, step.now, step.clockWentBack);
      if s.handlers[step.h].at.Moving? && AfterMove(s, step.h, step.clockWentBack).log != s.log {
        MovesAreLogged(s, step.h, step.clockWentBack);
      }
    } else if step.Ask? {
      OperationTransits(s, task, step.task, Change(RequestApproval, Some(step.id)), step.recorded);
    } else if step.Otherwise? {
      OperationTransits(s, task, step.task, Change(step.operation, None), step.recorded);
    }
  }

  lemma OperationTransits(s: System, task: TaskId, id: TaskId, change: Change, recorded: bool)
    requires task in s.world.tasks
    ensures task in Applied(s, id, change, recorded).world.tasks
    ensures var before, after := s.world.tasks[task].state, Applied(s, id, change, recorded).world.tasks[task].state;
            after == before || after in Transitions(before)
  {
    if s.world.tasks[task].state in Sources(change.operation) {
      OperationsAreTransitions(s.world.tasks[task].state, change.operation);
    }
  }

  /** A task that has ended, for whatever reason, never leaves its state, whatever comes after. */
  lemma {:induction false} EndedIsForGood(s: System, more: seq<Step>, task: TaskId)
    requires task in s.world.tasks
    requires s.world.tasks[task].state in {COMPLETED, FAILED, CANCELLED, DENIED, TaskState.EXPIRED}
    ensures task in Run(s, more).world.tasks && Run(s, more).world.tasks[task].state == s.world.tasks[task].state
    decreases |more|
  {
    if more != [] {
      StepsFollowTheTable(s, more[0], task);
      EndedIsForGood(Next(s, more[0]), more[1..], task);
    }
  }

  /** In every run, an answer that ends a wait leaves the awaited request answered exactly when it is
      the request it names, or somebody had answered it. */
  lemma WaitEndsOnItsOwnAnswer(steps: seq<Step>, step: Step)
    requires var s := Run(START, steps);
             |Next(s, step).log| == |s.log| + 1 && Next(s, step).log[|s.log|].MovedBy?
             && Next(s, step).log[|s.log|].waited.Some?
    ensures var s := Run(START, steps);
            var event := Next(s, step).log[|s.log|];
            && event.waited.value in s.world.approvals
            && (Next(s, step).world.approvals[event.waited.value].status != PENDING
                <==> event.id == event.waited.value || s.world.approvals[event.waited.value].status != PENDING)
  {
    StartHolds();
    RunKeepsInv(START, steps);
    var s := Run(START, steps);
    var handler := s.handlers[step.h];
    assert HandlerHolds(s, handler) && handler.at.Moving?;
    assert WaitHolds(s, handler.task, s.world.tasks[handler.task]);
  }

  // ------------------------------------------------------------------------------------------
  // Alone, and after a crash
  // ------------------------------------------------------------------------------------------

  /** One handler, and nothing else. */
  function Alone(world: World, task: TaskId, id: ApprovalId, yes: bool): System {
    System(world, map[0 := Handler(task, id, yes, Getting)], map[], [])
  }

  /** The handler runs through `n` awaits, and nothing else happens. */
  function Advances(s: System, now: int, n: nat): System
    decreases n
  {
    if n == 0 || 0 !in s.handlers then s else Advances(Advanced(s, 0, now, false), now, n - 1)
  }

  /** Left alone, a handler does what `Answer` says, in at most six awaits. */
  lemma AloneItAnswers(world: World, task: TaskId, id: ApprovalId, yes: bool, now: int)
    ensures var s := Advances(Alone(world, task, id, yes), now, 6);
            && s.world == Answer(world, task, id, yes, now).0
            && 0 in s.handlers && s.handlers[0].at == Finished(Answer(world, task, id, yes, now).1)
  {
    var s1 := Advanced(Alone(world, task, id, yes), 0, now, false);
    var s2 := Advanced(s1, 0, now, false);
    FinishedStays(s1, now, 5);
    FinishedStays(s2, now, 4);
    if s2.handlers[0].at.Responding? {
      AloneItResponds(s2, now);
    }
  }

  lemma {:induction false} FinishedStays(s: System, now: int, n: nat)
    requires 0 in s.handlers
    ensures s.handlers[0].at.Finished? ==> Advances(s, now, n) == s
    decreases n
  {
    if n > 0 && s.handlers[0].at.Finished? {
      FinishedStays(s, now, n - 1);
    }
  }

  /** The second half of an answer, from the await on `respond`. */
  lemma AloneItResponds(s: System, now: int)
    requires 0 in s.handlers && s.handlers[0].at.Responding? && s.locks == map[]
    requires s.handlers[0].id in s.world.approvals && s.world.approvals[s.handlers[0].id].task == s.handlers[0].task
    requires s.handlers[0].task in s.world.tasks && s.world.tasks[s.handlers[0].task].state == WAITING_APPROVAL
    ensures var handler := s.handlers[0];
            var answer := Answer(s.world, handler.task, handler.id, handler.yes, now);
            var t := Advances(s, now, 4);
            && t.world == answer.0 && 0 in t.handlers && t.handlers[0].at == Finished(answer.1)
  {
    var s1 := Advanced(s, 0, now, false);
    var s2 := Advanced(s1, 0, now, false);
    FinishedStays(s1, now, 3);
    FinishedStays(s2, now, 2);
    if s1.handlers[0].at.Moving? {
      AloneItMoves(s1, now, 1);
    } else if s2.handlers[0].at.Moving? {
      AloneItMoves(s2, now, 0);
    }
  }

  lemma AloneItMoves(s: System, now: int, spare: nat)
    requires 0 in s.handlers && s.handlers[0].at.Moving? && s.locks == map[]
    requires s.handlers[0].task in s.world.tasks && s.world.tasks[s.handlers[0].task].state == WAITING_APPROVAL
    ensures var handler := s.handlers[0];
            var (tasks, answer) := Move(s.world.tasks, handler.task, handler.id, handler.yes);
            var t := Advances(s, now, 2 + spare);
            && t.world == World(s.world.approvals, tasks) && 0 in t.handlers && t.handlers[0].at == Finished(answer)
  {
    var s1 := Advanced(s, 0, now, false);
    var s2 := Advanced(s1, 0, now, false);
    FinishedStays(s2, now, spare);
    assert Advances(s, now, 2 + spare) == Advances(s1, now, 1 + spare) == Advances(s2, now, spare);
  }

  /** The same requests, and every task in the same state; which operation was last recorded of a task
      may differ. */
  predicate Alike(a: World, b: World) {
    && a.approvals == b.approvals && a.tasks.Keys == b.tasks.Keys
    && forall task :: task in a.tasks ==> a.tasks[task].state == b.tasks[task].state
  }

  /** What a handler leaves behind when the process stops after `n` awaits. */
  function LeftBehind(world: World, task: TaskId, id: ApprovalId, yes: bool, now: int, n: nat): World {
    Advances(Alone(world, task, id, yes), now, n).world
  }

  /** How far an answer has come from `world`, by the await its handler is at. */
  predicate Underway(world: World, s: System, now: int) {
    0 in s.handlers &&
    var handler := s.handlers[0];
    var whole := Answer(world, handler.task, handler.id, handler.yes, now);
    match handler.at
    case Getting => s.world == world && s.locks == map[]
    case ReadingTask(found) =>
      s.world == world && s.locks == map[]
      && handler.id in world.approvals && world.approvals[handler.id] == found && found.task == handler.task
    case Responding => s.world == world && s.locks == map[] && AtTheDoor(world, handler)
    case GettingAgain =>
      s.world == world && s.locks == map[] && AtTheDoor(world, handler) && world.approvals[handler.id].status != PENDING
    case Moving(_) =>
      && AtTheDoor(world, handler) && s.locks == map[]
      && s.world == World(whole.0.approvals, world.tasks)
      && s.world.approvals[handler.id].status == StatusOf(handler.yes)
    case Recording =>
      && AtTheDoor(world, handler) && whole.1.Ok?
      && s.world == World(whole.0.approvals, world.tasks[handler.task :=
                            world.tasks[handler.task].(state := Target(OperationOf(handler.yes)))])
    case Finished(answer) => s.world == whole.0 && answer == whole.1
  }

  predicate AtTheDoor(world: World, handler: Handler) {
    && handler.id in world.approvals && world.approvals[handler.id].task == handler.task
    && handler.task in world.tasks && world.tasks[handler.task].state == WAITING_APPROVAL
  }

  lemma StaysUnderway(world: World, s: System, now: int)
    requires Underway(world, s, now)
    ensures Underway(world, Advanced(s, 0, now, false), now)
    ensures Advanced(s, 0, now, false).handlers[0] == s.handlers[0].(at := Advanced(s, 0, now, false).handlers[0].at)
  {
    match s.handlers[0].at {
      case Responding => RespondStaysUnderway(world, s, now);
      case Moving(_) => MoveStaysUnderway(world, s, now);
      case _ =>
    }
  }

  lemma RespondStaysUnderway(world: World, s: System, now: int)
    requires Underway(world, s, now) && s.handlers[0].at.Responding?
    ensures Underway(world, AfterRespond(s, 0, now), now)
  {
  }

  lemma MoveStaysUnderway(world: World, s: System, now: int)
    requires Underway(world, s, now) && s.handlers[0].at.Moving?
    ensures Underway(world, AfterMove(s, 0, false), now)
  {
  }

  lemma {:induction false} AdvancesStayUnderway(world: World, s: System, now: int, n: nat)
    requires Underway(world, s, now)
    ensures Underway(world, Advances(s, now, n), now)
    ensures Advances(s, now, n).handlers[0] == s.handlers[0].(at := Advances(s, now, n).handlers[0].at)
    decreases n
  {
    if n > 0 {
      StaysUnderway(world, s, now);
      AdvancesStayUnderway(world, Advanced(s, 0, now, false), now, n - 1);
    }
  }

  /** Wherever the process stopped, it left nothing behind, or the same answer given again, whenever
      that is, ends where the first would have, with the same word. */
  lemma OneCrash(world: World, task: TaskId, id: ApprovalId, yes: bool, now: int, n: nat, later: int)
    ensures var left := LeftBehind(world, task, id, yes, now, n);
            left == world ||
            (&& Alike(Answer(left, task, id, yes, later).0, Answer(world, task, id, yes, now).0)
             && Answer(left, task, id, yes, later).1 == Answer(world, task, id, yes, now).1)
  {
    var s := Alone(world, task, id, yes);
    AdvancesStayUnderway(world, s, now, n);
    RepeatFromUnderway(world, Advances(s, now, n), now, later);
  }

  lemma RepeatFromUnderway(world: World, s: System, now: int, later: int)
    requires Underway(world, s, now)
    ensures var handler := s.handlers[0];
            var again := Answer(s.world, handler.task, handler.id, handler.yes, later);
            var whole := Answer(world, handler.task, handler.id, handler.yes, now);
            s.world == world || (Alike(again.0, whole.0) && again.1 == whole.1)
  {
    match s.handlers[0].at {
      case Moving(_) => RepeatFromMoving(world, s, now, later);
      case Recording => RepeatFromRecording(world, s, now, later);
      case Finished(_) => RepeatFromTheEnd(world, s, now, later);
      case _ =>
    }
  }

  lemma RepeatFromMoving(world: World, s: System, now: int, later: int)
    requires Underway(world, s, now) && s.handlers[0].at.Moving?
    ensures var handler := s.handlers[0];
            Answer(s.world, handler.task, handler.id, handler.yes, later)
            == Answer(world, handler.task, handler.id, handler.yes, now)
  {
  }

  lemma RepeatFromRecording(world: World, s: System, now: int, later: int)
    requires Underway(world, s, now) && s.handlers[0].at.Recording?
    ensures var handler := s.handlers[0];
            var again := Answer(s.world, handler.task, handler.id, handler.yes, later);
            var whole := Answer(world, handler.task, handler.id, handler.yes, now);
            Alike(again.0, whole.0) && again.1 == whole.1 && again.0 == s.world
  {
  }

  lemma RepeatFromTheEnd(world: World, s: System, now: int, later: int)
    requires Underway(world, s, now) && s.handlers[0].at.Finished?
    ensures var handler := s.handlers[0];
            s.world == world ||
            Answer(s.world, handler.task, handler.id, handler.yes, later)
            == Answer(world, handler.task, handler.id, handler.yes, now)
  {
    var handler := s.handlers[0];
    if Answer(world, handler.task, handler.id, handler.yes, now).1.Ok? {
      RepeatsChangeNothing(world, handler.task, handler.id, handler.yes, now, []);
    }
  }

  /** An attempt at an answer: when it was made, and after how many awaits it stopped. */
  datatype Attempt = Attempt(now: int, stop: nat)

  function LeftBehindByAll(world: World, task: TaskId, id: ApprovalId, yes: bool, attempts: seq<Attempt>): World
    decreases |attempts|
  {
    if attempts == [] then world
    else
      var left := LeftBehind(world, task, id, yes, attempts[0].now, attempts[0].stop);
      LeftBehindByAll(left, task, id, yes, attempts[1..])
  }

  /** The instant an answer is given at: that of the first attempt that left anything behind, or that
      of the last one, which goes through. */
  function GivenAt(world: World, task: TaskId, id: ApprovalId, yes: bool, attempts: seq<Attempt>, last: int): int
    decreases |attempts|
  {
    if attempts == [] then last
    else if LeftBehind(world, task, id, yes, attempts[0].now, attempts[0].stop) != world then attempts[0].now
    else GivenAt(world, task, id, yes, attempts[1..], last)
  }

  /** Crash repair: however many attempts at an answer stopped, wherever each of them did and whenever it
      was made, the attempt that goes through leaves the requests and the states of the tasks that one
      undisturbed attempt would have left, made when the first of them reached the store, or else at the
      last instant; and it hands back the same word. */
  lemma {:induction false} CrashesAreRepaired(world: World, task: TaskId, id: ApprovalId, yes: bool,
                                              attempts: seq<Attempt>, last: int)
    ensures var left := LeftBehindByAll(world, task, id, yes, attempts);
            var whole := Answer(world, task, id, yes, GivenAt(world, task, id, yes, attempts, last));
            && Alike(Answer(left, task, id, yes, last).0, whole.0)
            && Answer(left, task, id, yes, last).1 == whole.1
    decreases |attempts|
  {
    if attempts != [] {
      var first := attempts[0];
      var left := LeftBehind(world, task, id, yes, first.now, first.stop);
      CrashesAreRepaired(left, task, id, yes, attempts[1..], last);
      OneCrash(world, task, id, yes, first.now, first.stop, GivenAt(left, task, id, yes, attempts[1..], last));
    }
  }

  /** Two attempts at an answer, alone and at two instants, end alike exactly when both or neither find the
      request open: PENDING, on time, and its task waiting. */
  lemma TwoInstants(world: World, task: TaskId, id: ApprovalId, yes: bool, a: int, b: int)
    ensures EndsAlike(Answer(world, task, id, yes, a), Answer(world, task, id, yes, b))
       <==> Answerable(world, task, id, a) == Answerable(world, task, id, b)
  {
    AnswerWritesWhatIsShown(world, task, id, yes, a);
    AnswerWritesWhatIsShown(world, task, id, yes, b);
  }

  /** The same requests, the same states of the tasks, and the same word. */
  predicate EndsAlike(a: (World, Answered), b: (World, Answered)) {
    Alike(a.0, b.0) && a.1 == b.1
  }

  /** After one attempt that stopped, a repeat ends where that attempt would have exactly when it left
      something behind, or the request is as open at the repeat as it was then. */
  lemma TheRepeatEndsAsTheFirstExactly(world: World, task: TaskId, id: ApprovalId, yes: bool, now: int, n: nat,
                                       later: int)
    ensures EndsAlike(Answer(LeftBehind(world, task, id, yes, now, n), task, id, yes, later),
                      Answer(world, task, id, yes, now))
       <==> || LeftBehind(world, task, id, yes, now, n) != world
            || Answerable(world, task, id, now) == Answerable(world, task, id, later)
  {
    OneCrash(world, task, id, yes, now, n, later);
    TwoInstants(world, task, id, yes, later, now);
  }

  /** After any attempts that stopped, the one that goes through ends where the first would have exactly
      when the request was as open at the instant the answer is given at as it was at the first. */
  lemma TheLastEndsAsTheFirstExactly(world: World, task: TaskId, id: ApprovalId, yes: bool, attempts: seq<Attempt>,
                                     last: int)
    requires attempts != []
    ensures EndsAlike(Answer(LeftBehindByAll(world, task, id, yes, attempts), task, id, yes, last),
                      Answer(world, task, id, yes, attempts[0].now))
       <==> Answerable(world, task, id, attempts[0].now)
            == Answerable(world, task, id, GivenAt(world, task, id, yes, attempts, last))
  {
    CrashesAreRepaired(world, task, id, yes, attempts, last);
    TwoInstants(world, task, id, yes, GivenAt(world, task, id, yes, attempts, last), attempts[0].now);
  }

  /** The clock decides: a request that expires while an attempt is stopped before the store is refused
      to the next one, though the first would have been in time. */
  lemma ALateRetryIsRefused()
    ensures var world := World(map[1 := Approval(0, PENDING, Some(10))],
                               map[0 := Task(WAITING_APPROVAL, Some(Change(RequestApproval, Some(1))))]);
            && LeftBehind(world, 0, 1, true, 5, 2) == world
            && Answer(world, 0, 1, true, 5).1 == Ok(QUEUED)
            && Answer(LeftBehind(world, 0, 1, true, 5, 2), 0, 1, true, 15) == (world, Err(TooLate))
  {
    var world := World(map[1 := Approval(0, PENDING, Some(10))],
                       map[0 := Task(WAITING_APPROVAL, Some(Change(RequestApproval, Some(1))))]);
    var s := Alone(world, 0, 1, true);
    var s1 := Advanced(s, 0, 5, false);
    var s2 := Advanced(s1, 0, 5, false);
    assert Advances(s, 5, 2) == Advances(s1, 5, 1) == Advances(s2, 5, 0) == s2;
  }

  predicate StopsBetweenTheWrites(world: World, task: TaskId, id: ApprovalId, yes: bool, now: int, n: nat) {
    var s := Advances(Alone(world, task, id, yes), now, n);
    0 in s.handlers && s.handlers[0].at.Recording?
  }

  /** What a crash loses for good: the record of the operation. A repeat leaves the very world that the
      undisturbed attempt would have left exactly when the process did not stop between the two writes
      of the engine, or the operation was the one already recorded. */
  lemma TheRecordIsLostBetweenTheWrites(world: World, task: TaskId, id: ApprovalId, yes: bool, now: int, n: nat,
                                        later: int)
    requires LeftBehind(world, task, id, yes, now, n) != world
    ensures task in world.tasks
    ensures Answer(LeftBehind(world, task, id, yes, now, n), task, id, yes, later).0
            == Answer(world, task, id, yes, now).0
       <==> || !StopsBetweenTheWrites(world, task, id, yes, now, n)
            || world.tasks[task].last == Some(Change(OperationOf(yes), Some(id)))
  {
    var s := Advances(Alone(world, task, id, yes), now, n);
    AdvancesStayUnderway(world, Alone(world, task, id, yes), now, n);
    match s.handlers[0].at {
      case Moving(_) => RepeatFromMoving(world, s, now, later);
      case Recording => RepeatFromRecording(world, s, now, later);
      case Finished(_) => RepeatFromTheEnd(world, s, now, later);
      case _ =>
    }
  }
}
