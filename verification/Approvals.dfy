/**
 The user's answer to a request for consent (src/ela/api/approvals.py), with the two contracts it
 stands on: `respond` of the store and the operations of the engine.

 The store holds the requests and the engine the tasks. The answer is stored first and the engine
 moves after; this module is one request handled alone. Requests handled together, and crashes,
 are the subject of `AnswerProtocol`.
 */
module Approvals {
  import opened Options

  type TaskId = nat
  type ApprovalId = nat

  datatype TaskState =
    CREATED | PLANNING | WAITING_APPROVAL | QUEUED | EXECUTING
    | COMPLETED | FAILED | CANCELLED | DENIED | EXPIRED

  datatype Status = PENDING | GRANTED | REJECTED | EXPIRED

  datatype Operation =
    | StartPlanning | RequestApproval | Approve | DenyByApproval | DenyByDecision | Queue | Start
    | Complete | Fail | Cancel | Expire | Recover | DenyByCap | DenyByPlanning

  /** A request: the task it is about, where it stands, and the instant from which it cannot be
      answered. */
  datatype Approval = Approval(task: TaskId, status: Status, expires: Option<int>)

  /** The operation that last moved a task, and the request it was applied with. */
  datatype Change = Change(operation: Operation, key: Option<ApprovalId>)

  datatype Task = Task(state: TaskState, last: Option<Change>)

  datatype World = World(approvals: map<ApprovalId, Approval>, tasks: map<TaskId, Task>)

  datatype Refusal = NotFound | AlreadyAnswered | TooLate | EngineRefused

  /** The state of the task handed back, or why there is none. */
  type Answered = Result<TaskState, Refusal>

  // ------------------------------------------------------------------------------------------
  // The engine
  // ------------------------------------------------------------------------------------------

  const LIVE: set<TaskState> := {CREATED, PLANNING, WAITING_APPROVAL, QUEUED, EXECUTING}

  function Sources(operation: Operation): set<TaskState> {
    match operation
    case StartPlanning => {CREATED}
    case RequestApproval => {PLANNING, EXECUTING}
    case Approve => {WAITING_APPROVAL}
    case DenyByApproval => {WAITING_APPROVAL}
    case DenyByDecision => {PLANNING, EXECUTING}
    case Queue => {PLANNING, EXECUTING}
    case Start => {QUEUED}
    case Complete => {EXECUTING}
    case Fail => {PLANNING, EXECUTING}
    case Cancel => LIVE
    case Expire => LIVE
    case Recover => {EXECUTING}
    case DenyByCap => {EXECUTING}
    case DenyByPlanning => {PLANNING}
  }

  function Target(operation: Operation): TaskState {
    match operation
    case StartPlanning => PLANNING
    case RequestApproval => WAITING_APPROVAL
    case Approve => QUEUED
    case DenyByApproval => DENIED
    case DenyByDecision => DENIED
    case Queue => QUEUED
    case Start => EXECUTING
    case Complete => COMPLETED
    case Fail => FAILED
    case Cancel => CANCELLED
    case Expire => TaskState.EXPIRED
    case Recover => FAILED
    case DenyByCap => DENIED
    case DenyByPlanning => DENIED
  }

  /** The transitions of a task (src/ela/tasks/state_machine.py): the states one may move to. */
  function Transitions(state: TaskState): set<TaskState> {
    match state
    case CREATED => {PLANNING, CANCELLED, TaskState.EXPIRED}
    case PLANNING => {WAITING_APPROVAL, QUEUED, FAILED, DENIED, CANCELLED, TaskState.EXPIRED}
    case WAITING_APPROVAL => {QUEUED, DENIED, CANCELLED, TaskState.EXPIRED}
    case QUEUED => {EXECUTING, CANCELLED, TaskState.EXPIRED}
    case EXECUTING => {COMPLETED, FAILED, WAITING_APPROVAL, QUEUED, DENIED, CANCELLED, TaskState.EXPIRED}
    case _ => {}
  }

  lemma OperationsAreTransitions(state: TaskState, operation: Operation)
    requires state in Sources(operation)
    ensures Target(operation) in Transitions(state)
  {
  }

  /** What may be done to a task in each state. */
  lemma WhatMayBeDone(state: TaskState, operation: Operation)
    ensures state in Sources(operation)
       <==> match state
            case CREATED => operation in {StartPlanning, Cancel, Expire}
            case PLANNING =>
              operation in {RequestApproval, DenyByDecision, DenyByPlanning, Queue, Fail, Cancel, Expire}
            case WAITING_APPROVAL => operation in {Approve, DenyByApproval, Cancel, Expire}
            case QUEUED => operation in {Start, Cancel, Expire}
            case EXECUTING =>
              operation in {RequestApproval, DenyByDecision, DenyByCap, Queue, Complete, Fail, Recover, Cancel, Expire}
            case _ => false
  {
  }

  /** The operation that makes a transition of the table. */
  function OperationFor(state: TaskState, target: TaskState): Operation
    requires target in Transitions(state)
  {
    match target
    case PLANNING => StartPlanning
    case WAITING_APPROVAL => RequestApproval
    case QUEUED => if state == WAITING_APPROVAL then Approve else Queue
    case EXECUTING => Start
    case COMPLETED => Complete
    case FAILED => Fail
    case CANCELLED => Cancel
    case EXPIRED => Expire
    case _ => if state == WAITING_APPROVAL then DenyByApproval else DenyByDecision
  }

  /** The operations of the engine make the transitions of the table, all of them and no other. */
  lemma TheOperationsMakeTheTable(state: TaskState, target: TaskState)
    ensures target in Transitions(state)
       <==> exists operation :: state in Sources(operation) && Target(operation) == target
  {
    if target in Transitions(state) {
      assert state in Sources(OperationFor(state, target)) && Target(OperationFor(state, target)) == target;
    } else if operation :| state in Sources(operation) && Target(operation) == target {
      OperationsAreTransitions(state, operation);
    }
  }

  /** What the engine finds when it is asked for an operation with a key: a move to make, an
      operation already applied with that key, or a refusal. */
  datatype Verdict = Moves | Already | Refuses

  function VerdictOf(task: Task, change: Change): Verdict {
    if task.state == Target(change.operation) then
      (if task.last == Some(change) then Already else Refuses)
    else if task.state !in Sources(change.operation) then Refuses
    else Moves
  }

  // ------------------------------------------------------------------------------------------
  // The store
  // ------------------------------------------------------------------------------------------

  predicate HasExpired(approval: Approval, now: int) {
    approval.expires.Some? && approval.expires.value <= now
  }

  /** `respond`: one conditional update, and the reason when it touches nothing. */
  function Respond(approvals: map<ApprovalId, Approval>, id: ApprovalId, status: Status, now: int)
    : (r: (map<ApprovalId, Approval>, Result<Approval, Refusal>))
    ensures r.1.Ok? <==> && id in approvals && approvals[id].status == PENDING
                         && (approvals[id].expires.Some? ==> now < approvals[id].expires.value)
    ensures r.1.Ok? ==> r.0 == approvals[id := approvals[id].(status := status)] && r.1.value == r.0[id]
    ensures r.1.Err? ==> r.0 == approvals
    ensures id !in approvals ==> r.1 == Err(NotFound)
    ensures id in approvals && r.1.Err? ==>
              r.1 == Err(if approvals[id].status != PENDING then AlreadyAnswered else TooLate)
  {
    if id !in approvals then (approvals, Err(NotFound))
    else if approvals[id].status != PENDING then (approvals, Err(AlreadyAnswered))
    else if HasExpired(approvals[id], now) then (approvals, Err(TooLate))
    else
      var answered := approvals[id].(status := status);
      (approvals[id := answered], Ok(answered))
  }

  // ------------------------------------------------------------------------------------------
  // One answer, handled alone
  // ------------------------------------------------------------------------------------------

  function StatusOf(yes: bool): Status {
    if yes then GRANTED else REJECTED
  }

  function OperationOf(yes: bool): Operation {
    if yes then Approve else DenyByApproval
  }

  /** `_settled`: what to say of a task that no longer waits. */
  function Settled(task: Task, approval: Approval, yes: bool): Answered {
    if approval.status == StatusOf(yes) then Ok(task.state)
    else if approval.status != PENDING then Err(AlreadyAnswered)
    else Err(EngineRefused)
  }

  /** `_move`: the engine is told, and the task is as it leaves it. */
  function Move(tasks: map<TaskId, Task>, task: TaskId, id: ApprovalId, yes: bool)
    : (map<TaskId, Task>, Answered)
  {
    if task !in tasks then (tasks, Err(NotFound))
    else
      var change := Change(OperationOf(yes), Some(id));
      match VerdictOf(tasks[task], change)
      case Refuses => (tasks, Err(EngineRefused))
      case Already => (tasks, Ok(tasks[task].state))
      case Moves => (tasks[task := Task(Target(change.operation), Some(change))], Ok(Target(change.operation)))
  }

  /** `_answer`: the whole of it, when nothing else happens meanwhile. */
  function Answer(world: World, task: TaskId, id: ApprovalId, yes: bool, now: int): (World, Answered) {
    if id !in world.approvals || world.approvals[id].task != task || task !in world.tasks then (world, Err(NotFound))
    else if world.tasks[task].state != WAITING_APPROVAL then
      (world, Settled(world.tasks[task], world.approvals[id], yes))
    else
      var (approvals, responded) := Respond(world.approvals, id, StatusOf(yes), now);
      if responded.Err? && responded.error != AlreadyAnswered then (world, Err(responded.error))
      else if approvals[id].status != StatusOf(yes) then (world, Err(AlreadyAnswered))
      else
        var (tasks, answered) := Move(world.tasks, task, id, yes);
        (World(approvals, tasks), answered)
  }

  /** The store and the engine of the running system, as the routes reach them. */
  class Ela {
    var approvals: map<ApprovalId, Approval>
    var tasks: map<TaskId, Task>

    ghost function Now(): World
      reads this
    {
      World(approvals, tasks)
    }

    constructor ()
      ensures approvals == map[] && tasks == map[]
    {
      approvals, tasks := map[], map[];
    }

    method RespondTo(id: ApprovalId, status: Status, now: int) returns (r: Result<Approval, Refusal>)
      modifies this`approvals
      ensures (approvals, r) == Respond(old(approvals), id, status, now)
    {
      if id !in approvals {
        return Err(NotFound);
      }
      var found := approvals[id];
      if found.status != PENDING {
        return Err(AlreadyAnswered);
      }
      if HasExpired(found, now) {
        return Err(TooLate);
      }
      approvals := approvals[id := found.(status := status)];
      r := Ok(approvals[id]);
    }

    method MoveTask(task: TaskId, id: ApprovalId, yes: bool) returns (r: Answered)
      modifies this`tasks
      ensures (tasks, r) == Move(old(tasks), task, id, yes)
      ensures task in old(tasks) && old(tasks)[task].state == WAITING_APPROVAL ==>
                && r == Ok(if yes then QUEUED else DENIED)
                && tasks == old(tasks)[task := Task(if yes then QUEUED else DENIED,
                                                    Some(Change(if yes then Approve else DenyByApproval, Some(id))))]
    {
      if task !in tasks {
        return Err(NotFound);
      }
      var change := Change(OperationOf(yes), Some(id));
      var verdict := VerdictOf(tasks[task], change);
      if verdict == Refuses {
        return Err(EngineRefused);
      }
      if verdict == Moves {
        tasks := tasks[task := Task(Target(change.operation), Some(change))];
      }
      r := Ok(tasks[task].state);
    }

    /** `_answer`: the store first, the engine after. */
    method AnswerOnce(task: TaskId, id: ApprovalId, yes: bool, now: int) returns (r: Answered)
      modifies this
      ensures (Now(), r) == Answer(old(Now()), task, id, yes, now)
      ensures r.Ok? && task in old(tasks) && old(tasks)[task].state == WAITING_APPROVAL ==>
                && r == Ok(if yes then QUEUED else DENIED)
                && task in tasks && tasks[task].state == (if yes then QUEUED else DENIED)
                && id in approvals && approvals[id].status == (if yes then GRANTED else REJECTED)
    {
      if id !in approvals || approvals[id].task != task || task !in tasks {
        return Err(NotFound);
      }
      if tasks[task].state != WAITING_APPROVAL {
        return Settled(tasks[task], approvals[id], yes);
      }
      var answered := RespondTo(id, StatusOf(yes), now);
      if answered.Err? {
        if answered.error != AlreadyAnswered {
          return Err(answered.error);
        }
        if approvals[id].status != StatusOf(yes) {
          return Err(AlreadyAnswered);
        }
      }
      r := MoveTask(task, id, yes);
    }

    /** `answered_and_resumed`: the answer, and whether a run follows it. */
    method AnsweredAndResumed(task: TaskId, id: ApprovalId, yes: bool, now: int) returns (r: Answered, runs: bool)
      modifies this
      ensures (Now(), r) == Answer(old(Now()), task, id, yes, now)
      ensures runs ==> yes && id in approvals && approvals[id].status == GRANTED
                       && task in tasks && tasks[task].state == QUEUED
      ensures runs <==> yes && r == Ok(QUEUED)
    {
      r := AnswerOnce(task, id, yes, now);
      runs := yes && r == Ok(QUEUED);
    }
  }

  /** The request a task waits for: the one it was last asked with. */
  function WaitsFor(task: Task): Option<ApprovalId> {
    if task.state == WAITING_APPROVAL && task.last.Some? && task.last.value.operation == RequestApproval then
      task.last.value.key
    else None
  }

  // ------------------------------------------------------------------------------------------
  // What one answer guarantees
  // ------------------------------------------------------------------------------------------

  /** An answer writes only in a request that was PENDING and on time, of a task that waits: exactly
      the requests the list of pending ones shows. Anything else leaves the store as it is. */
  predicate Answerable(world: World, task: TaskId, id: ApprovalId, now: int) {
    && id in world.approvals && world.approvals[id].task == task
    && world.approvals[id].status == PENDING
    && (world.approvals[id].expires.Some? ==> now < world.approvals[id].expires.value)
    && task in world.tasks && world.tasks[task].state == WAITING_APPROVAL
  }

  /** A task that an answer has moved. */
  function MovedTask(yes: bool, id: ApprovalId): Task {
    if yes then Task(QUEUED, Some(Change(Approve, Some(id)))) else Task(DENIED, Some(Change(DenyByApproval, Some(id))))
  }

  lemma AnswerWritesWhatIsShown(world: World, task: TaskId, id: ApprovalId, yes: bool, now: int)
    ensures var (after, answered) := Answer(world, task, id, yes, now);
            && (after.approvals != world.approvals <==> Answerable(world, task, id, now))
            && (Answerable(world, task, id, now) ==>
                  && answered == Ok(if yes then QUEUED else DENIED)
                  && after.approvals
                     == world.approvals[id := world.approvals[id].(status := if yes then GRANTED else REJECTED)]
                  && after.tasks == world.tasks[task := MovedTask(yes, id)])
  {
    if Answerable(world, task, id, now) {
      assert Answer(world, task, id, yes, now).0.approvals[id].status != world.approvals[id].status;
    }
  }

  /** An answer is accepted exactly when the request is one of the task, both exist, and either it was answered
      the same way already, or it is PENDING and on time and the task waits. */
  lemma AcceptedExactly(world: World, task: TaskId, id: ApprovalId, yes: bool, now: int)
    ensures Answer(world, task, id, yes, now).1.Ok?
       <==> && id in world.approvals && world.approvals[id].task == task && task in world.tasks
            && (world.approvals[id].status == (if yes then GRANTED else REJECTED) || Answerable(world, task, id, now))
  {
  }

  /** A handed back task means the answer is in the store: GRANTED for a yes, REJECTED for a no. */
  lemma AcceptedIsStored(world: World, task: TaskId, id: ApprovalId, yes: bool, now: int)
    requires Answer(world, task, id, yes, now).1.Ok?
    ensures var (after, answered) := Answer(world, task, id, yes, now);
            && id in after.approvals && after.approvals[id].task == task
            && after.approvals[id].status == (if yes then GRANTED else REJECTED)
            && task in after.tasks && after.tasks[task].state == answered.value
            && after.tasks[task].state != WAITING_APPROVAL
  {
  }

  /** A yes leaves the task that waited QUEUED, and a no leaves it DENIED: with that word, and with nothing
      else of the tasks changed. */
  lemma ANoDenies(world: World, task: TaskId, id: ApprovalId, yes: bool, now: int)
    requires task in world.tasks && world.tasks[task].state == WAITING_APPROVAL
    requires Answer(world, task, id, yes, now).1.Ok?
    ensures var (after, answered) := Answer(world, task, id, yes, now);
            && answered == Ok(if yes then QUEUED else DENIED)
            && after.tasks == world.tasks[task := MovedTask(yes, id)]
  {
  }

  /** From "stored, and the engine never told", the same answer completes the move; the other one is
      refused and changes nothing. */
  lemma RepeatingCompletesTheMove(world: World, task: TaskId, id: ApprovalId, yes: bool, now: int)
    requires id in world.approvals && world.approvals[id].task == task && world.approvals[id].status == StatusOf(yes)
    requires task in world.tasks && world.tasks[task].state == WAITING_APPROVAL
    ensures var (after, answered) := Answer(world, task, id, yes, now);
            && answered == Ok(if yes then QUEUED else DENIED)
            && after.approvals == world.approvals
            && after.tasks == world.tasks[task := MovedTask(yes, id)]
    ensures Answer(world, task, id, !yes, now) == (world, Err(AlreadyAnswered))
  {
  }

  /** A request answered one way is never answered the other way, whatever its task has become. */
  lemma OppositeIsRefused(world: World, task: TaskId, id: ApprovalId, yes: bool, now: int)
    requires id in world.approvals && world.approvals[id].task == task && world.approvals[id].status == StatusOf(yes)
    requires task in world.tasks
    ensures Answer(world, task, id, !yes, now) == (world, Err(AlreadyAnswered))
  {
  }

  function Repeated(world: World, task: TaskId, id: ApprovalId, yes: bool, nows: seq<int>): World
    decreases |nows|
  {
    if nows == [] then world
    else Repeated(Answer(world, task, id, yes, nows[0]).0, task, id, yes, nows[1..])
  }

  /** Once an answer was accepted, any number of repeats of it, at any instant, is accepted with the
      same word and leaves store and tasks as they stand. */
  lemma {:induction false} RepeatsChangeNothing(world: World, task: TaskId, id: ApprovalId, yes: bool, now: int,
                                                nows: seq<int>)
    requires Answer(world, task, id, yes, now).1.Ok?
    ensures var (after, answered) := Answer(world, task, id, yes, now);
            Repeated(after, task, id, yes, nows) == after
            && forall later :: Answer(after, task, id, yes, later) == (after, answered)
    decreases |nows|
  {
    AcceptedIsStored(world, task, id, yes, now);
    if nows != [] {
      RepeatsChangeNothing(world, task, id, yes, now, nows[1..]);
    }
  }

  /** The engine checks that an answer is about the task, not that it answers the request the task
      waits for. So an accepted answer leaves that request answered exactly when it was the request
      named, or had been answered before. */
  lemma AnswerClosesTheQuestion(world: World, task: TaskId, id: ApprovalId, yes: bool, now: int, waited: ApprovalId)
    requires task in world.tasks && WaitsFor(world.tasks[task]) == Some(waited) && waited in world.approvals
    requires Answer(world, task, id, yes, now).1.Ok?
    ensures Answer(world, task, id, yes, now).0.approvals[waited].status != PENDING
       <==> id == waited || world.approvals[waited].status != PENDING
  {
  }

  /** A yes to the first question, repeated while the task waits for the second: the task is queued
      with the second still PENDING. */
  lemma OldYesPassesOverANewQuestion()
    ensures var world := World(map[1 := Approval(0, GRANTED, None), 2 := Approval(0, PENDING, None)],
                               map[0 := Task(WAITING_APPROVAL, Some(Change(RequestApproval, Some(2))))]);
            var (after, answered) := Answer(world, 0, 1, true, 0);
            answered == Ok(QUEUED) && after.approvals[2].status == PENDING
  {
  }
}
