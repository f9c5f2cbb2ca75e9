/**
 A run of the answer protocol in which a question is passed over: the task asks, is answered, asks
 again, and the first answer, sent a second time, queues it (src/ela/api/approvals.py and
 src/ela/tasks/engine.py).
 */
module PassedOver {
  import opened Options
  import opened Approvals
  import opened AnswerProtocol

  lemma OneStepMore(s: System, steps: seq<Step>, step: Step)
    ensures Run(s, steps + [step]) == Next(Run(s, steps), step)
  {
    RunInTwo(s, steps, [step]);
    assert [step][1..] == [];
    assert Run(Next(Run(s, steps), step), []) == Next(Run(s, steps), step);
  }

  ghost predicate Leads(from: System, steps: seq<Step>, to: System) {
    Run(from, steps) == to
  }

  lemma LeadsOn(from: System, first: seq<Step>, through: System, rest: seq<Step>, to: System)
    requires Leads(from, first, through) && Leads(through, rest, to)
    ensures Leads(from, first + rest, to)
  {
    RunInTwo(from, first, rest);
  }

  const ADVANCE := Advance(0, 0, false)

  function Waiting(approvals: map<ApprovalId, Approval>, id: ApprovalId, log: seq<Event>): System {
    System(World(approvals, map[0 := Task(WAITING_APPROVAL, Some(Change(RequestApproval, Some(id))))]),
           map[], map[], log)
  }

  const FIRST := map[1 := Approval(0, PENDING, None)]
  const FIRST_ANSWERED := map[1 := Approval(0, GRANTED, None)]
  const BOTH := map[1 := Approval(0, GRANTED, None), 2 := Approval(0, PENDING, None)]
  const ANSWERED_LOG := [Stored(1, GRANTED), MovedBy(0, 1, true, Some(1))]

  function QueuedByTheFirst(): System {
    System(World(FIRST_ANSWERED, map[0 := Task(QUEUED, Some(Change(Approve, Some(1))))]),
           map[0 := Handler(0, 1, true, Finished(Ok(QUEUED)))], map[], ANSWERED_LOG)
  }

  lemma TheFirstIsAsked()
    ensures Leads(START, [CreateTask(0), Otherwise(0, StartPlanning, true), AddRequest(1, 0, None), Ask(0, 1, true)],
                  Waiting(FIRST, 1, []))
  {
    var steps := [CreateTask(0), Otherwise(0, StartPlanning, true), AddRequest(1, 0, None), Ask(0, 1, true)];
    var s1 := Next(START, steps[0]);
    var s2 := Next(s1, steps[1]);
    var s3 := Next(s2, steps[2]);
    assert s2.world.tasks == map[0 := Task(PLANNING, Some(Change(StartPlanning, None)))];
    assert s3.world.approvals == FIRST;
    assert Next(s3, steps[3]) == Waiting(FIRST, 1, []);
    FourSteps(START, steps);
  }

  lemma FourSteps(s: System, steps: seq<Step>)
    requires |steps| == 4
    ensures Run(s, steps) == Next(Next(Next(Next(s, steps[0]), steps[1]), steps[2]), steps[3])
  {
    assert steps == [] + [steps[0]] + [steps[1]] + [steps[2]] + [steps[3]];
    OneStepMore(s, [], steps[0]);
    OneStepMore(s, [] + [steps[0]], steps[1]);
    OneStepMore(s, [] + [steps[0]] + [steps[1]], steps[2]);
    OneStepMore(s, [] + [steps[0]] + [steps[1]] + [steps[2]], steps[3]);
  }

  lemma TheFirstIsAnswered()
    ensures Leads(Waiting(FIRST, 1, []), [Arrive(0, 0, 1, true), ADVANCE, ADVANCE, ADVANCE] + [ADVANCE, ADVANCE],
                  QueuedByTheFirst())
  {
    var s := Waiting(FIRST, 1, []);
    var s1 := Next(s, Arrive(0, 0, 1, true));
    var s2 := Next(s1, ADVANCE);
    var s3 := Next(s2, ADVANCE);
    var s4 := Next(s3, ADVANCE);
    assert s3.handlers[0].at == Responding;
    assert s4.world.approvals == FIRST_ANSWERED && s4.handlers[0].at.Moving?;
    FourSteps(s, [Arrive(0, 0, 1, true), ADVANCE, ADVANCE, ADVANCE]);
    FirstMoves(s4);
    RunInTwo(s, [Arrive(0, 0, 1, true), ADVANCE, ADVANCE, ADVANCE], [ADVANCE, ADVANCE]);
  }

  lemma FirstMoves(s: System)
    requires s == System(World(FIRST_ANSWERED, Waiting(FIRST, 1, []).world.tasks),
                         map[0 := Handler(0, 1, true, Moving(FIRST_ANSWERED[1]))], map[], [Stored(1, GRANTED)])
    ensures Leads(s, [ADVANCE, ADVANCE], QueuedByTheFirst())
  {
    var s1 := Next(s, ADVANCE);
    assert s1.handlers[0].at == Recording && s1.log == ANSWERED_LOG;
    assert Next(s1, ADVANCE) == QueuedByTheFirst();
    assert [ADVANCE, ADVANCE] == [] + [ADVANCE] + [ADVANCE];
    OneStepMore(s, [], ADVANCE);
    OneStepMore(s, [] + [ADVANCE], ADVANCE);
  }

  lemma TheSecondIsAsked()
    ensures Leads(QueuedByTheFirst(), [Otherwise(0, Start, true), AddRequest(2, 0, None), Ask(0, 2, true), Crash],
                  Waiting(BOTH, 2, ANSWERED_LOG))
  {
    var steps := [Otherwise(0, Start, true), AddRequest(2, 0, None), Ask(0, 2, true), Crash];
    var s1 := Next(QueuedByTheFirst(), steps[0]);
    var s2 := Next(s1, steps[1]);
    var s3 := Next(s2, steps[2]);
    assert s1.world.tasks == map[0 := Task(EXECUTING, Some(Change(Start, None)))];
    assert s2.world.approvals == BOTH;
    assert s3.world.tasks == Waiting(BOTH, 2, ANSWERED_LOG).world.tasks;
    FourSteps(QueuedByTheFirst(), steps);
  }

  function PassedOver(): System {
    System(World(BOTH, map[0 := Task(QUEUED, Some(Change(RequestApproval, Some(2))))]),
           map[0 := Handler(0, 1, true, Recording)], map[0 := 0], ANSWERED_LOG + [MovedBy(0, 1, true, Some(2))])
  }

  lemma TheFirstIsAnsweredAgain()
    ensures Leads(Waiting(BOTH, 2, ANSWERED_LOG),
                  [Arrive(0, 0, 1, true), ADVANCE, ADVANCE, ADVANCE] + [ADVANCE, ADVANCE], PassedOver())
  {
    var s := Waiting(BOTH, 2, ANSWERED_LOG);
    var s1 := Next(s, Arrive(0, 0, 1, true));
    var s2 := Next(s1, ADVANCE);
    var s3 := Next(s2, ADVANCE);
    var s4 := Next(s3, ADVANCE);
    assert s3.handlers[0].at == Responding && s4.handlers[0].at == GettingAgain;
    FourSteps(s, [Arrive(0, 0, 1, true), ADVANCE, ADVANCE, ADVANCE]);
    OldYesMoves(s4);
    RunInTwo(s, [Arrive(0, 0, 1, true), ADVANCE, ADVANCE, ADVANCE], [ADVANCE, ADVANCE]);
  }

  lemma OldYesMoves(s: System)
    requires s == Waiting(BOTH, 2, ANSWERED_LOG).(handlers := map[0 := Handler(0, 1, true, GettingAgain)])
    ensures Leads(s, [ADVANCE, ADVANCE], PassedOver())
  {
    var s1 := Next(s, ADVANCE);
    assert s1.handlers[0].at == Moving(BOTH[1]);
    assert Next(s1, ADVANCE) == PassedOver();
    assert [ADVANCE, ADVANCE] == [] + [ADVANCE] + [ADVANCE];
    OneStepMore(s, [], ADVANCE);
    OneStepMore(s, [] + [ADVANCE], ADVANCE);
  }

  /** A run reaches it: a task that waited for its second question is queued with that question still
      PENDING, by a repeat of the answer to the first. */
  lemma AQuestionIsPassedOver() returns (steps: seq<Step>)
    ensures var s := Run(START, steps);
            && 0 in s.world.tasks && s.world.tasks[0].state == QUEUED
            && s.log != [] && s.log[|s.log| - 1] == MovedBy(0, 1, true, Some(2))
            && 2 in s.world.approvals && s.world.approvals[2] == Approval(0, PENDING, None)
  {
    TheFirstIsAsked();
    TheFirstIsAnswered();
    TheSecondIsAsked();
    TheFirstIsAnsweredAgain();
    var asked := [CreateTask(0), Otherwise(0, StartPlanning, true), AddRequest(1, 0, None), Ask(0, 1, true)];
    var answered := [Arrive(0, 0, 1, true), ADVANCE, ADVANCE, ADVANCE] + [ADVANCE, ADVANCE];
    var askedAgain := [Otherwise(0, Start, true), AddRequest(2, 0, None), Ask(0, 2, true), Crash];
    LeadsOn(START, asked, Waiting(FIRST, 1, []), answered, QueuedByTheFirst());
    LeadsOn(START, asked + answered, QueuedByTheFirst(), askedAgain, Waiting(BOTH, 2, ANSWERED_LOG));
    LeadsOn(START, asked + answered + askedAgain, Waiting(BOTH, 2, ANSWERED_LOG), answered, PassedOver());
    steps := asked + answered + askedAgain + answered;
  }
}
