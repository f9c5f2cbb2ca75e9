/**
 The metering gateway and its cap (scripts/misura_m14_3.py, `World.counted` and `gateway`).

 A call is checked against the cap before it is forwarded and counted after its answer has ended,
 so calls in flight together may pass the cap. A run is a sequence of steps of any number of calls,
 interleaved at every await; a step that cannot be taken leaves the world as it is.
 */
module Gateway {
  import opened Options
  import opened Calls
  import opened Sse

  /** The await a call is at. A relay that has yielded once counts its call however it ends; one that
      was never started does not. */
  datatype Await =
    | ReadingBody
    | Sending
    | ReadingAnswer
    | Relaying(started: bool)
    | Done

  datatype Handler = Handler(call: Call, stream: bool, at: Await)

  datatype Payment = Payment(h: nat, cost: real)

  /** `interrupts` counts how often the cap stopped the session; `paid` is what was counted, in order. */
  datatype World = World(spent: real, capped: bool, interrupts: nat, handlers: map<nat, Handler>, paid: seq<Payment>)

  datatype Step =
    | Arrive(h: nat, authorised: bool)
    | Body(h: nat, model: Option<string>, maxTokens: Option<nat>, stream: bool)
    | SendFails(h: nat)
    | Sent(h: nat, eventStream: bool)
    | Answer(h: nat, found: Option<Usage>, complete: bool)
    | AnswerFails(h: nat)
    | Chunk(h: nat, frames: seq<Frame>)
    | End(h: nat)
    | NeverStarts(h: nat)

  const START := World(0.0, false, 0, map[], [])
  const NEW_CALL := Call(false, None, None, 0, 0, 0, 0, 0, None, false, None, [])

  /** `World.counted`: the cap is set by the call that reaches it, once. */
  function CountedIn(w: World, h: nat, call: Call): World {
    var spent := w.spent + Counted(call);
    var crosses := spent >= CAP_USD && !w.capped;
    w.(spent := spent, capped := w.capped || crosses,
       interrupts := if crosses then w.interrupts + 1 else w.interrupts,
       paid := w.paid + [Payment(h, Counted(call))])
  }

  function With(w: World, h: nat, handler: Handler): World {
    w.(handlers := w.handlers[h := handler])
  }

  function Next(w: World, step: Step): World {
    if step.Arrive? then
      if step.h in w.handlers then w
      else With(w, step.h, Handler(NEW_CALL, false, if step.authorised then ReadingBody else Done))
    else if step.h !in w.handlers then w
    else
      var handler := w.handlers[step.h];
      match step
      case Arrive(_, _) => w
      case Body(h, model, maxTokens, stream) =>
        if handler.at != ReadingBody then w
        else
          With(w, h, Handler(handler.call.(model := model, maxTokens := maxTokens), stream,
                             if w.capped then Done else Sending))
      case SendFails(h) =>
        if handler.at != Sending then w else With(w, h, handler.(at := Done))
      case Sent(h, eventStream) =>
        if handler.at != Sending then w
        else
          With(w, h, Handler(handler.call.(forwarded := true), handler.stream,
                             if handler.stream && eventStream then Relaying(false) else ReadingAnswer))
      case Answer(h, found, complete) =>
        if handler.at != ReadingAnswer then w
        else
          var call := match found
                      case None => handler.call
                      case Some(usage) => Used(handler.call, usage).(complete := complete);
          CountedIn(With(w, h, handler.(call := call, at := Done)), h, call)
      case AnswerFails(h) =>
        if handler.at != ReadingAnswer then w else With(w, h, handler.(at := Done))
      case Chunk(h, frames) =>
        if !handler.at.Relaying? then w
        else With(w, h, handler.(call := FramesRead(handler.call, frames), at := Relaying(true)))
      case End(h) =>
        if !(handler.at.Relaying? && handler.at.started) then w
        else CountedIn(With(w, h, handler.(at := Done)), h, handler.call)
      case NeverStarts(h) =>
        if handler.at != Relaying(false) then w else With(w, h, handler.(at := Done))
  }

  function Run(w: World, steps: seq<Step>): World
    decreases |steps|
  {
    if steps == [] then w else Next(Run(w, steps[..|steps| - 1]), steps[|steps| - 1])
  }

  lemma {:induction false} RunInTwo(w: World, first: seq<Step>, rest: seq<Step>)
    ensures Run(w, first + rest) == Run(Run(w, first), rest)
    decreases |rest|
  {
    if rest == [] {
      assert first + rest == first;
    } else {
      assert (first + rest)[..|first + rest| - 1] == first + rest[..|rest| - 1];
      RunInTwo(w, first, rest[..|rest| - 1]);
    }
  }

  /** The call is past the check and may still be counted. */
  predicate PastTheCheck(handler: Handler) {
    handler.at.Sending? || handler.at.ReadingAnswer? || handler.at.Relaying?
  }

  function InFlight(w: World): set<nat> {
    set h | h in w.handlers && PastTheCheck(w.handlers[h])
  }

  function Sum(paid: seq<Payment>): real
    decreases |paid|
  {
    if paid == [] then 0.0 else Sum(paid[..|paid| - 1]) + paid[|paid| - 1].cost
  }

  ghost predicate Distinct(paid: seq<Payment>) {
    forall i, j :: 0 <= i < j < |paid| ==> paid[i].h != paid[j].h
  }

  /** Forwarded once sent, and not before. */
  predicate HandlerHolds(handler: Handler) {
    && (handler.at.ReadingAnswer? || handler.at.Relaying? ==> handler.call.forwarded)
    && (handler.at.ReadingBody? || handler.at.Sending? ==> !handler.call.forwarded)
  }

  /** What was counted of a call, against the call as it ended. */
  predicate PaidHolds(w: World, payment: Payment) {
    && payment.h in w.handlers
    && w.handlers[payment.h].at.Done?
    && w.handlers[payment.h].call.forwarded
    && payment.cost == Counted(w.handlers[payment.h].call)
  }

  ghost predicate Inv(w: World) {
    && (w.capped <==> w.spent >= CAP_USD)
    && w.interrupts == (if w.capped then 1 else 0)
    && w.spent == Sum(w.paid)
    && Distinct(w.paid)
    && (forall i :: 0 <= i < |w.paid| ==> PaidHolds(w, w.paid[i]))
    && (forall h :: h in w.handlers ==> HandlerHolds(w.handlers[h]))
  }

  /** A step that counts nothing: one call, not ended yet, goes on, and no call passes the check once
      the cap is set. */
  predicate Quiet(w: World, v: World, h: nat) {
    && h in v.handlers && v == With(w, h, v.handlers[h])
    && (h in w.handlers ==> !w.handlers[h].at.Done?)
    && HandlerHolds(v.handlers[h])
    && (PastTheCheck(v.handlers[h]) ==> (h in w.handlers && PastTheCheck(w.handlers[h])) || !w.capped)
    && (v.handlers[h].call.forwarded ==> h in w.handlers && PastTheCheck(w.handlers[h]))
  }

  /** A step that ends a forwarded call and counts it. */
  predicate Counts(w: World, v: World, h: nat) {
    && h in w.handlers && PastTheCheck(w.handlers[h])
    && h in v.handlers && v.handlers[h].at.Done? && v.handlers[h].call.forwarded
    && v == CountedIn(With(w, h, v.handlers[h]), h, v.handlers[h].call)
  }

  lemma {:induction false} FramesKeepForwarding(call: Call, frames: seq<Frame>)
    ensures FramesRead(call, frames).forwarded == call.forwarded
    decreases |frames|
  {
    if frames != [] {
      FramesKeepForwarding(call, frames[..|frames| - 1]);
    }
  }

  /** A step does nothing, or goes on with one call, or counts one call. */
  lemma StepIs(w: World, step: Step)
    requires forall h :: h in w.handlers ==> HandlerHolds(w.handlers[h])
    ensures Next(w, step) == w || Quiet(w, Next(w, step), step.h) || Counts(w, Next(w, step), step.h)
  {
    if step.h in w.handlers {
      assert HandlerHolds(w.handlers[step.h]);
      if step.Chunk? {
        FramesKeepForwarding(w.handlers[step.h].call, step.frames);
      }
    }
  }

  lemma QuietKeepsInv(w: World, v: World, h: nat)
    requires Inv(w) && Quiet(w, v, h)
    ensures Inv(v)
  {
    forall i | 0 <= i < |v.paid|
      ensures PaidHolds(v, v.paid[i])
    {
      assert PaidHolds(w, w.paid[i]);
    }
  }

  /** What a payment does to the sums. */
  predicate Pays(w: World, v: World, h: nat, cost: real) {
    && v.spent == w.spent + cost
    && v.capped == (w.capped || v.spent >= CAP_USD)
    && v.interrupts == (if v.capped && !w.capped then w.interrupts + 1 else w.interrupts)
    && v.paid == w.paid + [Payment(h, cost)]
  }

  lemma CountingPays(w: World, v: World, h: nat)
    requires Counts(w, v, h)
    ensures Pays(w, v, h, Counted(v.handlers[h].call)) && Counted(v.handlers[h].call) >= 0.0
    ensures v.handlers == w.handlers[h := v.handlers[h]]
  {
    CountedIsNotNegative(v.handlers[h].call);
  }

  lemma PayingKeepsSums(w: World, v: World, h: nat, cost: real)
    requires Inv(w) && Pays(w, v, h, cost) && cost >= 0.0
    ensures v.capped <==> v.spent >= CAP_USD
    ensures v.interrupts == (if v.capped then 1 else 0) && v.spent == Sum(v.paid)
  {
    assert v.paid[..|v.paid| - 1] == w.paid;
  }

  lemma PaymentStays(w: World, v: World, payment: Payment)
    requires PaidHolds(w, payment) && payment.h in v.handlers && v.handlers[payment.h] == w.handlers[payment.h]
    ensures PaidHolds(v, payment)
  {
  }

  /** A call in flight was never paid for. */
  lemma InFlightIsUnpaid(w: World, h: nat, i: nat)
    requires Inv(w) && h in w.handlers && PastTheCheck(w.handlers[h]) && i < |w.paid|
    ensures w.paid[i].h != h && w.paid[i].h in w.handlers
  {
    assert PaidHolds(w, w.paid[i]);
  }

  lemma CountKeepsPayments(w: World, v: World, h: nat)
    requires Inv(w) && Counts(w, v, h)
    ensures Distinct(v.paid) && forall i :: 0 <= i < |v.paid| ==> PaidHolds(v, v.paid[i])
  {
    CountingPays(w, v, h);
    forall i | 0 <= i < |v.paid|
      ensures PaidHolds(v, v.paid[i]) && (i < |w.paid| ==> v.paid[i].h != h)
    {
      if i < |w.paid| {
        InFlightIsUnpaid(w, h, i);
        PaymentStays(w, v, w.paid[i]);
      }
    }
  }

  lemma CountKeepsInv(w: World, v: World, h: nat)
    requires Inv(w) && Counts(w, v, h)
    ensures Inv(v)
  {
    CountingPays(w, v, h);
    PayingKeepsSums(w, v, h, Counted(v.handlers[h].call));
    CountKeepsPayments(w, v, h);
  }

  lemma StepKeepsInv(w: World, step: Step)
    requires Inv(w)
    ensures Inv(Next(w, step))
  {
    StepIs(w, step);
    var v := Next(w, step);
    if Counts(w, v, step.h) {
      CountKeepsInv(w, v, step.h);
    } else if v != w {
      QuietKeepsInv(w, v, step.h);
    }
  }

  lemma {:induction false} RunKeepsInv(w: World, steps: seq<Step>)
    requires Inv(w)
    ensures Inv(Run(w, steps))
    decreases |steps|
  {
    if steps != [] {
      RunKeepsInv(w, steps[..|steps| - 1]);
      StepKeepsInv(Run(w, steps[..|steps| - 1]), steps[|steps| - 1]);
    }
  }

  lemma StartHolds()
    ensures Inv(START)
  {
  }

  // ------------------------------------------------------------------------------------------
  // Every run
  // ------------------------------------------------------------------------------------------

  /** In every run the cap is set exactly when what was spent has reached it, and stops the session
      once; what was spent is the sum of what the counted calls cost, each counted once, after it was
      forwarded and had ended. */
  lemma EveryRun(steps: seq<Step>)
    ensures var w := Run(START, steps);
            && (w.capped <==> w.spent >= CAP_USD)
            && w.interrupts == (if w.capped then 1 else 0)
            && w.spent == Sum(w.paid) && Distinct(w.paid)
            && forall i :: 0 <= i < |w.paid| ==> PaidHolds(w, w.paid[i])
  {
    StartHolds();
    RunKeepsInv(START, steps);
  }

  predicate Forwarded(w: World, h: nat) {
    h in w.handlers && w.handlers[h].call.forwarded
  }

  /** Once the cap is set nothing new is forwarded: a call that is forwarded after that had passed
      the check, or had been forwarded, by then. */
  lemma {:induction false} NothingPassesTheCap(w: World, steps: seq<Step>, h: nat)
    requires Inv(w) && w.capped
    ensures Inv(Run(w, steps)) && Run(w, steps).capped
    ensures InFlight(Run(w, steps)) <= InFlight(w)
    ensures Forwarded(Run(w, steps), h) ==> Forwarded(w, h) || h in InFlight(w)
    decreases |steps|
  {
    if steps != [] {
      NothingPassesTheCap(w, steps[..|steps| - 1], h);
      var v := Run(w, steps[..|steps| - 1]);
      StepIs(v, steps[|steps| - 1]);
      StepKeepsInv(v, steps[|steps| - 1]);
    }
  }

  /** After the cap only the calls in flight at that time are counted, each once at most. */
  lemma {:induction false} OnlyTheCallsInFlight(w: World, steps: seq<Step>)
    requires Inv(w) && w.capped
    ensures w.paid <= Run(w, steps).paid
    ensures forall i :: |w.paid| <= i < |Run(w, steps).paid| ==> Run(w, steps).paid[i].h in InFlight(w)
    decreases |steps|
  {
    if steps != [] {
      var before := steps[..|steps| - 1];
      OnlyTheCallsInFlight(w, before);
      NothingPassesTheCap(w, before, 0);
      var v := Run(w, before);
      StepIs(v, steps[|steps| - 1]);
    }
  }

  /** The step that sets the cap, in a run that ends with it set. */
  lemma {:induction false} Crossing(steps: seq<Step>) returns (n: nat)
    requires Run(START, steps).capped
    ensures n < |steps|
    ensures !Run(START, steps[..n]).capped && Run(START, steps[..n + 1]).capped
    decreases |steps|
  {
    var before := steps[..|steps| - 1];
    if Run(START, before).capped {
      n := Crossing(before);
      assert before[..n] == steps[..n] && before[..n + 1] == steps[..n + 1];
    } else {
      n := |steps| - 1;
      assert steps[..n + 1] == steps;
    }
  }

  lemma {:induction false} SumInTwo(a: seq<Payment>, b: seq<Payment>)
    ensures Sum(a + b) == Sum(a) + Sum(b)
    decreases |b|
  {
    if b == [] {
      assert a + b == a;
    } else {
      assert (a + b)[..|a + b| - 1] == a + b[..|b| - 1];
      SumInTwo(a, b[..|b| - 1]);
    }
  }

  /** The step that sets the cap is the end of a call in flight. */
  lemma CrossingCounts(w: World, step: Step)
    requires Inv(w) && !w.capped && Next(w, step).capped
    ensures Inv(Next(w, step)) && InFlight(Next(w, step)) <= InFlight(w)
    ensures step.h in InFlight(w) && |Next(w, step).paid| == |w.paid| + 1
    ensures Next(w, step).paid[..|w.paid|] == w.paid && Next(w, step).paid[|w.paid|].h == step.h
  {
    StepIs(w, step);
    StepKeepsInv(w, step);
    QuietIsNoCrossing(w, Next(w, step), step.h);
    CountTakesFromTheFlight(w, Next(w, step), step.h);
  }

  lemma QuietIsNoCrossing(w: World, v: World, h: nat)
    ensures Quiet(w, v, h) ==> v.capped == w.capped
  {
  }

  lemma CountTakesFromTheFlight(w: World, v: World, h: nat)
    requires Counts(w, v, h)
    ensures InFlight(v) <= InFlight(w) && h in InFlight(w)
    ensures |v.paid| == |w.paid| + 1 && v.paid[..|w.paid|] == w.paid && v.paid[|w.paid|].h == h
  {
    CountingPays(w, v, h);
  }

  /** What a list of payments adds to one below the cap, when what is added is paid by calls of a set. */
  lemma LateIsInFlight(paid: seq<Payment>, first: seq<Payment>, all: seq<Payment>, calls: set<nat>)
    requires Sum(paid) < CAP_USD && Distinct(all) && |first| == |paid| + 1 && first[..|paid|] == paid && first <= all
    requires first[|paid|].h in calls && forall i :: |first| <= i < |all| ==> all[i].h in calls
    ensures all == paid + all[|paid|..] && Distinct(all[|paid|..])
    ensures forall i :: 0 <= i < |all[|paid|..]| ==> all[|paid|..][i].h in calls
    ensures Sum(all) < CAP_USD + Sum(all[|paid|..])
  {
    var late := all[|paid|..];
    assert all == paid + late;
    SumInTwo(paid, late);
    forall i | 0 <= i < |late|
      ensures late[i].h in calls
    {
      assert late[i] == all[|paid| + i];
      if i == 0 {
        assert all[|paid|] == first[|paid|];
      }
    }
  }

  lemma OvershootFrom(w: World, step: Step, rest: seq<Step>) returns (late: seq<Payment>)
    requires Inv(w) && !w.capped && Next(w, step).capped
    ensures Run(Next(w, step), rest).paid == w.paid + late
    ensures Distinct(late) && forall i :: 0 <= i < |late| ==> late[i].h in InFlight(w)
    ensures Run(Next(w, step), rest).spent < CAP_USD + Sum(late)
  {
    CrossingCounts(w, step);
    late := LateAfter(w, Next(w, step), rest);
  }

  lemma LateAfter(w: World, v: World, rest: seq<Step>) returns (late: seq<Payment>)
    requires Inv(w) && !w.capped && Inv(v) && v.capped && InFlight(v) <= InFlight(w)
    requires |v.paid| == |w.paid| + 1 && v.paid[..|w.paid|] == w.paid && v.paid[|w.paid|].h in InFlight(w)
    ensures Run(v, rest).paid == w.paid + late
    ensures Distinct(late) && forall i :: 0 <= i < |late| ==> late[i].h in InFlight(w)
    ensures Run(v, rest).spent < CAP_USD + Sum(late)
  {
    NothingPassesTheCap(v, rest, 0);
    OnlyTheCallsInFlight(v, rest);
    var all := Run(v, rest).paid;
    late := all[|w.paid|..];
    LateIsInFlight(w.paid, v.paid, all, InFlight(w));
  }

  /** The cap is passed by the calls in flight and by nothing else: in a run that ends with the cap
      set, what was spent is less than the cap plus what was counted from the crossing on, and that
      was counted of calls past the check just before the crossing, each once at most. */
  lemma OvershootIsInFlight(steps: seq<Step>) returns (n: nat, late: seq<Payment>)
    requires Run(START, steps).capped
    ensures n < |steps| && !Run(START, steps[..n]).capped && Run(START, steps[..n + 1]).capped
    ensures Run(START, steps).paid == Run(START, steps[..n]).paid + late
    ensures Distinct(late) && forall i :: 0 <= i < |late| ==> late[i].h in InFlight(Run(START, steps[..n]))
    ensures Run(START, steps).spent < CAP_USD + Sum(late)
  {
    n := Crossing(steps);
    StartHolds();
    var first, rest := steps[..n], steps[n + 1..];
    RunKeepsInv(START, first);
    assert steps[..n + 1][..n] == first && steps[..n + 1][n] == steps[n];
    RunInTwo(START, steps[..n + 1], rest);
    assert steps == steps[..n + 1] + rest;
    late := OvershootFrom(Run(START, first), steps[n], rest);
  }

  /** At most `k` calls are in flight at any time of a run. */
  ghost predicate FewInFlight(steps: seq<Step>, k: nat) {
    forall i :: 0 <= i <= |steps| ==> |InFlight(Run(START, steps[..i]))| <= k
  }

  /** Every call counted in a run costs at most `most`. */
  ghost predicate CheapCalls(paid: seq<Payment>, most: real) {
    forall i :: 0 <= i < |paid| ==> paid[i].cost <= most
  }

  /** Payments to different calls of a set cost at most the dearest of them times the calls. */
  lemma {:induction false} AtMostEach(paid: seq<Payment>, calls: set<nat>, most: real)
    requires Distinct(paid) && most >= 0.0
    requires CheapCalls(paid, most) && forall i :: 0 <= i < |paid| ==> paid[i].h in calls
    ensures Sum(paid) <= most * |calls| as real
    decreases |paid|
  {
    if paid == [] {
      assert most * |calls| as real >= 0.0;
    } else {
      var last := paid[|paid| - 1];
      var others := calls - {last.h};
      AtMostEach(paid[..|paid| - 1], others, most);
      assert |calls| == |others| + 1;
      assert most * |calls| as real == most * |others| as real + most;
    }
  }

  lemma LateIsBounded(late: seq<Payment>, calls: set<nat>, k: nat, most: real)
    requires Distinct(late) && CheapCalls(late, most) && most >= 0.0 && |calls| <= k
    requires forall i :: 0 <= i < |late| ==> late[i].h in calls
    ensures Sum(late) <= most * k as real
  {
    var few: nat := |calls|;
    AtMostEach(late, calls, most);
    assert Sum(late) <= most * few as real;
    NoMoreForFewer(most, few, k);
  }

  lemma NoMoreForFewer(most: real, few: nat, k: nat)
    requires most >= 0.0 && few <= k
    ensures 0.0 <= most * few as real <= most * k as real
  {
    var more := (k - few) as real;
    assert k as real == few as real + more;
    assert most * more >= 0.0;
    assert most * k as real == most * few as real + most * more;
  }

  lemma LaterIsCheap(all: seq<Payment>, n: nat, most: real)
    requires CheapCalls(all, most) && n <= |all|
    ensures CheapCalls(all[n..], most)
  {
  }

  lemma UncappedIsBelow(steps: seq<Step>, k: nat, most: real)
    requires most >= 0.0 && !Run(START, steps).capped
    ensures Run(START, steps).spent < CAP_USD + most * k as real
  {
    StartHolds();
    RunKeepsInv(START, steps);
    var extra := most * k as real;
    assert extra >= 0.0 by {
      NoMoreForFewer(most, 0, k);
    }
  }

  /** With at most `k` calls in flight at any time, each costing at most `most`, what is spent stays
      below the cap plus `k` times `most`. */
  lemma SpentIsBounded(steps: seq<Step>, k: nat, most: real)
    requires most >= 0.0 && FewInFlight(steps, k) && CheapCalls(Run(START, steps).paid, most)
    ensures Run(START, steps).spent < CAP_USD + most * k as real
  {
    if Run(START, steps).capped {
      CappedIsBounded(steps, k, most);
    } else {
      UncappedIsBelow(steps, k, most);
    }
  }

  /** Every call counted in a run was within the bounds of a model whose worst case is at most `most`. */
  ghost predicate WithinTheWorst(w: World, most: real) {
    forall i :: 0 <= i < |w.paid| ==>
      && w.paid[i].h in w.handlers && IsWithinBounds(w.handlers[w.paid[i].h].call)
      && WorstOf(w.handlers[w.paid[i].h].call.model.value).Some?
      && WorstOf(w.handlers[w.paid[i].h].call.model.value).value <= most
  }

  /** So with at most `k` calls in flight, all within the bounds of their models, what is spent stays
      below the cap plus `k` worst cases. */
  lemma SpentIsBoundedByTheWorst(steps: seq<Step>, k: nat, most: real)
    requires most >= 0.0 && FewInFlight(steps, k) && WithinTheWorst(Run(START, steps), most)
    ensures Run(START, steps).spent < CAP_USD + most * k as real
  {
    var w := Run(START, steps);
    EveryRun(steps);
    forall i | 0 <= i < |w.paid|
      ensures w.paid[i].cost <= most
    {
      assert PaidHolds(w, w.paid[i]);
      WorstBoundsWhatIsCounted(w.handlers[w.paid[i].h].call);
    }
    SpentIsBounded(steps, k, most);
  }

  lemma CappedIsBounded(steps: seq<Step>, k: nat, most: real)
    requires most >= 0.0 && FewInFlight(steps, k) && CheapCalls(Run(START, steps).paid, most)
    requires Run(START, steps).capped
    ensures Run(START, steps).spent < CAP_USD + most * k as real
  {
    var n, late := OvershootIsInFlight(steps);
    var paid, before := Run(START, steps).paid, Run(START, steps[..n]).paid;
    var calls := InFlight(Run(START, steps[..n]));
    assert |calls| <= k;
    assert late == paid[|before|..];
    LaterIsCheap(paid, |before|, most);
    LateIsBounded(late, calls, k, most);
  }

  // ------------------------------------------------------------------------------------------
  // Which calls are counted, and with what
  // ------------------------------------------------------------------------------------------

  /** The steps that end an await. */
  predicate Ends(at: Await, step: Step) {
    match at
    case ReadingBody => step.Body?
    case Sending => step.SendFails? || step.Sent?
    case ReadingAnswer => step.Answer? || step.AnswerFails?
    case Relaying(started) => if started then step.End? else step.Chunk? || step.NeverStarts?
    case Done => false
  }

  /** From one step to another, none of the call ends its await. */
  ghost predicate Waits(steps: seq<Step>, from: nat, until: nat, h: nat, at: Await) {
    forall k :: from <= k < until && k < |steps| && steps[k].h == h ==> !Ends(at, steps[k])
  }

  /** The steps of a call that ends: its arrival, its body, its sending, the first chunk it relays, if it
      relays any, and its end. */
  datatype Life = Life(arrival: nat, body: nat, sending: nat, first: nat, end: nat)

  ghost predicate IsBegun(steps: seq<Step>, h: nat, life: Life) {
    && life.arrival < life.body < life.sending < |steps|
    && steps[life.arrival] == Arrive(h, true)
    && (forall k :: 0 <= k < life.arrival ==> !(steps[k].Arrive? && steps[k].h == h))
    && steps[life.body].Body? && steps[life.body].h == h
    && Waits(steps, life.arrival + 1, life.body, h, ReadingBody)
    && steps[life.sending].Sent? && steps[life.sending].h == h
    && Waits(steps, life.body + 1, life.sending, h, Sending)
  }

  ghost predicate IsRelayed(steps: seq<Step>, life: Life)
    requires life.body < |steps| && steps[life.body].Body? && life.sending < |steps| && steps[life.sending].Sent?
  {
    steps[life.body].stream && steps[life.sending].eventStream
  }

  ghost predicate IsEnded(steps: seq<Step>, h: nat, life: Life, relayed: bool) {
    && life.sending < life.first <= life.end < |steps| && steps[life.end].h == h
    && if relayed then
         && steps[life.first].Chunk? && steps[life.first].h == h
         && Waits(steps, life.sending + 1, life.first, h, Relaying(false))
         && steps[life.end].End? && Waits(steps, life.first + 1, life.end, h, Relaying(true))
       else
         && life.first == life.end && steps[life.end].Answer?
         && Waits(steps, life.sending + 1, life.end, h, ReadingAnswer)
  }

  /** The life of a call, read off the steps: each of them is the first that ends its await. */
  ghost predicate IsLife(steps: seq<Step>, h: nat, life: Life) {
    IsBegun(steps, h, life) && IsEnded(steps, h, life, IsRelayed(steps, life))
  }

  /** The frames of all the chunks of a call among some steps. */
  function Streamed(steps: seq<Step>, h: nat): seq<Frame> {
    if steps == [] then []
    else Streamed(steps[..|steps| - 1], h) + ChunkOf(steps[|steps| - 1], h)
  }

  function ChunkOf(step: Step, h: nat): seq<Frame> {
    if step.Chunk? && step.h == h then step.frames else []
  }

  /** What an answer that is not streamed declares, as frames would. */
  function AsFrames(found: Option<Usage>, complete: bool): seq<Frame> {
    if found.None? then [] else [MessageStart(found.value)] + if complete then [MessageStop] else []
  }

  /** What the answer to a call declared. */
  function Told(steps: seq<Step>, h: nat, life: Life): seq<Frame>
    requires life.first <= life.end < |steps|
  {
    if steps[life.end].Answer? then AsFrames(steps[life.end].found, steps[life.end].complete)
    else Streamed(steps[life.first..life.end], h)
  }

  /** A call that was forwarded, and has no answer yet. */
  function Asked(model: Option<string>, maxTokens: Option<nat>): Call {
    Call(true, model, maxTokens, 0, 0, 0, 0, 0, None, false, None, [])
  }

  /** The call as its answer leaves it. */
  ghost predicate IsTold(steps: seq<Step>, h: nat, life: Life, call: Call)
    requires life.body < |steps| && steps[life.body].Body? && life.first <= life.end < |steps|
  {
    IsToldBy(Told(steps, h, life), Asked(steps[life.body].model, steps[life.body].maxTokens), call)
  }

  ghost predicate IsAt(steps: seq<Step>, n: nat, h: nat, handler: Handler)
    requires n <= |steps|
  {
    h in Run(START, steps[..n]).handlers && Run(START, steps[..n]).handlers[h] == handler
  }

  lemma RunOneMore(steps: seq<Step>, n: nat)
    requires n < |steps|
    ensures Run(START, steps[..n + 1]) == Next(Run(START, steps[..n]), steps[n])
  {
    assert steps[..n + 1][..n] == steps[..n];
  }

  predicate Stands(w: World, h: nat, at: Await) {
    h in w.handlers && w.handlers[h].at == at
  }

  /** A call that waited while so many frames came to it. */
  function Waited(handler: Handler, frames: seq<Frame>): Handler {
    if handler.at == Relaying(true) then handler.(call := FramesRead(handler.call, frames)) else handler
  }

  lemma WaitedInTwo(handler: Handler, a: seq<Frame>, b: seq<Frame>)
    ensures Waited(Waited(handler, a), b) == Waited(handler, a + b)
  {
    FramesReadInTwo(handler.call, a, b);
  }

  /** What one step does to a call whose await it does not end. */
  lemma WaitsOneStep(w: World, step: Step, h: nat)
    requires h in w.handlers && (step.h == h ==> !Ends(w.handlers[h].at, step))
    ensures h in Next(w, step).handlers
    ensures Next(w, step).handlers[h] == Waited(w.handlers[h], ChunkOf(step, h))
  {
  }

  lemma OneStepPays(w: World, step: Step)
    ensures w.paid <= Next(w, step).paid && |Next(w, step).paid| <= |w.paid| + 1
  {
  }

  lemma OneStepBrings(w: World, step: Step, h: nat, at: Await)
    requires Stands(Next(w, step), h, at)
    ensures Stands(w, h, at) && step.h == h ==> !Ends(at, step)
    ensures !Stands(w, h, at) ==> step.h == h
  {
  }

  lemma OneStepArrives(w: World, step: Step, h: nat)
    ensures h in Next(w, step).handlers <==> h in w.handlers || (step.Arrive? && step.h == h)
  {
  }

  lemma FirstChunk(w: World, step: Step, h: nat)
    requires Stands(w, h, Relaying(false)) && step.Chunk? && step.h == h
    ensures h in Next(w, step).handlers
    ensures Next(w, step).handlers[h] == Waited(w.handlers[h].(at := Relaying(true)), step.frames)
  {
  }

  lemma LastStep(w: World, step: Step, h: nat)
    requires Stands(w, h, Relaying(true)) && step.End? && step.h == h
    ensures Stands(Next(w, step), h, Done) && Next(w, step).handlers[h].call == w.handlers[h].call
    ensures Next(w, step).paid == w.paid + [Payment(h, Counted(w.handlers[h].call))]
  {
  }

  lemma WaitsOneMore(steps: seq<Step>, n: nat, h: nat, handler: Handler, frames: seq<Frame>)
    requires n < |steps| && IsAt(steps, n, h, Waited(handler, frames))
    requires steps[n].h == h ==> !Ends(handler.at, steps[n])
    ensures IsAt(steps, n + 1, h, Waited(handler, frames + ChunkOf(steps[n], h)))
  {
    RunOneMore(steps, n);
    WaitsOneStep(Run(START, steps[..n]), steps[n], h);
    WaitedInTwo(handler, frames, ChunkOf(steps[n], h));
  }

  lemma StreamedOneMore(steps: seq<Step>, from: nat, n: nat, h: nat)
    requires from <= n < |steps|
    ensures Streamed(steps[from..n + 1], h) == Streamed(steps[from..n], h) + ChunkOf(steps[n], h)
  {
    assert steps[from..n + 1][..n - from] == steps[from..n];
  }

  /** While no step ends its await, a call stays as it is, but for what its chunks declare. */
  lemma {:induction false} WaitsAsItIs(steps: seq<Step>, from: nat, until: nat, h: nat, handler: Handler)
    requires from <= until <= |steps| && IsAt(steps, from, h, handler) && Waits(steps, from, until, h, handler.at)
    ensures IsAt(steps, until, h, Waited(handler, Streamed(steps[from..until], h)))
    decreases until
  {
    if from == until {
      assert steps[from..until] == [];
    } else {
      WaitsAsItIs(steps, from, until - 1, h, handler);
      StreamedOneMore(steps, from, until - 1, h);
      WaitsOneMore(steps, until - 1, h, handler, Streamed(steps[from..until - 1], h));
    }
  }

  lemma OneStepStreams(step: Step, h: nat)
    ensures Streamed([step], h) == ChunkOf(step, h)
  {
    assert Streamed([step][..0], h) == [];
  }

  lemma {:induction false} NotThereYet(steps: seq<Step>, n: nat, h: nat)
    requires n <= |steps|
    ensures h !in Run(START, steps[..n]).handlers <==>
              forall k :: 0 <= k < n ==> !(steps[k].Arrive? && steps[k].h == h)
  {
    if n > 0 {
      NotThereYet(steps, n - 1, h);
      RunOneMore(steps, n - 1);
      OneStepArrives(Run(START, steps[..n - 1]), steps[n - 1], h);
    }
  }

  /** A call on its way: forwarded, and with no answer yet. */
  lemma BegunIsForwarded(steps: seq<Step>, h: nat, life: Life)
    requires IsBegun(steps, h, life) && !Run(START, steps[..life.body]).capped
    ensures IsAt(steps, life.sending + 1, h,
                 Handler(Asked(steps[life.body].model, steps[life.body].maxTokens), steps[life.body].stream,
                         if IsRelayed(steps, life) then Relaying(false) else ReadingAnswer))
  {
    BegunIsSent(steps, h, life);
    RunOneMore(steps, life.sending);
  }

  lemma BegunIsSent(steps: seq<Step>, h: nat, life: Life)
    requires IsBegun(steps, h, life) && !Run(START, steps[..life.body]).capped
    ensures IsAt(steps, life.sending, h,
                 Handler(NEW_CALL.(model := steps[life.body].model, maxTokens := steps[life.body].maxTokens),
                         steps[life.body].stream, Sending))
  {
    NotThereYet(steps, life.arrival, h);
    RunOneMore(steps, life.arrival);
    WaitsAsItIs(steps, life.arrival + 1, life.body, h, Handler(NEW_CALL, false, ReadingBody));
    RunOneMore(steps, life.body);
    var call := NEW_CALL.(model := steps[life.body].model, maxTokens := steps[life.body].maxTokens);
    WaitsAsItIs(steps, life.body + 1, life.sending, h, Handler(call, steps[life.body].stream, Sending));
  }

  /** The step that ends a call counts it, with what its answer declared. */
  ghost predicate IsCounted(steps: seq<Step>, n: nat, h: nat, call: Call)
    requires n < |steps|
  {
    && h in Run(START, steps[..n + 1]).handlers
    && Run(START, steps[..n + 1]).handlers[h].call == call && Run(START, steps[..n + 1]).handlers[h].at.Done?
    && Run(START, steps[..n + 1]).paid == Run(START, steps[..n]).paid + [Payment(h, Counted(call))]
  }

  lemma AnsweredIsCounted(steps: seq<Step>, h: nat, life: Life, handler: Handler)
    requires IsEnded(steps, h, life, false) && handler.at == ReadingAnswer
    requires IsAt(steps, life.sending + 1, h, handler) && !handler.call.complete
    ensures IsCounted(steps, life.end, h, FramesRead(handler.call, Told(steps, h, life)))
  {
    WaitsAsItIs(steps, life.sending + 1, life.end, h, handler);
    RunOneMore(steps, life.end);
    ReadAsFrames(handler.call, steps[life.end].found, steps[life.end].complete);
  }

  lemma ReadAsFrames(call: Call, found: Option<Usage>, complete: bool)
    requires !call.complete
    ensures FramesRead(call, AsFrames(found, complete))
         == if found.None? then call else Used(call, found.value).(complete := complete)
  {
    if found.Some? {
      var start := [MessageStart(found.value)];
      assert start[..0] == [] && FramesRead(call, start) == Used(call, found.value);
      assert (start + [MessageStop])[..1] == start;
    }
  }

  lemma RelayedIsCounted(steps: seq<Step>, h: nat, life: Life, handler: Handler)
    requires IsEnded(steps, h, life, true) && handler.at == Relaying(false)
    requires IsAt(steps, life.sending + 1, h, handler)
    ensures IsCounted(steps, life.end, h, FramesRead(handler.call, Told(steps, h, life)))
  {
    RelayedToItsEnd(steps, h, life, handler);
    RunOneMore(steps, life.end);
    LastStep(Run(START, steps[..life.end]), steps[life.end], h);
  }

  lemma RelayedToItsEnd(steps: seq<Step>, h: nat, life: Life, handler: Handler)
    requires IsEnded(steps, h, life, true) && handler.at == Relaying(false)
    requires IsAt(steps, life.sending + 1, h, handler)
    ensures IsAt(steps, life.end, h, Waited(handler.(at := Relaying(true)), Told(steps, h, life)))
  {
    FirstIsRelayed(steps, h, life, handler);
    RelaysOn(steps, life.first + 1, life.end, h, handler.(at := Relaying(true)), steps[life.first].frames);
    FirstAndOthers(steps, h, life.first, life.end);
  }

  lemma RelaysOn(steps: seq<Step>, from: nat, until: nat, h: nat, handler: Handler, frames: seq<Frame>)
    requires from <= until <= |steps| && IsAt(steps, from, h, Waited(handler, frames))
    requires Waits(steps, from, until, h, handler.at)
    ensures IsAt(steps, until, h, Waited(handler, frames + Streamed(steps[from..until], h)))
  {
    WaitsAsItIs(steps, from, until, h, Waited(handler, frames));
    WaitedInTwo(handler, frames, Streamed(steps[from..until], h));
  }

  lemma FirstIsRelayed(steps: seq<Step>, h: nat, life: Life, handler: Handler)
    requires IsEnded(steps, h, life, true) && handler.at == Relaying(false)
    requires IsAt(steps, life.sending + 1, h, handler)
    ensures IsAt(steps, life.first + 1, h, Waited(handler.(at := Relaying(true)), steps[life.first].frames))
  {
    WaitsAsItIs(steps, life.sending + 1, life.first, h, handler);
    RunOneMore(steps, life.first);
    FirstChunk(Run(START, steps[..life.first]), steps[life.first], h);
  }

  lemma FirstAndOthers(steps: seq<Step>, h: nat, first: nat, end: nat)
    requires first < end <= |steps| && steps[first].Chunk? && steps[first].h == h
    ensures Streamed(steps[first..end], h) == steps[first].frames + Streamed(steps[first + 1..end], h)
  {
    assert steps[first..end] == [steps[first]] + steps[first + 1..end];
    StreamedInTwo([steps[first]], steps[first + 1..end], h);
    OneStepStreams(steps[first], h);
  }

  lemma {:induction false} StreamedInTwo(a: seq<Step>, b: seq<Step>, h: nat)
    ensures Streamed(a + b, h) == Streamed(a, h) + Streamed(b, h)
    decreases |b|
  {
    if b == [] {
      assert a + b == a;
    } else {
      assert (a + b)[..|a + b| - 1] == a + b[..|b| - 1];
      StreamedInTwo(a, b[..|b| - 1], h);
      AddedInTurn(Streamed(a, h), Streamed(b[..|b| - 1], h), ChunkOf(b[|b| - 1], h));
    }
  }

  /** A call that lives to its end, and finds the cap not set, is counted at its end with what its answer
      declared. */
  lemma ALifeIsCounted(steps: seq<Step>, h: nat, life: Life) returns (call: Call)
    requires IsLife(steps, h, life) && !Run(START, steps[..life.body]).capped
    ensures IsCounted(steps, life.end, h, call) && IsTold(steps, h, life, call)
  {
    BegunIsForwarded(steps, h, life);
    var asked := Asked(steps[life.body].model, steps[life.body].maxTokens);
    call := FramesRead(asked, Told(steps, h, life));
    FramesTell(asked, Told(steps, h, life));
    var stream := steps[life.body].stream;
    if IsRelayed(steps, life) {
      RelayedIsCounted(steps, h, life, Handler(asked, stream, Relaying(false)));
    } else {
      AnsweredIsCounted(steps, h, life, Handler(asked, stream, ReadingAnswer));
    }
  }

  lemma {:induction false} PaidGrows(steps: seq<Step>, n: nat, m: nat)
    requires n <= m <= |steps|
    ensures Run(START, steps[..n]).paid <= Run(START, steps[..m]).paid
    decreases m
  {
    if n < m {
      PaidGrows(steps, n, m - 1);
      RunOneMore(steps, m - 1);
      OneStepPays(Run(START, steps[..m - 1]), steps[m - 1]);
    }
  }

  /** The step that made a payment. */
  lemma {:induction false} PaidBy(steps: seq<Step>, n: nat, i: nat) returns (k: nat)
    requires n <= |steps| && i < |Run(START, steps[..n]).paid|
    ensures k < n && |Run(START, steps[..k]).paid| == i < |Run(START, steps[..k + 1]).paid|
  {
    RunOneMore(steps, n - 1);
    OneStepPays(Run(START, steps[..n - 1]), steps[n - 1]);
    if i < |Run(START, steps[..n - 1]).paid| {
      k := PaidBy(steps, n - 1, i);
    } else {
      k := n - 1;
    }
  }

  lemma BroughtOrStood(steps: seq<Step>, n: nat, h: nat, at: Await)
    requires n <= |steps| && Stands(Run(START, steps[..n]), h, at)
    ensures n > 0
    ensures Stands(Run(START, steps[..n - 1]), h, at) && steps[n - 1].h == h ==> !Ends(at, steps[n - 1])
    ensures !Stands(Run(START, steps[..n - 1]), h, at) ==> steps[n - 1].h == h
  {
    RunOneMore(steps, n - 1);
    OneStepBrings(Run(START, steps[..n - 1]), steps[n - 1], h, at);
  }

  /** The step that brought a call to its await, since which none has ended it. */
  lemma {:induction false} BroughtBy(steps: seq<Step>, n: nat, h: nat, at: Await) returns (k: nat)
    requires n <= |steps| && Stands(Run(START, steps[..n]), h, at)
    ensures k < n && !Stands(Run(START, steps[..k]), h, at) && Stands(Run(START, steps[..k + 1]), h, at)
    ensures steps[k].h == h && Waits(steps, k + 1, n, h, at)
  {
    BroughtOrStood(steps, n, h, at);
    if Stands(Run(START, steps[..n - 1]), h, at) {
      k := BroughtBy(steps, n - 1, h, at);
    } else {
      k := n - 1;
    }
  }

  /** Where a call was before it came to an await. */
  lemma Before(w: World, step: Step, at: Await)
    requires !Stands(w, step.h, at) && Stands(Next(w, step), step.h, at)
    ensures at == ReadingBody ==> step == Arrive(step.h, true) && step.h !in w.handlers
    ensures at == Sending ==> step.Body? && Stands(w, step.h, ReadingBody) && !w.capped
    ensures at in {ReadingAnswer, Relaying(false)} ==>
              step.Sent? && Stands(w, step.h, Sending)
              && (at == Relaying(false) <==> w.handlers[step.h].stream && step.eventStream)
    ensures at == Relaying(true) ==> step.Chunk? && Stands(w, step.h, Relaying(false))
  {
  }

  lemma Paying(w: World, step: Step)
    requires |w.paid| < |Next(w, step).paid|
    ensures || (step.Answer? && Stands(w, step.h, ReadingAnswer))
            || (step.End? && Stands(w, step.h, Relaying(true)))
  {
  }

  /** What a call at the sending went through. */
  lemma BegunBefore(steps: seq<Step>, h: nat, sending: nat) returns (arrival: nat, body: nat)
    requires sending < |steps| && steps[sending].Sent? && steps[sending].h == h
    requires Stands(Run(START, steps[..sending]), h, Sending)
    ensures IsBegun(steps, h, Life(arrival, body, sending, 0, 0))
    ensures !Run(START, steps[..body]).capped
  {
    body := BroughtBy(steps, sending, h, Sending);
    RunOneMore(steps, body);
    Before(Run(START, steps[..body]), steps[body], Sending);
    arrival := BroughtBy(steps, body, h, ReadingBody);
    RunOneMore(steps, arrival);
    Before(Run(START, steps[..arrival]), steps[arrival], ReadingBody);
    NotThereYet(steps, arrival, h);
  }

  /** A step that pays ends a call that lived. */
  lemma PayingEndsALife(steps: seq<Step>, end: nat) returns (life: Life)
    requires end < |steps| && |Run(START, steps[..end]).paid| < |Run(START, steps[..end + 1]).paid|
    ensures IsLife(steps, steps[end].h, life) && life.end == end && !Run(START, steps[..life.body]).capped
  {
    var h := steps[end].h;
    RunOneMore(steps, end);
    Paying(Run(START, steps[..end]), steps[end]);
    var first, at := end, ReadingAnswer;
    if steps[end].End? {
      first := BroughtBy(steps, end, h, Relaying(true));
      at := Relaying(false);
      RunOneMore(steps, first);
      Before(Run(START, steps[..first]), steps[first], Relaying(true));
    }
    var sending := BroughtBy(steps, first, h, at);
    RunOneMore(steps, sending);
    Before(Run(START, steps[..sending]), steps[sending], at);
    var arrival, body := BegunBefore(steps, h, sending);
    life := Life(arrival, body, sending, first, end);
    BegunIsSent(steps, h, life);
  }

  /** The call of a payment, as it stands at the end of the run, is the call its answer made it. */
  lemma CountedStays(steps: seq<Step>, n: nat, h: nat, call: Call)
    requires n < |steps| && IsCounted(steps, n, h, call)
    ensures var w, i := Run(START, steps), |Run(START, steps[..n]).paid|;
            && i < |w.paid| && w.paid[i] == Payment(h, Counted(call))
            && h in w.handlers && w.handlers[h].call == call
  {
    var handler := Run(START, steps[..n + 1]).handlers[h];
    WaitsAsItIs(steps, n + 1, |steps|, h, handler);
    PaidGrows(steps, n + 1, |steps|);
    assert steps[..|steps|] == steps;
  }

  /** Every payment of a run is that of a call that lived to its end and found the cap not set, and what was
      counted is the call that its answer made of it: of each number, the last one declared. */
  lemma EveryPaymentIsOfALife(steps: seq<Step>, i: nat) returns (life: Life)
    requires i < |Run(START, steps).paid|
    ensures var w := Run(START, steps);
            var h := w.paid[i].h;
            && IsLife(steps, h, life) && !Run(START, steps[..life.body]).capped
            && h in w.handlers && IsTold(steps, h, life, w.handlers[h].call)
            && w.paid[i].cost == Counted(w.handlers[h].call)
  {
    assert steps[..|steps|] == steps;
    var end := PaidBy(steps, |steps|, i);
    life := PayingEndsALife(steps, end);
    var call := ALifeIsCounted(steps, steps[end].h, life);
    CountedStays(steps, end, steps[end].h, call);
  }

  /** A call is counted exactly when it lives to its end and finds the cap not set, and then with what its
      answer declared. */
  lemma EveryLifeIsPaid(steps: seq<Step>, h: nat, life: Life) returns (i: nat)
    requires IsLife(steps, h, life) && Run(START, steps[..life.body]).spent < 1.0
    ensures var w := Run(START, steps);
            && i < |w.paid| && w.paid[i].h == h
            && h in w.handlers && IsTold(steps, h, life, w.handlers[h].call)
            && w.paid[i].cost == Counted(w.handlers[h].call)
  {
    EveryRun(steps[..life.body]);
    var call := ALifeIsCounted(steps, h, life);
    CountedStays(steps, life.end, h, call);
    i := |Run(START, steps[..life.end]).paid|;
  }

  /** A call of Opus that is answered at once, with 300000 tokens of input and 1000 of output: it costs a
      dollar and 22 cents, and sets the cap. */
  lemma OneAnswerSetsTheCap()
    ensures var steps := [Arrive(0, true), Body(0, Some("claude-opus-5-5"), Some(8192), false), Sent(0, false),
                          Answer(0, Some(Usage(Some(300000), Some(1000), None, None, None, None)), true)];
            && Run(START, steps).paid == [Payment(0, 1.22)]
            && Run(START, steps).spent == 1.22 && Run(START, steps).capped && Run(START, steps).interrupts == 1
  {
    var steps := [Arrive(0, true), Body(0, Some(OPUS_5_5), Some(8192), false), Sent(0, false),
                  Answer(0, Some(Usage(Some(300000), Some(1000), None, None, None, None)), true)];
    var call := Asked(Some(OPUS_5_5), Some(8192));
    RunOneMore(steps, 0);
    RunOneMore(steps, 1);
    RunOneMore(steps, 2);
    assert Run(START, steps[..3]) == World(0.0, false, 0, map[0 := Handler(call, false, ReadingAnswer)], []);
    RunOneMore(steps, 3);
    assert steps[..4] == steps;
    ItsPrice(call.(inputTokens := 300000, outputTokens := 1000, complete := true));
  }

  lemma ItsPrice(call: Call)
    requires call.forwarded && call.model == Some(OPUS_5_5) && call.complete
    requires call.inputTokens == 300000 && call.outputTokens == 1000
    requires call.cacheWrite5m == 0 && call.cacheWrite1h == 0 && call.cacheRead == 0
    ensures Counted(call) == 1.22
  {
    RatesAreListed(Fed(call));
  }

  // ------------------------------------------------------------------------------------------
  // The counter itself
  // ------------------------------------------------------------------------------------------

  /** The part of the running program that counts. */
  class Meter {
    var spent: real
    var capped: bool
    var interrupts: nat

    constructor ()
      ensures spent == 0.0 && !capped && interrupts == 0
    {
      spent, capped, interrupts := 0.0, false, 0;
    }

    /** `counted`: as `CountedIn` says of a world. */
    method CountCall(call: LiveCall)
      modifies this
      ensures var w := CountedIn(World(old(spent), old(capped), old(interrupts), map[], []), 0, call.now);
              spent == w.spent && capped == w.capped && interrupts == w.interrupts
      ensures (old(capped) <==> old(spent) >= CAP_USD) ==> (capped <==> spent >= CAP_USD)
    {
      CountedIsNotNegative(call.now);
      var cost := Counted(call.now);
      spent := spent + cost;
      if spent >= CAP_USD && !capped {
        capped := true;
        interrupts := interrupts + 1;
      }
    }
  }
}
