/**
 What the month must have free before a guided section begins (scripts/prova_m13_12.py,
 `needed_by_step` and `the_most`), against every way the section can go. A mapping whose keys are
 taken in order is given as the sequence of its entries, in order.
 */
module Forecast {

  /** A session the section opens: the amount it reserves or asks about, and whether it asks, in
      which case it does not start. */
  datatype Session = Session(amount: real, asks: bool)

  /** The sessions of one step of the section. */
  datatype Step = Step(number: int, sessions: seq<Session>)

  /** A session when its turn comes, with the number of its step. */
  datatype Turn = Turn(number: int, session: Session)

  // ------------------------------------------------------------------------------------------
  // The forecast
  // ------------------------------------------------------------------------------------------

  function Max(a: real, b: real): real {
    if a < b then b else a
  }

  /** What was met so far: the most that the sessions started may have spent, and what each step needs. */
  datatype Tally = Tally(started: real, needed: map<int, real>)

  function NeededBy(tally: Tally, number: int): real {
    if number in tally.needed then tally.needed[number] else 0.0
  }

  function Met(tally: Tally, turn: Turn): Tally {
    Tally(if turn.session.asks then tally.started else tally.started + turn.session.amount,
          tally.needed[turn.number := Max(NeededBy(tally, turn.number), tally.started + turn.session.amount)])
  }

  function Tallied(turns: seq<Turn>): Tally
    decreases |turns|
  {
    if turns == [] then Tally(0.0, map[]) else Met(Tallied(turns[..|turns| - 1]), turns[|turns| - 1])
  }

  function TurnsOf(number: int, sessions: seq<Session>): seq<Turn>
    decreases |sessions|
  {
    if sessions == [] then []
    else TurnsOf(number, sessions[..|sessions| - 1]) + [Turn(number, sessions[|sessions| - 1])]
  }

  /** The sessions of a section in the order they are met. */
  function Turns(steps: seq<Step>): seq<Turn>
    decreases |steps|
  {
    if steps == [] then []
    else
      var last := steps[|steps| - 1];
      Turns(steps[..|steps| - 1]) + TurnsOf(last.number, last.sessions)
  }

  lemma OneTurnMore(before: seq<Turn>, walked: seq<Turn>, number: int, sessions: seq<Session>, i: nat)
    requires i < |sessions| && walked == before + TurnsOf(number, sessions[..i])
    ensures walked + [Turn(number, sessions[i])] == before + TurnsOf(number, sessions[..i + 1])
    ensures Tallied(walked + [Turn(number, sessions[i])]) == Met(Tallied(walked), Turn(number, sessions[i]))
  {
    assert sessions[..i + 1][..i] == sessions[..i];
    assert (walked + [Turn(number, sessions[i])])[..|walked|] == walked;
  }

  /** `needed_by_step`. */
  method NeededByStep(steps: seq<Step>) returns (needed: map<int, real>)
    ensures needed == Tallied(Turns(steps)).needed
  {
    var started := 0.0;
    needed := map[];
    for k := 0 to |steps|
      invariant Tally(started, needed) == Tallied(Turns(steps[..k]))
    {
      var number, sessions := steps[k].number, steps[k].sessions;
      ghost var walked := Turns(steps[..k]);
      for i := 0 to |sessions|
        invariant walked == Turns(steps[..k]) + TurnsOf(number, sessions[..i])
        invariant Tally(started, needed) == Tallied(walked)
      {
        OneTurnMore(Turns(steps[..k]), walked, number, sessions, i);
        walked := walked + [Turn(number, sessions[i])];
        var amount := sessions[i].amount;
        needed := needed[number := Max(if number in needed then needed[number] else 0.0, started + amount)];
        if !sessions[i].asks {
          started := started + amount;
        }
      }
      assert sessions[..|sessions|] == sessions;
      assert steps[..k + 1][..k] == steps[..k];
    }
    assert steps[..|steps|] == steps;
  }

  /** `the_most`: the step that asks for the most, the first one on a tie. */
  method TheMost(numbers: seq<int>, needed: map<int, real>) returns (number: int, most: real)
    requires numbers != [] && forall i, j :: 0 <= i < j < |numbers| ==> numbers[i] < numbers[j]
    requires forall n :: n in numbers <==> n in needed
    ensures number in needed && most == needed[number] && IsTheMost(needed, most)
    ensures forall n :: n in needed && n < number ==> needed[n] < most
  {
    number := numbers[0];
    ghost var at := 0;
    for k := 1 to |numbers|
      invariant 0 <= at < k && number == numbers[at] && number in needed
      invariant forall i :: 0 <= i < k ==> numbers[i] in needed && needed[numbers[i]] <= needed[number]
      invariant forall i :: 0 <= i < at ==> needed[numbers[i]] < needed[number]
    {
      assert numbers[k] in numbers;
      if needed[numbers[k]] > needed[number] {
        number, at := numbers[k], k;
      }
    }
    most := needed[number];
    forall n | n in needed
      ensures needed[n] <= most && (n < number ==> needed[n] < most)
    {
      var i :| 0 <= i < |numbers| && numbers[i] == n;
      assert i > at ==> numbers[at] < numbers[i];
    }
  }

  ghost predicate IsTheMost(needed: map<int, real>, most: real) {
    && (exists n :: n in needed && needed[n] == most)
    && (forall n :: n in needed ==> needed[n] <= most)
  }

  // ------------------------------------------------------------------------------------------
  // How the section can go
  // ------------------------------------------------------------------------------------------

  /** What each session that starts really costs: anything up to its price. */
  ghost predicate WithinPrices(turns: seq<Turn>, costs: seq<real>) {
    && |costs| == |turns|
    && forall i :: 0 <= i < |turns| ==> 0.0 <= costs[i] <= turns[i].session.amount
  }

  /** What the sessions that started have cost. */
  function Spent(turns: seq<Turn>, costs: seq<real>): real
    requires |costs| == |turns|
    decreases |turns|
  {
    if turns == [] then 0.0
    else
      var last := |turns| - 1;
      Spent(turns[..last], costs[..last]) + (if turns[last].session.asks then 0.0 else costs[last])
  }

  /** With `free` dollars at the start and these costs, each session finds its amount free when its
      turn comes. */
  ghost predicate GoesThrough(free: real, turns: seq<Turn>, costs: seq<real>)
    requires |costs| == |turns|
  {
    forall i :: 0 <= i < |turns| ==> turns[i].session.amount <= free - Spent(turns[..i], costs[..i])
  }

  ghost predicate NeverRefused(free: real, turns: seq<Turn>) {
    forall costs :: WithinPrices(turns, costs) ==> GoesThrough(free, turns, costs)
  }

  ghost predicate Priced(turns: seq<Turn>) {
    forall i :: 0 <= i < |turns| ==> turns[i].session.amount >= 0.0
  }

  /** Every session at its full price. */
  function FullPrices(turns: seq<Turn>): seq<real> {
    seq(|turns|, i requires 0 <= i < |turns| => turns[i].session.amount)
  }

  lemma {:induction false} FullPricesAreTallied(turns: seq<Turn>)
    ensures Spent(turns, FullPrices(turns)) == Tallied(turns).started
    decreases |turns|
  {
    if turns != [] {
      FullPricesAreTallied(turns[..|turns| - 1]);
      assert FullPrices(turns)[..|turns| - 1] == FullPrices(turns[..|turns| - 1]);
    }
  }

  lemma {:induction false} SpentIsAtMostTallied(turns: seq<Turn>, costs: seq<real>)
    requires WithinPrices(turns, costs)
    ensures Spent(turns, costs) <= Tallied(turns).started
    decreases |turns|
  {
    if turns != [] {
      SpentIsAtMostTallied(turns[..|turns| - 1], costs[..|turns| - 1]);
    }
  }

  /** What a session needs when its turn comes, if everything before it cost its full price. */
  function NeedAt(turns: seq<Turn>, i: nat): real
    requires i < |turns|
  {
    Tallied(turns[..i]).started + turns[i].session.amount
  }

  lemma NeedStays(before: seq<Turn>, last: Turn, i: nat)
    requires i < |before|
    ensures NeedAt(before + [last], i) == NeedAt(before, i) && (before + [last])[i] == before[i]
  {
    assert (before + [last])[..i] == before[..i];
  }

  lemma TalliedStep(before: seq<Turn>, last: Turn)
    ensures Tallied(before + [last]) == Met(Tallied(before), last)
    ensures NeedAt(before + [last], |before|) == Tallied(before).started + last.session.amount
  {
    assert (before + [last])[..|before|] == before;
  }

  /** A step needs what each of its sessions needs. */
  lemma {:induction false} EverySessionIsCovered(turns: seq<Turn>, i: nat)
    requires i < |turns|
    ensures turns[i].number in Tallied(turns).needed && NeedAt(turns, i) <= Tallied(turns).needed[turns[i].number]
    decreases |turns|
  {
    var before, last := turns[..|turns| - 1], turns[|turns| - 1];
    assert turns == before + [last];
    TalliedStep(before, last);
    if i < |before| {
      NeedStays(before, last, i);
      EverySessionIsCovered(before, i);
    }
  }

  lemma {:induction false} StartedIsNotNegative(turns: seq<Turn>)
    requires Priced(turns)
    ensures Tallied(turns).started >= 0.0
    decreases |turns|
  {
    if turns != [] {
      StartedIsNotNegative(turns[..|turns| - 1]);
    }
  }

  /** And no more: one of its sessions needs all of it. */
  lemma {:induction false} SomeSessionNeedsIt(turns: seq<Turn>, number: int) returns (i: nat)
    requires Priced(turns) && number in Tallied(turns).needed
    ensures i < |turns| && turns[i].number == number && NeedAt(turns, i) == Tallied(turns).needed[number]
    decreases |turns|
  {
    var before, last := turns[..|turns| - 1], turns[|turns| - 1];
    assert turns == before + [last];
    TalliedStep(before, last);
    StartedIsNotNegative(before);
    if last.number == number && NeedAt(turns, |before|) == Tallied(turns).needed[number] {
      i := |before|;
    } else {
      i := SomeSessionNeedsIt(before, number);
      NeedStays(before, last, i);
    }
  }

  /** The forecast is sufficient and tight: a section is never refused an amount, whatever its sessions
      cost up to their prices, exactly when the month has free the most that any step needs. */
  lemma ForecastIsExact(turns: seq<Turn>, free: real, most: real)
    requires Priced(turns) && IsTheMost(Tallied(turns).needed, most)
    ensures NeverRefused(free, turns) <==> most <= free
  {
    if most <= free {
      forall costs | WithinPrices(turns, costs)
        ensures GoesThrough(free, turns, costs)
      {
        EnoughGoesThrough(turns, free, most, costs);
      }
    } else {
      LessIsRefused(turns, free, most);
    }
  }

  lemma EnoughGoesThrough(turns: seq<Turn>, free: real, most: real, costs: seq<real>)
    requires Priced(turns) && IsTheMost(Tallied(turns).needed, most) && most <= free && WithinPrices(turns, costs)
    ensures GoesThrough(free, turns, costs)
  {
    forall i | 0 <= i < |turns|
      ensures turns[i].session.amount <= free - Spent(turns[..i], costs[..i])
    {
      EverySessionIsCovered(turns, i);
      SpentIsAtMostTallied(turns[..i], costs[..i]);
    }
  }

  /** With any less, the run in which every session costs its full price refuses one. */
  lemma LessIsRefused(turns: seq<Turn>, free: real, most: real)
    requires Priced(turns) && IsTheMost(Tallied(turns).needed, most) && free < most
    ensures WithinPrices(turns, FullPrices(turns)) && !GoesThrough(free, turns, FullPrices(turns))
  {
    var n :| n in Tallied(turns).needed && Tallied(turns).needed[n] == most;
    var i := SomeSessionNeedsIt(turns, n);
    FullPricesAreTallied(turns[..i]);
    assert FullPrices(turns)[..i] == FullPrices(turns[..i]);
  }

  /** A question takes nothing from the month: turning a session that starts into one that asks never
      raises what the section needs. */
  lemma {:induction false} AskingNeedsNoMore(turns: seq<Turn>, asking: seq<Turn>)
    requires Priced(turns) && |asking| == |turns|
    requires forall i :: 0 <= i < |turns| ==>
               && asking[i].number == turns[i].number && asking[i].session.amount == turns[i].session.amount
               && (turns[i].session.asks ==> asking[i].session.asks)
    ensures Tallied(asking).started <= Tallied(turns).started
    ensures Tallied(asking).needed.Keys == Tallied(turns).needed.Keys
    ensures forall n :: n in Tallied(asking).needed ==> Tallied(asking).needed[n] <= Tallied(turns).needed[n]
    decreases |turns|
  {
    if turns != [] {
      AskingNeedsNoMore(turns[..|turns| - 1], asking[..|turns| - 1]);
    }
  }

  // ------------------------------------------------------------------------------------------
  // The two together
  // ------------------------------------------------------------------------------------------

  /** The steps of a section come by their numbers. */
  ghost predicate AreNumbered(steps: seq<Step>) {
    forall i, j :: 0 <= i < j < |steps| ==> steps[i].number < steps[j].number
  }

  lemma {:induction false} TurnsAreNumbered(number: int, sessions: seq<Session>, i: nat)
    requires i < |TurnsOf(number, sessions)|
    ensures TurnsOf(number, sessions)[i].number == number
    decreases |sessions|
  {
    if i < |TurnsOf(number, sessions[..|sessions| - 1])| {
      TurnsAreNumbered(number, sessions[..|sessions| - 1], i);
    }
  }

  lemma {:induction false} TurnsAreOfSteps(steps: seq<Step>, i: nat) returns (k: nat)
    requires i < |Turns(steps)|
    ensures k < |steps| && steps[k].number == Turns(steps)[i].number
    decreases |steps|
  {
    var before, last := steps[..|steps| - 1], steps[|steps| - 1];
    assert Turns(steps) == Turns(before) + TurnsOf(last.number, last.sessions);
    if i < |Turns(before)| {
      k := TurnsAreOfSteps(before, i);
    } else {
      TurnsAreNumbered(last.number, last.sessions, i - |Turns(before)|);
      k := |steps| - 1;
    }
  }

  lemma {:induction false} NeedsAreOfTurns(turns: seq<Turn>, number: int) returns (i: nat)
    requires number in Tallied(turns).needed
    ensures i < |turns| && turns[i].number == number
    decreases |turns|
  {
    if turns[|turns| - 1].number == number {
      i := |turns| - 1;
    } else {
      i := NeedsAreOfTurns(turns[..|turns| - 1], number);
    }
  }

  lemma NeedsAreOfSteps(steps: seq<Step>, number: int) returns (k: nat)
    requires number in Tallied(Turns(steps)).needed
    ensures k < |steps| && steps[k].number == number
  {
    var i := NeedsAreOfTurns(Turns(steps), number);
    k := TurnsAreOfSteps(steps, i);
  }

  /** The margin a section asks before it begins: what the month must have free, exactly, for no session
      ever to be refused, and the step that asks for it. */
  method Margin(steps: seq<Step>) returns (number: int, most: real)
    requires AreNumbered(steps) && Turns(steps) != []
    ensures number in Tallied(Turns(steps)).needed && most == Tallied(Turns(steps)).needed[number]
    ensures Priced(Turns(steps)) ==> forall free: real :: NeverRefused(free, Turns(steps)) <==> most <= free
  {
    var needed := NeededByStep(steps);
    var numbers: seq<int> := [];
    for k := 0 to |steps|
      invariant forall i, j :: 0 <= i < j < |numbers| ==> numbers[i] < numbers[j]
      invariant forall i :: 0 <= i < |numbers| ==> exists j :: 0 <= j < k && steps[j].number == numbers[i]
      invariant forall n :: n in numbers <==> n in needed && exists j :: 0 <= j < k && steps[j].number == n
    {
      if steps[k].number in needed {
        numbers := numbers + [steps[k].number];
      }
    }
    EverySessionIsCovered(Turns(steps), 0);
    forall n | n in needed
      ensures n in numbers
    {
      var k := NeedsAreOfSteps(steps, n);
    }
    number, most := TheMost(numbers, needed);
    if Priced(Turns(steps)) {
      forall free: real
        ensures NeverRefused(free, Turns(steps)) <==> most <= free
      {
        ForecastIsExact(Turns(steps), free, most);
      }
    }
  }
}
