/**
 A number of seconds in words (src/ela/api/companion.py, `counted` and `how_long`), and the reader
 that gets the number back.
 */
module Durations {
  import opened Decimals

  // ------------------------------------------------------------------------------------------
  // The phrase
  // ------------------------------------------------------------------------------------------

  datatype Unit = Hour | Minute | Second

  function One(part: Unit): string {
    match part
    case Hour => "un'ora"
    case Minute => "un minuto"
    case Second => "un secondo"
  }

  function Many(part: Unit): string {
    match part
    case Hour => "ore"
    case Minute => "minuti"
    case Second => "secondi"
  }

  const AND := " e "
  const NO_TIME := "nessun tempo"

  /** `counted`: nothing at all, the singular, or the number and the plural. */
  function Counted(howMany: nat, part: Unit): string {
    if howMany == 0 then "" else if howMany == 1 then One(part) else Decimal(howMany) + " " + Many(part)
  }

  function Said(parts: seq<Unit>, counts: seq<nat>): seq<string>
    requires |counts| == |parts|
  {
    if parts == [] then []
    else
      var said := Counted(counts[0], parts[0]);
      (if said == "" then [] else [said]) + Said(parts[1..], counts[1..])
  }

  function Joined(texts: seq<string>): string {
    if texts == [] then "" else if |texts| == 1 then texts[0] else texts[0] + AND + Joined(texts[1..])
  }

  const UNITS: seq<Unit> := [Hour, Minute, Second]

  function Counts(seconds: nat): seq<nat> {
    [seconds / 3600, seconds % 3600 / 60, seconds % 3600 % 60]
  }

  /** `how_long`. */
  function HowLong(seconds: nat): string {
    var said := Said(UNITS, Counts(seconds));
    if said == [] then NO_TIME else Joined(said)
  }

  // ------------------------------------------------------------------------------------------
  // The reader
  // ------------------------------------------------------------------------------------------

  /** How many of a unit a text opens with, and what follows them; none when it opens otherwise. */
  function ReadPart(text: string, part: Unit): (nat, string) {
    if One(part) <= text then (1, text[|One(part)|..])
    else
      var (n, rest) := ReadNumber(text, 0);
      if n > 1 && " " + Many(part) <= rest then (n, rest[|Many(part)| + 1..]) else (0, text)
  }

  function PastTheAnd(text: string): string {
    if AND <= text then text[|AND|..] else text
  }

  function ReadParts(text: string, parts: seq<Unit>): (counts: seq<nat>)
    ensures |counts| == |parts|
    decreases |parts|
  {
    if parts == [] then []
    else
      var (n, rest) := ReadPart(text, parts[0]);
      [n] + ReadParts(PastTheAnd(rest), parts[1..])
  }

  function ReadLong(text: string): nat {
    var counts := ReadParts(text, UNITS);
    3600 * counts[0] + 60 * counts[1] + counts[2]
  }

  // ------------------------------------------------------------------------------------------
  // The round trip
  // ------------------------------------------------------------------------------------------

  lemma OneIsRead(part: Unit, rest: string)
    ensures ReadPart(One(part) + rest, part) == (1, rest)
  {
    assert One(part) <= One(part) + rest && (One(part) + rest)[|One(part)|..] == rest;
  }

  lemma ManyAreRead(howMany: nat, part: Unit, rest: string)
    requires howMany > 1
    ensures ReadPart(Decimal(howMany) + (" " + Many(part) + rest), part) == (howMany, rest)
  {
    var after := " " + Many(part) + rest;
    DecimalIsRead(howMany, after);
    assert (Decimal(howMany) + after)[0] != One(part)[0];
    assert after[|Many(part)| + 1..] == rest;
  }

  lemma PartIsRead(howMany: nat, part: Unit, rest: string)
    requires howMany > 0
    ensures ReadPart(Counted(howMany, part) + rest, part) == (howMany, rest)
  {
    if howMany == 1 {
      OneIsRead(part, rest);
    } else {
      assert Counted(howMany, part) + rest == Decimal(howMany) + (" " + Many(part) + rest);
      ManyAreRead(howMany, part, rest);
    }
  }

  lemma OtherOneIsLeft(part: Unit, rest: string, asked: Unit)
    requires part != asked
    ensures ReadPart(One(part) + rest, asked) == (0, One(part) + rest)
  {
    var text := One(part) + rest;
    assert text[0] == 'u' && text[2] == One(part)[2] && text[3] == One(part)[3];
    assert One(asked)[2] != text[2] || One(asked)[3] != text[3];
  }

  lemma OtherManyAreLeft(howMany: nat, part: Unit, rest: string, asked: Unit)
    requires part != asked
    ensures ReadPart(Decimal(howMany) + (" " + Many(part) + rest), asked)
         == (0, Decimal(howMany) + (" " + Many(part) + rest))
  {
    var after := " " + Many(part) + rest;
    DecimalIsRead(howMany, after);
    assert (Decimal(howMany) + after)[0] != One(asked)[0];
    assert after[1] == Many(part)[0] != Many(asked)[0] == (" " + Many(asked))[1];
  }

  lemma OtherPartIsLeft(howMany: nat, part: Unit, rest: string, asked: Unit)
    requires howMany > 0 && part != asked
    ensures ReadPart(Counted(howMany, part) + rest, asked) == (0, Counted(howMany, part) + rest)
  {
    if howMany == 1 {
      OtherOneIsLeft(part, rest, asked);
    } else {
      assert Counted(howMany, part) + rest == Decimal(howMany) + (" " + Many(part) + rest);
      OtherManyAreLeft(howMany, part, rest, asked);
    }
  }

  ghost predicate AreDistinct(parts: seq<Unit>) {
    forall i, j :: 0 <= i < j < |parts| ==> parts[i] != parts[j]
  }

  /** A phrase without a unit says nothing of it. */
  lemma {:induction false} AbsentPart(parts: seq<Unit>, counts: seq<nat>, asked: Unit)
    requires |counts| == |parts| && asked !in parts
    ensures ReadPart(Joined(Said(parts, counts)), asked) == (0, Joined(Said(parts, counts)))
    ensures !(AND <= Joined(Said(parts, counts)))
  {
    if parts != [] {
      var said := Said(parts, counts);
      if counts[0] == 0 {
        AbsentPart(parts[1..], counts[1..], asked);
        assert said == Said(parts[1..], counts[1..]);
      } else {
        var others := Said(parts[1..], counts[1..]);
        assert said[1..] == others;
        var rest := if others == [] then "" else AND + Joined(others);
        assert Joined(said) == Counted(counts[0], parts[0]) + rest;
        OtherPartIsLeft(counts[0], parts[0], rest, asked);
        assert Joined(said)[0] != ' ';
      }
    }
  }

  lemma PresentIsRead(howMany: nat, part: Unit, others: seq<string>)
    requires howMany > 0
    ensures var phrase := Joined([Counted(howMany, part)] + others);
            ReadPart(phrase, part).0 == howMany && PastTheAnd(ReadPart(phrase, part).1) == Joined(others)
  {
    var first, rest := Counted(howMany, part), if others == [] then "" else AND + Joined(others);
    assert ([first] + others)[1..] == others;
    assert Joined([first] + others) == first + rest;
    PartIsRead(howMany, part, rest);
    assert others != [] ==> rest[|AND|..] == Joined(others);
  }

  lemma HeadIsRead(parts: seq<Unit>, counts: seq<nat>)
    requires |counts| == |parts| && parts != [] && parts[0] !in parts[1..]
    ensures ReadPart(Joined(Said(parts, counts)), parts[0]).0 == counts[0]
    ensures PastTheAnd(ReadPart(Joined(Said(parts, counts)), parts[0]).1) == Joined(Said(parts[1..], counts[1..]))
  {
    var said, others := Said(parts, counts), Said(parts[1..], counts[1..]);
    if counts[0] == 0 {
      AbsentPart(parts[1..], counts[1..], parts[0]);
      assert said == others;
    } else {
      assert said == [Counted(counts[0], parts[0])] + others;
      PresentIsRead(counts[0], parts[0], others);
    }
  }

  lemma {:induction false} PartsAreRead(parts: seq<Unit>, counts: seq<nat>)
    requires |counts| == |parts| && AreDistinct(parts)
    ensures ReadParts(Joined(Said(parts, counts)), parts) == counts
  {
    if parts != [] {
      HeadIsRead(parts, counts);
      PartsAreRead(parts[1..], counts[1..]);
    }
  }

  /** The exact number is read back from the phrase, whatever it is: nothing is rounded, and a phrase
      without an hour, a minute or a second reads as one with none of them. */
  lemma HowLongIsRead(seconds: nat)
    ensures ReadLong(HowLong(seconds)) == seconds
  {
    PartsAreRead(UNITS, Counts(seconds));
    CountsAddUp(seconds);
    if Said(UNITS, Counts(seconds)) == [] {
      NothingSaid(UNITS, Counts(seconds));
      NoTimeIsRead();
    }
  }

  /** Hours, what they leave in minutes, and what those leave in seconds. */
  lemma CountsAddUp(seconds: nat)
    ensures var counts := Counts(seconds);
            counts[1] < 60 && counts[2] < 60 && 3600 * counts[0] + 60 * counts[1] + counts[2] == seconds
  {
  }

  lemma NoTimeIsRead()
    ensures ReadParts(NO_TIME, UNITS) == [0, 0, 0]
  {
    assert UNITS[1..] == [Minute, Second] && UNITS[1..][1..] == [Second] && UNITS[1..][1..][1..] == [];
    forall part: Unit
      ensures ReadPart(NO_TIME, part) == (0, NO_TIME)
    {
      assert NO_TIME[0] == 'n' && One(part)[0] == 'u';
    }
    assert PastTheAnd(NO_TIME) == NO_TIME;
    assert ReadParts(NO_TIME, []) == [] && ReadParts(NO_TIME, [Second]) == [0];
    assert ReadParts(NO_TIME, [Minute, Second]) == [0] + [0];
  }

  lemma {:induction false} NothingSaid(parts: seq<Unit>, counts: seq<nat>)
    requires |counts| == |parts|
    ensures Said(parts, counts) == [] <==> forall i :: 0 <= i < |counts| ==> counts[i] == 0
  {
    if parts != [] {
      NothingSaid(parts[1..], counts[1..]);
      if counts[0] == 0 {
        assert forall i :: 0 < i < |counts| ==> counts[i] == counts[1..][i - 1];
        assert forall i :: 0 <= i < |counts| - 1 ==> counts[1..][i] == counts[i + 1];
      }
    }
  }

  /** Two lengths of time are never said alike. */
  lemma HowLongTellsTimesApart(one: nat, other: nat)
    requires HowLong(one) == HowLong(other)
    ensures one == other
  {
    HowLongIsRead(one);
    HowLongIsRead(other);
  }
}
