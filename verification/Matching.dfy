/**
 What an output lacks of what was expected (scripts/prova_m6_3c.py, `contains` and `missing`). Lines
 are sequences of words, split and filled before they come here.
 */
module Matching {

  type Line = seq<string>

  predicate RunAt(words: Line, wanted: Line, start: nat) {
    start + |wanted| <= |words| && words[start..start + |wanted|] == wanted
  }

  /** `wanted` is a contiguous run of whole words of `words`. */
  predicate Contains(words: Line, wanted: Line) {
    |wanted| > 0 && exists start: nat :: start < |words| && RunAt(words, wanted, start)
  }

  /** The first line from `after` on that contains what is wanted, or the number of lines. */
  function FirstFrom(lines: seq<Line>, after: nat, wanted: Line): (at: nat)
    requires after <= |lines|
    ensures after <= at <= |lines|
    ensures at < |lines| ==> Contains(lines[at], wanted)
    ensures forall i :: after <= i < at ==> !Contains(lines[i], wanted)
    decreases |lines| - after
  {
    if after == |lines| || Contains(lines[after], wanted) then after else FirstFrom(lines, after + 1, wanted)
  }

  /** The expected lines not found, looking for each after the line where the one before it was. */
  function MissingFrom(expected: seq<Line>, lines: seq<Line>, after: nat): seq<Line>
    requires after <= |lines|
    decreases |expected|
  {
    if expected == [] then []
    else
      var at := FirstFrom(lines, after, expected[0]);
      if at == |lines| then [expected[0]] + MissingFrom(expected[1..], lines, after)
      else MissingFrom(expected[1..], lines, at + 1)
  }

  /** `missing`: one pass over the expected lines. */
  method Missing(expected: seq<Line>, lines: seq<Line>) returns (absent: seq<Line>)
    ensures absent == MissingFrom(expected, lines, 0)
    ensures absent == [] <==> exists places :: Embeds(expected, lines, 0, places)
  {
    absent := [];
    var after := 0;
    for i := 0 to |expected|
      invariant after <= |lines|
      invariant absent + MissingFrom(expected[i..], lines, after) == MissingFrom(expected, lines, 0)
    {
      var wanted := expected[i];
      var at := after;
      while at < |lines| && !Contains(lines[at], wanted)
        invariant after <= at <= |lines|
        invariant FirstFrom(lines, after, wanted) == FirstFrom(lines, at, wanted)
      {
        at := at + 1;
      }
      assert expected[i..][1..] == expected[i + 1..];
      if at == |lines| {
        ghost var rest := MissingFrom(expected[i + 1..], lines, after);
        assert absent + ([wanted] + rest) == absent + [wanted] + rest;
        absent := absent + [wanted];
      } else {
        after := at + 1;
      }
    }
    NothingMissingIsAnEmbedding(expected, lines, 0);
  }

  /** A strictly increasing assignment of the expected lines to lines from `after` on, each expected
      line a run of words of its own. */
  ghost predicate Embeds(expected: seq<Line>, lines: seq<Line>, after: nat, places: seq<nat>) {
    && |places| == |expected|
    && (forall i :: 0 <= i < |places| ==> after <= places[i] < |lines| && Contains(lines[places[i]], expected[i]))
    && (forall i, j :: 0 <= i < j < |places| ==> places[i] < places[j])
  }

  /** Taking the first line every time loses nothing: whatever embeds, embeds after it too. */
  lemma {:induction false} GreedyFinds(expected: seq<Line>, lines: seq<Line>, after: nat, places: seq<nat>)
    requires after <= |lines| && Embeds(expected, lines, after, places)
    ensures MissingFrom(expected, lines, after) == []
    decreases |expected|
  {
    if expected != [] {
      var at := FirstFrom(lines, after, expected[0]);
      assert at <= places[0];
      var later := places[1..];
      assert forall i :: 0 <= i < |later| ==> later[i] == places[i + 1] && expected[1..][i] == expected[i + 1];
      GreedyFinds(expected[1..], lines, at + 1, later);
    }
  }

  /** The lines `missing` does not report, in their order. */
  function FoundFrom(expected: seq<Line>, lines: seq<Line>, after: nat): seq<Line>
    requires after <= |lines|
    decreases |expected|
  {
    if expected == [] then []
    else
      var at := FirstFrom(lines, after, expected[0]);
      if at == |lines| then FoundFrom(expected[1..], lines, after)
      else [expected[0]] + FoundFrom(expected[1..], lines, at + 1)
  }

  lemma EmbedsMore(wanted: Line, expected: seq<Line>, lines: seq<Line>, after: nat, at: nat, later: seq<nat>)
    requires after <= at < |lines| && Contains(lines[at], wanted)
    requires Embeds(expected, lines, at + 1, later)
    ensures Embeds([wanted] + expected, lines, after, [at] + later)
  {
    var places, all := [at] + later, [wanted] + expected;
    forall i | 0 <= i < |places|
      ensures after <= places[i] < |lines| && Contains(lines[places[i]], all[i])
    {
      if i > 0 {
        assert places[i] == later[i - 1] && all[i] == expected[i - 1];
      }
    }
  }

  /** In every case what is not reported embeds, in order. */
  lemma {:induction false} FoundEmbeds(expected: seq<Line>, lines: seq<Line>, after: nat) returns (places: seq<nat>)
    requires after <= |lines|
    ensures Embeds(FoundFrom(expected, lines, after), lines, after, places)
    decreases |expected|
  {
    if expected == [] {
      places := [];
    } else {
      var at := FirstFrom(lines, after, expected[0]);
      if at == |lines| {
        places := FoundEmbeds(expected[1..], lines, after);
      } else {
        var later := FoundEmbeds(expected[1..], lines, at + 1);
        places := [at] + later;
        EmbedsMore(expected[0], FoundFrom(expected[1..], lines, at + 1), lines, after, at, later);
      }
    }
  }

  /** Every expected line is reported or found, and none is both: the two lists together are the
      expected lines. */
  lemma {:induction false} ReportedOrFound(expected: seq<Line>, lines: seq<Line>, after: nat)
    requires after <= |lines|
    ensures multiset(expected)
         == multiset(MissingFrom(expected, lines, after)) + multiset(FoundFrom(expected, lines, after))
    decreases |expected|
  {
    if expected != [] {
      assert expected == [expected[0]] + expected[1..];
      var at := FirstFrom(lines, after, expected[0]);
      ReportedOrFound(expected[1..], lines, if at == |lines| then after else at + 1);
    }
  }

  lemma {:induction false} NothingMissingIsAllFound(expected: seq<Line>, lines: seq<Line>, after: nat)
    requires after <= |lines| && MissingFrom(expected, lines, after) == []
    ensures FoundFrom(expected, lines, after) == expected
    decreases |expected|
  {
    if expected != [] {
      var at := FirstFrom(lines, after, expected[0]);
      NothingMissingIsAllFound(expected[1..], lines, at + 1);
    }
  }

  /** Nothing is missing exactly when the expected lines embed in the output, in order. */
  lemma NothingMissingIsAnEmbedding(expected: seq<Line>, lines: seq<Line>, after: nat)
    requires after <= |lines|
    ensures MissingFrom(expected, lines, after) == [] <==> exists places :: Embeds(expected, lines, after, places)
  {
    if MissingFrom(expected, lines, after) == [] {
      NothingMissingIsAllFound(expected, lines, after);
      var places := FoundEmbeds(expected, lines, after);
    }
    if places :| Embeds(expected, lines, after, places) {
      GreedyFinds(expected, lines, after, places);
    }
  }

  // ------------------------------------------------------------------------------------------
  // When what is reported is not in the output at all
  // ------------------------------------------------------------------------------------------

  /** Some line of the output contains what is wanted, wherever it stands. */
  predicate IsSomewhere(lines: seq<Line>, wanted: Line) {
    exists line :: line in lines && Contains(line, wanted)
  }

  /** The expected lines that some line of the output contains, in their order. */
  function Present(expected: seq<Line>, lines: seq<Line>): seq<Line> {
    if expected == [] then []
    else (if IsSomewhere(lines, expected[0]) then [expected[0]] else []) + Present(expected[1..], lines)
  }

  /** What is reported is contained in no line of the output. */
  ghost predicate IsAbsent(reported: seq<Line>, lines: seq<Line>) {
    forall i :: 0 <= i < |reported| ==> !IsSomewhere(lines, reported[i])
  }

  lemma FoundIsSomewhere(lines: seq<Line>, after: nat, wanted: Line)
    requires after <= |lines| && FirstFrom(lines, after, wanted) < |lines|
    ensures IsSomewhere(lines, wanted)
  {
    assert lines[FirstFrom(lines, after, wanted)] in lines;
  }

  lemma {:induction false} AbsentEmbeds(expected: seq<Line>, lines: seq<Line>, after: nat) returns (places: seq<nat>)
    requires after <= |lines| && IsAbsent(MissingFrom(expected, lines, after), lines)
    ensures Embeds(Present(expected, lines), lines, after, places)
    decreases |expected|
  {
    if expected == [] {
      places := [];
    } else {
      var at, rest := FirstFrom(lines, after, expected[0]), expected[1..];
      if at == |lines| {
        var reported := MissingFrom(rest, lines, after);
        var all := [expected[0]] + reported;
        assert !IsSomewhere(lines, all[0]);
        assert forall i :: 0 <= i < |reported| ==> reported[i] == all[i + 1];
        places := AbsentEmbeds(rest, lines, after);
      } else {
        FoundIsSomewhere(lines, after, expected[0]);
        var later := AbsentEmbeds(rest, lines, at + 1);
        places := [at] + later;
        EmbedsMore(expected[0], Present(rest, lines), lines, after, at, later);
      }
    }
  }

  /** An embedding of a line and others has one of the others after the first place of the line. */
  lemma EmbedsTheRest(wanted: Line, expected: seq<Line>, lines: seq<Line>, after: nat, places: seq<nat>)
    returns (later: seq<nat>)
    requires after <= |lines| && Embeds([wanted] + expected, lines, after, places)
    ensures FirstFrom(lines, after, wanted) < |lines|
    ensures Embeds(expected, lines, FirstFrom(lines, after, wanted) + 1, later)
  {
    var all := [wanted] + expected;
    assert all[0] == wanted && Contains(lines[places[0]], wanted);
    assert FirstFrom(lines, after, wanted) <= places[0];
    later := places[1..];
    forall i | 0 <= i < |later|
      ensures FirstFrom(lines, after, wanted) + 1 <= later[i] < |lines| && Contains(lines[later[i]], expected[i])
    {
      assert later[i] == places[i + 1] && all[i + 1] == expected[i];
    }
  }

  lemma {:induction false} EmbeddedIsAbsent(expected: seq<Line>, lines: seq<Line>, after: nat, places: seq<nat>)
    requires after <= |lines| && Embeds(Present(expected, lines), lines, after, places)
    ensures IsAbsent(MissingFrom(expected, lines, after), lines)
    decreases |expected|
  {
    if expected != [] {
      var wanted, rest := expected[0], expected[1..];
      if IsSomewhere(lines, wanted) {
        var later := EmbedsTheRest(wanted, Present(rest, lines), lines, after, places);
        EmbeddedIsAbsent(rest, lines, FirstFrom(lines, after, wanted) + 1, later);
      } else {
        if FirstFrom(lines, after, wanted) < |lines| {
          FoundIsSomewhere(lines, after, wanted);
        }
        assert Present(expected, lines) == Present(rest, lines);
        EmbeddedIsAbsent(rest, lines, after, places);
        AbsentMore(wanted, MissingFrom(rest, lines, after), lines);
      }
    }
  }

  lemma AbsentMore(wanted: Line, reported: seq<Line>, lines: seq<Line>)
    requires !IsSomewhere(lines, wanted) && IsAbsent(reported, lines)
    ensures IsAbsent([wanted] + reported, lines)
  {
  }

  /** Every line reported is one the output does not contain at all exactly when the expected lines it
      does contain somewhere embed in it, in order: otherwise a line is reported that only stands out
      of its place. */
  lemma ReportedIsAbsentExactly(expected: seq<Line>, lines: seq<Line>)
    ensures IsAbsent(MissingFrom(expected, lines, 0), lines)
       <==> exists places :: Embeds(Present(expected, lines), lines, 0, places)
  {
    if IsAbsent(MissingFrom(expected, lines, 0), lines) {
      var places := AbsentEmbeds(expected, lines, 0);
      assert exists found :: Embeds(Present(expected, lines), lines, 0, found);
    } else if places :| Embeds(Present(expected, lines), lines, 0, places) {
      EmbeddedIsAbsent(expected, lines, 0, places);
    }
  }

  /** An output on the failing side: it contains each of the three expected lines, and two of them are
      reported. */
  lemma ReportsMoreThanTheLeast()
    ensures var a, b, c := ["a"], ["b"], ["c"];
            && MissingFrom([c, a, b], [a, b, c], 0) == [a, b]
            && Embeds([a, b], [a, b, c], 0, [0, 1])
            && !IsAbsent([a, b], [a, b, c])
  {
    var a, b, c := ["a"], ["b"], ["c"];
    var lines := [a, b, c];
    assert RunAt(a, a, 0) && RunAt(b, b, 0) && RunAt(c, c, 0);
    assert Contains(a, a) && Contains(b, b) && Contains(c, c);
    assert a[0] != b[0] && b[0] != c[0] && a[0] != c[0];
    assert !Contains(a, c) && !Contains(b, c);
    var at := FirstFrom(lines, 0, c);
    assert lines[0] == a && lines[1] == b && lines[2] == c;
    assert at == 2;
    assert FirstFrom(lines, 3, a) == 3 && FirstFrom(lines, 3, b) == 3;
    assert [c, a, b][1..] == [a, b] && [a, b][1..] == [b] && [b][1..] == [];
    assert MissingFrom([b], lines, 3) == [b] + MissingFrom([], lines, 3);
    assert MissingFrom([a, b], lines, 3) == [a] + MissingFrom([b], lines, 3);
    AContainedLineIsNotAbsent([a, b], lines, 0, 0);
  }

  lemma AContainedLineIsNotAbsent(reported: seq<Line>, lines: seq<Line>, i: nat, k: nat)
    requires i < |reported| && k < |lines| && Contains(lines[k], reported[i])
    ensures !IsAbsent(reported, lines)
  {
    assert lines[k] in lines && IsSomewhere(lines, reported[i]);
  }
}
