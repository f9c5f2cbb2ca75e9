/**
 The generated blocks of a document written by hand (scripts/generate_stato.py, `replace`, `generate`
 and `main`): each block lies between its two markers, and is replaced in place.
 */
module Blocks {
  import opened Options

  // ------------------------------------------------------------------------------------------
  // Finding
  // ------------------------------------------------------------------------------------------

  /** `piece` stands in `text` at `i`. */
  predicate At(text: string, piece: string, i: nat) {
    i + |piece| <= |text| && text[i..i + |piece|] == piece
  }

  /** Python's `find`. */
  function Find(text: string, piece: string): (at: Option<nat>)
    ensures at.Some? ==> At(text, piece, at.value) && forall i: nat :: i < at.value ==> !At(text, piece, i)
    ensures at.None? ==> forall i: nat :: !At(text, piece, i)
  {
    FindFrom(text, piece, 0)
  }

  function FindFrom(text: string, piece: string, from: nat): (at: Option<nat>)
    requires from <= |text|
    ensures at.Some? ==> At(text, piece, at.value) && forall i: nat :: from <= i < at.value ==> !At(text, piece, i)
    ensures at.None? ==> forall i: nat :: from <= i ==> !At(text, piece, i)
    decreases |text| - from
  {
    if At(text, piece, from) then Some(from)
    else if from == |text| then None
    else FindFrom(text, piece, from + 1)
  }

  lemma FoundFirst(text: string, piece: string, at: nat)
    requires At(text, piece, at) && forall i: nat :: i < at ==> !At(text, piece, i)
    ensures Find(text, piece) == Some(at)
  {
  }

  // ------------------------------------------------------------------------------------------
  // Markers
  // ------------------------------------------------------------------------------------------

  const SCRIPT := "scripts/generate_stato.py: "
  const BEGINNING := "!-- generato da " + SCRIPT
  const ENDING := "!-- fine del blocco generato: "
  const CLOSING := " --"

  /** What stands between the angle brackets of a marker. */
  function BeginWords(name: string): string {
    BEGINNING + name + CLOSING
  }

  function EndWords(name: string): string {
    ENDING + name + CLOSING
  }

  function Begin(name: string): string {
    "<" + BeginWords(name) + ">"
  }

  function End(name: string): string {
    "<" + EndWords(name) + ">"
  }

  /** Words that neither end a marker nor a line. */
  predicate Tame(words: string) {
    '<' !in words && '>' !in words && '\n' !in words
  }

  /** An angle bracket at each end and none inside, on one line. */
  predicate IsMarker(m: string) {
    |m| > 1 && m[0] == '<' && m[|m| - 1] == '>' && Tame(m[1..|m| - 1])
  }

  lemma TameInThree(a: string, b: string, c: string)
    requires Tame(a) && Tame(b) && Tame(c)
    ensures Tame(a + b + c)
  {
  }

  lemma LiteralsAreTame()
    ensures Tame(BEGINNING) && Tame(ENDING) && Tame(CLOSING)
  {
    ScriptIsTame();
    EndingIsTame();
    var opening := "!-- generato da ";
    assert Tame(opening);
    TameInThree(opening, SCRIPT, "");
    assert BEGINNING == opening + SCRIPT + "";
  }

  lemma ScriptIsTame()
    ensures Tame(SCRIPT)
  {
  }

  lemma EndingIsTame()
    ensures Tame(ENDING)
  {
  }

  lemma WordsAreTame(name: string)
    requires Tame(name)
    ensures Tame(BeginWords(name)) && Tame(EndWords(name))
  {
    LiteralsAreTame();
    TameInThree(BEGINNING, name, CLOSING);
    TameInThree(ENDING, name, CLOSING);
  }

  lemma MarkersAreMarkers(name: string)
    requires Tame(name)
    ensures IsMarker(Begin(name)) && IsMarker(End(name))
  {
    WordsAreTame(name);
    assert Begin(name)[1..|Begin(name)| - 1] == BeginWords(name);
    assert End(name)[1..|End(name)| - 1] == EndWords(name);
  }

  lemma MarkerInside(m: string, i: nat)
    requires IsMarker(m) && i < |m|
    ensures (m[i] == '<' <==> i == 0) && (m[i] == '>' <==> i == |m| - 1) && m[i] != '\n'
  {
    if 0 < i < |m| - 1 {
      assert m[i] == m[1..|m| - 1][i - 1];
    }
  }

  lemma MarkersDiffer(a: string, b: string)
    ensures Begin(a) != End(b)
    ensures a != b ==> Begin(a) != Begin(b) && End(a) != End(b)
  {
    assert Begin(a)[1..][4] == BEGINNING[4] == 'g';
    assert End(b)[1..][4] == ENDING[4] == 'f';
    NameOf(BEGINNING, a, b);
    NameOf(ENDING, a, b);
  }

  lemma NameOf(before: string, a: string, b: string)
    ensures "<" + (before + a + CLOSING) + ">" == "<" + (before + b + CLOSING) + ">" ==> a == b
  {
    var x, y := "<" + (before + a + CLOSING) + ">", "<" + (before + b + CLOSING) + ">";
    if x == y {
      assert x[1 + |before|..|x| - 4] == a && y[1 + |before|..|y| - 4] == b;
    }
  }

  lemma CharOf(text: string, m: string, i: nat, k: nat)
    requires At(text, m, i) && k < |m|
    ensures text[i + k] == m[k]
  {
    assert text[i..i + |m|][k] == m[k];
  }

  /** Two markers in a text never overlap. */
  lemma MarkersStandApart(text: string, a: string, i: nat, b: string, j: nat)
    requires IsMarker(a) && IsMarker(b) && At(text, a, i) && At(text, b, j)
    ensures i < j ==> i + |a| <= j
    ensures i == j ==> a == b
  {
    CharOf(text, b, j, 0);
    if i < j < i + |a| {
      CharOf(text, a, i, j - i);
      MarkerInside(a, j - i);
    } else if i == j {
      CharOf(text, a, i, |a| - 1);
      CharOf(text, b, j, |b| - 1);
      if |a| < |b| {
        CharOf(text, b, j, |a| - 1);
        MarkerInside(b, |a| - 1);
      } else if |b| < |a| {
        CharOf(text, a, i, |b| - 1);
        MarkerInside(a, |b| - 1);
      }
    }
  }

  // ------------------------------------------------------------------------------------------
  // Replacing
  // ------------------------------------------------------------------------------------------

  datatype Refusal = MarkersMissing(name: string)

  /** Where a block is: the end of its opening marker, and its closing one. */
  datatype Place = Place(opens: nat, closes: nat)

  function PlaceBetween(document: string, begin: string, end: string): (place: Option<Place>)
    ensures place.Some? ==> place.value.opens <= |document| && place.value.closes <= |document|
  {
    match (Find(document, begin), Find(document, end))
    case (Some(start), Some(stop)) =>
      if stop < start then None else Some(Place(start + |begin|, stop))
    case _ => None
  }

  const GAP := "\n\n"

  function Padded(body: string): string {
    GAP + body + GAP
  }

  /** The two markers of a block. */
  datatype Markers = Markers(begin: string, end: string)

  function Of(name: string): Markers {
    Markers(Begin(name), End(name))
  }

  predicate IsThere(document: string, m: Markers) {
    PlaceBetween(document, m.begin, m.end).Some?
  }

  function PlaceIn(document: string, m: Markers): (place: Place)
    requires IsThere(document, m)
    ensures place.opens <= |document| && place.closes <= |document|
  {
    PlaceBetween(document, m.begin, m.end).value
  }

  /** The document with another body between the markers. */
  function Put(document: string, m: Markers, body: string): string
    requires IsThere(document, m)
  {
    document[..PlaceIn(document, m).opens] + Padded(body) + document[PlaceIn(document, m).closes..]
  }

  /** `replace`. */
  function Replace(document: string, name: string, body: string): Result<string, Refusal> {
    if IsThere(document, Of(name)) then Ok(Put(document, Of(name), body)) else Err(MarkersMissing(name))
  }

  /** The blocks of a document, by name. */
  datatype Block = Block(name: string, body: string)

  function Generated(document: string, blocks: seq<Block>): Result<string, Refusal>
    decreases |blocks|
  {
    if blocks == [] then Ok(document)
    else
      match Generated(document, blocks[..|blocks| - 1])
      case Err(refusal) => Err(refusal)
      case Ok(before) => Replace(before, blocks[|blocks| - 1].name, blocks[|blocks| - 1].body)
  }

  // ------------------------------------------------------------------------------------------
  // Where the markers are after a replacement
  // ------------------------------------------------------------------------------------------

  ghost predicate Occurs(text: string, piece: string) {
    exists i: nat :: At(text, piece, i)
  }

  lemma AtLeft(before: string, rest: string, m: string, i: nat)
    requires i + |m| <= |before|
    ensures At(before + rest, m, i) <==> At(before, m, i)
  {
    assert (before + rest)[i..i + |m|] == before[i..i + |m|];
  }

  lemma AtRight(rest: string, after: string, m: string, i: nat)
    requires i >= |rest|
    ensures At(rest + after, m, i) <==> At(after, m, i - |rest|)
  {
    if i + |m| <= |rest + after| {
      assert (rest + after)[i..i + |m|] == after[i - |rest|..i - |rest| + |m|];
    }
  }

  /** No marker straddles the blank lines put around a body, so one that is not in the body stands
      wholly before or wholly after it. */
  lemma NoMarkerInThePadding(before: string, body: string, after: string, m: string, i: nat)
    requires IsMarker(m) && !Occurs(body, m)
    requires At(before + Padded(body) + after, m, i)
    ensures i + |m| <= |before| || i >= |before| + |Padded(body)|
  {
    var text, first, last := before + Padded(body) + after, |before|, |before| + |Padded(body)| - 1;
    assert text[first] == '\n' && text[first + 1] == '\n' && text[last] == '\n' && text[last - 1] == '\n';
    if i <= first < i + |m| {
      NoNewline(text, m, i, first);
    } else if i <= last - 1 < i + |m| {
      NoNewline(text, m, i, last - 1);
    } else if first < i && i + |m| <= last {
      var at := i - first - 2;
      assert text[i..i + |m|] == body[at..at + |m|];
      assert At(body, m, at);
    }
  }

  lemma NoNewline(text: string, m: string, i: nat, k: nat)
    requires IsMarker(m) && At(text, m, i) && i <= k < i + |m|
    ensures text[k] != '\n'
  {
    CharOf(text, m, i, k - i);
    MarkerInside(m, k - i);
  }

  /** A marker whose first occurrence is outside a block is found where it was, moved with the text. */
  lemma FoundWhereItWas(before: string, mid: string, after: string, body: string, m: string)
    requires IsMarker(m) && !Occurs(body, m)
    requires Find(before + mid + after, m).Some?
    requires var f := Find(before + mid + after, m).value; f + |m| <= |before| || f >= |before + mid|
    ensures var f := Find(before + mid + after, m).value;
            Find(before + Padded(body) + after, m)
            == Some(if f + |m| <= |before| then f else f - |mid| + |Padded(body)|)
  {
    var old', new' := before + mid + after, before + Padded(body) + after;
    var f := Find(old', m).value;
    var g := if f + |m| <= |before| then f else f - |mid| + |Padded(body)|;
    SameOutside(before, mid, Padded(body), after, m, f);
    forall i: nat | i < g
      ensures !At(new', m, i)
    {
      if At(new', m, i) {
        NoMarkerInThePadding(before, body, after, m, i);
        if i + |m| <= |before| {
          SameOutside(before, mid, Padded(body), after, m, i);
        } else {
          SameOutside(before, mid, Padded(body), after, m, i - |Padded(body)| + |mid|);
        }
      }
    }
    FoundFirst(new', m, g);
  }

  lemma SameOutside(before: string, mid: string, mid': string, after: string, m: string, f: nat)
    requires f + |m| <= |before| || f >= |before + mid|
    ensures At(before + mid + after, m, f)
       <==> At(before + mid' + after, m, if f + |m| <= |before| then f else f - |mid| + |mid'|)
  {
    if f + |m| <= |before| {
      AtLeft(before, mid + after, m, f);
      AtLeft(before, mid' + after, m, f);
      assert before + mid + after == before + (mid + after) && before + mid' + after == before + (mid' + after);
    } else {
      AtRight(before + mid, after, m, f);
      AtRight(before + mid', after, m, f - |mid| + |mid'|);
    }
  }

  /** The document in three: up to the end of the opening marker, what is between the markers, and
      from the closing one on. */
  lemma InThree(document: string, place: Place)
    requires place.opens <= place.closes <= |document|
    ensures document == document[..place.opens] + document[place.opens..place.closes] + document[place.closes..]
  {
  }

  /** A block that was replaced is between the same markers. */
  lemma OwnPlace(before: string, mid: string, after: string, body: string, b: string, e: string)
    requires IsMarker(b) && IsMarker(e) && !Occurs(body, b) && !Occurs(body, e)
    requires PlaceBetween(before + mid + after, b, e) == Some(Place(|before|, |before| + |mid|))
    ensures PlaceBetween(before + Padded(body) + after, b, e) == Some(Place(|before|, |before| + |Padded(body)|))
  {
    FoundWhereItWas(before, mid, after, body, b);
    FoundWhereItWas(before, mid, after, body, e);
  }

  /** A block that ends before the one replaced begins stays where it was. */
  lemma EarlierPlace(before: string, mid: string, after: string, body: string, b: string, e: string)
    requires IsMarker(b) && IsMarker(e) && !Occurs(body, b) && !Occurs(body, e)
    requires var place := PlaceBetween(before + mid + after, b, e);
             place.Some? && place.value.opens <= place.value.closes && place.value.closes + |e| <= |before|
    ensures PlaceBetween(before + Padded(body) + after, b, e) == PlaceBetween(before + mid + after, b, e)
  {
    FoundWhereItWas(before, mid, after, body, b);
    FoundWhereItWas(before, mid, after, body, e);
  }

  /** A block that begins after the one replaced ends moves with the text. */
  lemma LaterPlace(before: string, mid: string, after: string, body: string, b: string, e: string)
    requires IsMarker(b) && IsMarker(e) && !Occurs(body, b) && !Occurs(body, e)
    requires var place := PlaceBetween(before + mid + after, b, e);
             place.Some? && place.value.opens <= place.value.closes && place.value.opens - |b| >= |before| + |mid|
    ensures var place := PlaceBetween(before + mid + after, b, e).value;
            PlaceBetween(before + Padded(body) + after, b, e)
            == Some(Place(place.opens - |mid| + |Padded(body)|, place.closes - |mid| + |Padded(body)|))
  {
    FoundWhereItWas(before, mid, after, body, b);
    FoundWhereItWas(before, mid, after, body, e);
  }

  // ------------------------------------------------------------------------------------------
  // Blocks beside one another
  // ------------------------------------------------------------------------------------------

  predicate ArePair(m: Markers) {
    IsMarker(m.begin) && IsMarker(m.end) && m.begin != m.end
  }

  ghost predicate Free(body: string, m: Markers) {
    !Occurs(body, m.begin) && !Occurs(body, m.end)
  }

  /** The block with its markers ends before the other begins. */
  predicate Ordered(document: string, first: Markers, second: Markers) {
    && IsThere(document, first) && IsThere(document, second)
    && PlaceIn(document, first).closes + |first.end| <= PlaceIn(document, second).opens - |second.begin|
  }

  predicate Apart(document: string, a: Markers, b: Markers) {
    Ordered(document, a, b) || Ordered(document, b, a)
  }

  lemma OpensBeforeItCloses(document: string, m: Markers)
    requires ArePair(m) && IsThere(document, m)
    ensures |m.begin| <= PlaceIn(document, m).opens <= PlaceIn(document, m).closes
  {
    MarkersStandApart(document, m.begin, Find(document, m.begin).value, m.end, Find(document, m.end).value);
  }

  /** The place of a block after it has been replaced. */
  lemma PutOwn(document: string, m: Markers, body: string)
    requires ArePair(m) && IsThere(document, m) && Free(body, m)
    ensures var opens := PlaceIn(document, m).opens;
            IsThere(Put(document, m, body), m)
            && PlaceIn(Put(document, m, body), m) == Place(opens, opens + |Padded(body)|)
  {
    var place := PlaceIn(document, m);
    OpensBeforeItCloses(document, m);
    InThree(document, place);
    OwnPlace(document[..place.opens], document[place.opens..place.closes], document[place.closes..],
             body, m.begin, m.end);
  }

  /** A replacement changes what stands between the markers, and no character outside them. */
  lemma OnlyTheBlockChanges(document: string, m: Markers, body: string)
    requires ArePair(m) && IsThere(document, m) && Free(body, m)
    ensures IsThere(Put(document, m, body), m)
    ensures var before, after, put := PlaceIn(document, m), PlaceIn(Put(document, m, body), m), Put(document, m, body);
            && put[..after.opens] == document[..before.opens]
            && after.opens <= after.closes && put[after.opens..after.closes] == "\n\n" + body + "\n\n"
            && put[after.closes..] == document[before.closes..]
  {
    PutOwn(document, m, body);
    var before := PlaceIn(document, m);
    ThreeParts(document[..before.opens], Padded(body), document[before.closes..]);
  }

  /** Two bodies never give one document. */
  lemma BodiesAreTold(document: string, name: string, a: string, b: string)
    requires Replace(document, name, a).Ok? && Replace(document, name, a) == Replace(document, name, b)
    ensures a == b
  {
    var place := PlaceIn(document, Of(name));
    var before, after := document[..place.opens], document[place.closes..];
    BetweenTheGaps(before, a, after);
    BetweenTheGaps(before, b, after);
  }

  lemma BetweenTheGaps(before: string, body: string, after: string)
    ensures var put := before + Padded(body) + after;
            && |put| == |before| + |body| + |after| + 4
            && put[|before| + 2..|put| - |after| - 2] == body
  {
  }

  lemma ThreeParts(a: string, b: string, c: string)
    ensures var all := a + b + c;
            all[..|a|] == a && all[|a|..|a| + |b|] == b && all[|a| + |b|..] == c
  {
  }

  /** A block that ends before the one replaced begins: nothing of it changes. */
  lemma PutAfter(document: string, m: Markers, body: string, k: Markers)
    requires ArePair(m) && ArePair(k) && Ordered(document, k, m) && Free(body, k)
    ensures var after, theirs := Put(document, m, body), PlaceIn(document, k);
            && theirs.opens <= theirs.closes
            && IsThere(after, k) && PlaceIn(after, k) == theirs
            && after[theirs.opens..theirs.closes] == document[theirs.opens..theirs.closes]
  {
    var place, theirs := PlaceIn(document, m), PlaceIn(document, k);
    OpensBeforeItCloses(document, m);
    OpensBeforeItCloses(document, k);
    InThree(document, place);
    var before, mid, after := document[..place.opens], document[place.opens..place.closes], document[place.closes..];
    EarlierPlace(before, mid, after, body, k.begin, k.end);
    SliceLeft(before, Padded(body), after, theirs.opens, theirs.closes);
    SliceLeft(before, mid, after, theirs.opens, theirs.closes);
  }

  lemma LaterInside(before: string, mid: string, after: string, body: string, k: Markers)
    requires ArePair(k) && Free(body, k) && IsThere(before + mid + after, k)
    requires PlaceIn(before + mid + after, k).opens - |k.begin| >= |before| + |mid|
    ensures var theirs, new' := PlaceIn(before + mid + after, k), before + Padded(body) + after;
            var shift := |Padded(body)| - |mid|;
            && theirs.opens <= theirs.closes
            && IsThere(new', k)
            && PlaceIn(new', k).opens == theirs.opens + shift && PlaceIn(new', k).closes == theirs.closes + shift
            && new'[PlaceIn(new', k).opens..PlaceIn(new', k).closes]
               == (before + mid + after)[theirs.opens..theirs.closes]
  {
    var theirs := PlaceIn(before + mid + after, k);
    LaterMoves(before, mid, after, body, k);
    var ours := PlaceIn(before + Padded(body) + after, k);
    SliceRight(before, mid, Padded(body), after, theirs.opens, theirs.closes, ours.opens, ours.closes);
  }

  lemma LaterMoves(before: string, mid: string, after: string, body: string, k: Markers)
    requires ArePair(k) && Free(body, k) && IsThere(before + mid + after, k)
    requires PlaceIn(before + mid + after, k).opens - |k.begin| >= |before| + |mid|
    ensures var theirs, new' := PlaceIn(before + mid + after, k), before + Padded(body) + after;
            var shift := |Padded(body)| - |mid|;
            && theirs.opens <= theirs.closes
            && IsThere(new', k)
            && PlaceIn(new', k).opens == theirs.opens + shift && PlaceIn(new', k).closes == theirs.closes + shift
  {
    OpensBeforeItCloses(before + mid + after, k);
    LaterPlace(before, mid, after, body, k.begin, k.end);
  }

  /** A block that begins after the one replaced ends moves with the text, as it is. */
  lemma PutBefore(document: string, m: Markers, body: string, k: Markers)
    requires ArePair(m) && ArePair(k) && Ordered(document, m, k) && Free(body, k)
    ensures var after, theirs := Put(document, m, body), PlaceIn(document, k);
            var shift := PlaceIn(document, m).opens - PlaceIn(document, m).closes + |Padded(body)|;
            && theirs.opens <= theirs.closes
            && IsThere(after, k)
            && PlaceIn(after, k).opens == theirs.opens + shift && PlaceIn(after, k).closes == theirs.closes + shift
            && after[PlaceIn(after, k).opens..PlaceIn(after, k).closes] == document[theirs.opens..theirs.closes]
  {
    var place := PlaceIn(document, m);
    OpensBeforeItCloses(document, m);
    InThree(document, place);
    LaterInside(document[..place.opens], document[place.opens..place.closes], document[place.closes..], body, k);
  }

  lemma SliceLeft(before: string, mid: string, after: string, i: nat, j: nat)
    requires i <= j <= |before|
    ensures (before + mid + after)[i..j] == before[i..j]
  {
  }

  lemma SliceRight(before: string, mid: string, mid': string, after: string, i: nat, j: nat, i': nat, j': nat)
    requires |before| + |mid| <= i <= j <= |before + mid + after|
    requires i' == i - |mid| + |mid'| && j' == j - |mid| + |mid'|
    ensures i' <= j' <= |before + mid' + after|
    ensures (before + mid' + after)[i'..j'] == (before + mid + after)[i..j]
  {
  }

  /** How far a replacement moves another block. */
  function Shift(document: string, m: Markers, body: string, k: Markers): int
    requires IsThere(document, m)
  {
    if Ordered(document, k, m) then 0
    else PlaceIn(document, m).opens - PlaceIn(document, m).closes + |Padded(body)|
  }

  lemma PutElsewhere(document: string, m: Markers, body: string, k: Markers)
    requires ArePair(m) && ArePair(k) && Apart(document, m, k) && Free(body, k)
    ensures IsThere(Put(document, m, body), k)
    ensures PlaceIn(Put(document, m, body), k).opens == PlaceIn(document, k).opens + Shift(document, m, body, k)
    ensures PlaceIn(Put(document, m, body), k).closes == PlaceIn(document, k).closes + Shift(document, m, body, k)
  {
    if Ordered(document, k, m) {
      PutAfter(document, m, body, k);
    } else {
      PutBefore(document, m, body, k);
    }
  }

  /** Blocks that stood apart stand apart after one of them, or a third, is replaced. */
  lemma PutKeepsApart(document: string, m: Markers, body: string, k: Markers, l: Markers)
    requires ArePair(m) && ArePair(k) && ArePair(l) && Free(body, k) && Free(body, l)
    requires k == m || Apart(document, m, k)
    requires l == m || Apart(document, m, l)
    requires Apart(document, k, l)
    ensures Apart(Put(document, m, body), k, l)
    ensures Ordered(document, k, l) ==> Ordered(Put(document, m, body), k, l)
  {
    OpensBeforeItCloses(document, m);
    if k == m {
      PutOwn(document, m, body);
    } else {
      PutElsewhere(document, m, body, k);
    }
    if l == m {
      PutOwn(document, m, body);
    } else {
      PutElsewhere(document, m, body, l);
    }
  }

  // ------------------------------------------------------------------------------------------
  // Fixpoints
  // ------------------------------------------------------------------------------------------

  /** The block already holds its body. */
  predicate Holds(document: string, m: Markers, body: string) {
    && IsThere(document, m) && PlaceIn(document, m).opens <= PlaceIn(document, m).closes
    && document[PlaceIn(document, m).opens..PlaceIn(document, m).closes] == "\n\n" + body + "\n\n"
  }

  /** A replacement changes nothing exactly when the block already holds the body. */
  lemma FixedWhenItHolds(document: string, m: Markers, body: string)
    requires ArePair(m) && IsThere(document, m)
    ensures Put(document, m, body) == document <==> Holds(document, m, body)
  {
    var place := PlaceIn(document, m);
    OpensBeforeItCloses(document, m);
    InThree(document, place);
    var before, mid, after := document[..place.opens], document[place.opens..place.closes], document[place.closes..];
    if before + Padded(body) + after == before + mid + after {
      assert |Padded(body)| == |mid|;
      assert (before + Padded(body) + after)[|before|..|before| + |mid|] == Padded(body);
      assert (before + mid + after)[|before|..|before| + |mid|] == mid;
    }
  }

  /** After a replacement the block holds its body, and so replacing it again changes nothing. */
  lemma PutIsIdempotent(document: string, m: Markers, body: string)
    requires ArePair(m) && IsThere(document, m) && Free(body, m)
    ensures Holds(Put(document, m, body), m, body)
    ensures IsThere(Put(document, m, body), m) && Put(Put(document, m, body), m, body) == Put(document, m, body)
  {
    PutOwn(document, m, body);
    var place, after := PlaceIn(document, m), Put(document, m, body);
    assert after[place.opens..place.opens + |Padded(body)|] == Padded(body);
    FixedWhenItHolds(after, m, body);
  }

  /** A block goes on holding its body when another one, apart from it, is replaced. */
  lemma PutKeepsOthers(document: string, m: Markers, body: string, k: Markers, theirs: string)
    requires ArePair(m) && ArePair(k) && Apart(document, m, k) && Free(body, k)
    requires Holds(document, k, theirs)
    ensures Holds(Put(document, m, body), k, theirs)
  {
    if Ordered(document, k, m) {
      PutAfter(document, m, body, k);
    } else {
      PutBefore(document, m, body, k);
    }
  }

  // ------------------------------------------------------------------------------------------
  // The order of replacements
  // ------------------------------------------------------------------------------------------

  lemma FiveParts(document: string, p: Place, q: Place)
    requires p.opens <= p.closes <= q.opens <= q.closes <= |document|
    ensures document[p.closes..] == document[p.closes..q.opens] + document[q.opens..q.closes] + document[q.closes..]
    ensures document[..q.opens] == document[..p.opens] + document[p.opens..p.closes] + document[p.closes..q.opens]
  {
  }

  lemma PlacesOfTwo(document: string, m: Markers, body: string, k: Markers, theirs: string)
    requires ArePair(m) && ArePair(k) && Ordered(document, m, k) && Free(body, k) && Free(theirs, m)
    ensures PlaceIn(document, m).opens <= PlaceIn(document, m).closes
            <= PlaceIn(document, k).opens <= PlaceIn(document, k).closes
    ensures IsThere(Put(document, m, body), k) && IsThere(Put(document, k, theirs), m)
    ensures var shift := PlaceIn(document, m).opens - PlaceIn(document, m).closes + |Padded(body)|;
            && PlaceIn(Put(document, m, body), k).opens == PlaceIn(document, k).opens + shift
            && PlaceIn(Put(document, m, body), k).closes == PlaceIn(document, k).closes + shift
    ensures PlaceIn(Put(document, k, theirs), m) == PlaceIn(document, m)
  {
    OpensBeforeItCloses(document, m);
    OpensBeforeItCloses(document, k);
    PutBefore(document, m, body, k);
    PutAfter(document, k, theirs, m);
  }

  /** A replacement in a document known in three parts. */
  lemma PutAt(document: string, m: Markers, body: string, before: string, mid: string, after: string)
    requires IsThere(document, m) && document == before + mid + after
    requires PlaceIn(document, m).opens == |before| && PlaceIn(document, m).closes == |before| + |mid|
    ensures Put(document, m, body) == before + Padded(body) + after
  {
    assert document[..|before|] == before && document[|before| + |mid|..] == after;
  }

  lemma Regrouped(a: string, x: string, b: string, y: string, c: string)
    ensures a + x + (b + y + c) == (a + x + b) + y + c
  {
  }

  /** Replacements of two blocks apart from each other give the same document in either order. */
  lemma OrderedCommute(document: string, m: Markers, body: string, k: Markers, theirs: string)
    requires ArePair(m) && ArePair(k) && Ordered(document, m, k) && Free(body, k) && Free(theirs, m)
    ensures IsThere(Put(document, m, body), k) && IsThere(Put(document, k, theirs), m)
    ensures Put(Put(document, m, body), k, theirs) == Put(Put(document, k, theirs), m, body)
  {
    PlacesOfTwo(document, m, body, k, theirs);
    var p, q := PlaceIn(document, m), PlaceIn(document, k);
    var a, x, b, y, c := document[..p.opens], document[p.opens..p.closes], document[p.closes..q.opens],
                         document[q.opens..q.closes], document[q.closes..];
    FiveParts(document, p, q);
    InThree(document, p);
    InThree(document, q);
    CommuteInParts(document, m, body, k, theirs, a, x, b, y, c);
  }

  lemma CommuteInParts(document: string, m: Markers, body: string, k: Markers, theirs: string,
                       a: string, x: string, b: string, y: string, c: string)
    requires IsThere(document, m) && IsThere(document, k)
    requires IsThere(Put(document, m, body), k) && IsThere(Put(document, k, theirs), m)
    requires document == a + x + (b + y + c) && document == (a + x + b) + y + c
    requires PlaceIn(document, m) == Place(|a|, |a| + |x|)
    requires PlaceIn(document, k) == Place(|a + x + b|, |a + x + b| + |y|)
    requires PlaceIn(Put(document, m, body), k) == Place(|a + Padded(body) + b|, |a + Padded(body) + b| + |y|)
    requires PlaceIn(Put(document, k, theirs), m) == Place(|a|, |a| + |x|)
    ensures Put(Put(document, m, body), k, theirs) == Put(Put(document, k, theirs), m, body)
  {
    var first, second := Put(document, m, body), Put(document, k, theirs);
    PutAt(document, m, body, a, x, b + y + c);
    PutAt(document, k, theirs, a + x + b, y, c);
    Regrouped(a, Padded(body), b, y, c);
    Regrouped(a, x, b, Padded(theirs), c);
    PutAt(first, k, theirs, a + Padded(body) + b, y, c);
    PutAt(second, m, body, a, x, b + Padded(theirs) + c);
    Regrouped(a, Padded(body), b, Padded(theirs), c);
  }

  ghost predicate Once(document: string, piece: string) {
    forall i: nat, j: nat :: At(document, piece, i) && At(document, piece, j) ==> i == j
  }

  /** The opening marker of the second block lies inside the first. */
  predicate Swallows(document: string, m: Markers, k: Markers) {
    && IsThere(document, m) && Find(document, k.begin).Some?
    && PlaceIn(document, m).opens <= Find(document, k.begin).value < PlaceIn(document, m).closes
  }

  /** A block whose opening marker lay inside another is lost when the other is replaced. */
  lemma SwallowedIsLost(document: string, m: Markers, body: string, k: Markers)
    requires ArePair(m) && ArePair(k) && Free(body, k) && Once(document, k.begin)
    requires Swallows(document, m, k)
    ensures !IsThere(Put(document, m, body), k)
  {
    var place := PlaceIn(document, m);
    OpensBeforeItCloses(document, m);
    InThree(document, place);
    var before, mid, after := document[..place.opens], document[place.opens..place.closes], document[place.closes..];
    LostInTheMiddle(before, mid, after, body, k.begin, Find(document, k.begin).value);
  }

  /** A marker that stood once, in a part that was replaced, stands nowhere. */
  lemma LostInTheMiddle(before: string, mid: string, after: string, body: string, m: string, at: nat)
    requires IsMarker(m) && !Occurs(body, m) && Once(before + mid + after, m)
    requires At(before + mid + after, m, at) && |before| <= at < |before + mid|
    ensures Find(before + Padded(body) + after, m).None?
  {
    var found := Find(before + Padded(body) + after, m);
    if found.Some? {
      var i := found.value;
      NoMarkerInThePadding(before, body, after, m, i);
      var f := if i + |m| <= |before| then i else i - |Padded(body)| + |mid|;
      SameOutside(before, mid, Padded(body), after, m, f);
    }
  }

  lemma NotApartSwallows(document: string, m: Markers, k: Markers)
    requires ArePair(m) && ArePair(k) && IsThere(document, m) && IsThere(document, k)
    requires m.begin != k.begin && m.end != k.begin && k.end != m.begin
    requires !Apart(document, m, k)
    ensures Swallows(document, m, k) || Swallows(document, k, m)
  {
    var i, j := Find(document, m.begin).value, Find(document, k.begin).value;
    var e, f := Find(document, m.end).value, Find(document, k.end).value;
    MarkersStandApart(document, m.begin, i, k.begin, j);
    MarkersStandApart(document, k.begin, j, m.begin, i);
    MarkersStandApart(document, m.end, e, k.begin, j);
    MarkersStandApart(document, k.begin, j, m.end, e);
    MarkersStandApart(document, k.end, f, m.begin, i);
    MarkersStandApart(document, m.begin, i, k.end, f);
  }

  /** In a document that holds each marker once, two blocks can be replaced in both orders exactly
      when neither is inside the other; the two orders then give the same document. */
  lemma ReplacementsCommuteExactlyWhenApart(document: string, m: Markers, body: string, k: Markers, theirs: string)
    requires ArePair(m) && ArePair(k) && IsThere(document, m) && IsThere(document, k)
    requires m.begin != k.begin && m.end != k.begin && k.end != m.begin
    requires Free(body, m) && Free(body, k) && Free(theirs, m) && Free(theirs, k)
    requires Once(document, m.begin) && Once(document, k.begin)
    ensures IsThere(Put(document, m, body), k) && IsThere(Put(document, k, theirs), m) <==> Apart(document, m, k)
    ensures Apart(document, m, k) ==>
              && IsThere(Put(document, m, body), k) && IsThere(Put(document, k, theirs), m)
              && Put(Put(document, m, body), k, theirs) == Put(Put(document, k, theirs), m, body)
  {
    if Ordered(document, m, k) {
      OrderedCommute(document, m, body, k, theirs);
    } else if Ordered(document, k, m) {
      OrderedCommute(document, k, theirs, m, body);
    } else {
      NotApartSwallows(document, m, k);
      if Swallows(document, m, k) {
        SwallowedIsLost(document, m, body, k);
      } else {
        SwallowedIsLost(document, k, theirs, m);
      }
    }
  }

  /** In a text made of four markers, a marker stands only where one of them begins, and is that one. */
  lemma InFour(a: string, b: string, c: string, d: string, m: string, i: nat)
    requires IsMarker(a) && IsMarker(b) && IsMarker(c) && IsMarker(d) && IsMarker(m)
    requires At(a + b + c + d, m, i)
    ensures || (i == 0 && m == a) || (i == |a| && m == b)
            || (i == |a| + |b| && m == c) || (i == |a| + |b| + |c| && m == d)
  {
    var text := a + b + c + d;
    FourParts(a, b, c, d);
    if i < |a| {
      MarkersStandApart(text, a, 0, m, i);
    } else if i < |a| + |b| {
      MarkersStandApart(text, b, |a|, m, i);
    } else if i < |a| + |b| + |c| {
      MarkersStandApart(text, c, |a| + |b|, m, i);
    } else {
      MarkersStandApart(text, d, |a| + |b| + |c|, m, i);
    }
  }

  lemma FourParts(a: string, b: string, c: string, d: string)
    ensures At(a + b + c + d, a, 0) && At(a + b + c + d, b, |a|)
    ensures At(a + b + c + d, c, |a| + |b|) && At(a + b + c + d, d, |a| + |b| + |c|)
  {
  }

  predicate AreDifferent(a: string, b: string, c: string, d: string) {
    a != b && a != c && a != d && b != c && b != d && c != d
  }

  lemma OnlyPlace(a: string, b: string, c: string, d: string, m: string, at: nat)
    requires IsMarker(a) && IsMarker(b) && IsMarker(c) && IsMarker(d) && IsMarker(m)
    requires AreDifferent(a, b, c, d) && At(a + b + c + d, m, at)
    ensures Find(a + b + c + d, m) == Some(at) && Once(a + b + c + d, m)
  {
    InFour(a, b, c, d, m, at);
    forall i: nat | At(a + b + c + d, m, i)
      ensures i == at
    {
      InFour(a, b, c, d, m, i);
    }
    FoundFirst(a + b + c + d, m, at);
  }

  lemma NestedPlaces(m: Markers, k: Markers)
    requires ArePair(m) && ArePair(k) && AreDifferent(m.begin, k.begin, k.end, m.end)
    ensures var document, start := m.begin + k.begin + k.end + m.end, |m.begin|;
            && Find(document, m.begin) == Some(0) && Find(document, k.begin) == Some(start)
            && Find(document, k.end) == Some(start + |k.begin|)
            && Find(document, m.end) == Some(start + |k.begin| + |k.end|)
            && Once(document, k.begin)
  {
    OnlyPlaces(m.begin, k.begin, k.end, m.end);
  }

  lemma OnlyPlaces(a: string, b: string, c: string, d: string)
    requires IsMarker(a) && IsMarker(b) && IsMarker(c) && IsMarker(d) && AreDifferent(a, b, c, d)
    ensures Find(a + b + c + d, a) == Some(0) && Find(a + b + c + d, b) == Some(|a|)
    ensures Find(a + b + c + d, c) == Some(|a| + |b|) && Find(a + b + c + d, d) == Some(|a| + |b| + |c|)
    ensures Once(a + b + c + d, b)
  {
    FourParts(a, b, c, d);
    OnlyPlace(a, b, c, d, a, 0);
    OnlyPlace(a, b, c, d, b, |a|);
    OnlyPlace(a, b, c, d, c, |a| + |b|);
    OnlyPlace(a, b, c, d, d, |a| + |b| + |c|);
  }

  /** A block that holds another: both are there, and the inner one is lost with what the outer one held. */
  lemma InnerIsLost(m: Markers, k: Markers, body: string)
    requires ArePair(m) && ArePair(k) && AreDifferent(m.begin, k.begin, k.end, m.end) && Free(body, k)
    ensures var document := m.begin + k.begin + k.end + m.end;
            IsThere(document, m) && IsThere(document, k) && !IsThere(Put(document, m, body), k)
  {
    NestedPlaces(m, k);
    SwallowedIsLost(m.begin + k.begin + k.end + m.end, m, body, k);
  }

  function Nested(outer: string, inner: string): string {
    Begin(outer) + Begin(inner) + End(inner) + End(outer)
  }

  /** Such a document: a block inside another can be replaced at first, and is refused once the outer one
      has been. */
  lemma NestedBlocksDoNotCommute(outer: string, inner: string, body: string, theirs: string)
    requires Tame(outer) && Tame(inner) && outer != inner && Free(body, Of(inner))
    ensures Replace(Nested(outer, inner), inner, theirs).Ok?
    ensures Replace(Nested(outer, inner), outer, body).Ok?
    ensures Replace(Replace(Nested(outer, inner), outer, body).value, inner, theirs).Err?
  {
    NamesAreDifferent(outer, inner);
    InnerIsLost(Of(outer), Of(inner), body);
  }

  lemma NamesAreDifferent(outer: string, inner: string)
    requires Tame(outer) && Tame(inner) && outer != inner
    ensures ArePair(Of(outer)) && ArePair(Of(inner))
    ensures AreDifferent(Begin(outer), Begin(inner), End(inner), End(outer))
  {
    NamesMakePairs(outer);
    NamesMakePairs(inner);
    MarkersDiffer(outer, inner);
    MarkersDiffer(inner, outer);
  }

  // ------------------------------------------------------------------------------------------
  // The whole document
  // ------------------------------------------------------------------------------------------

  /** A closing marker stands before every opening one. */
  ghost predicate ClosesFirst(document: string, m: Markers) {
    exists e: nat :: At(document, m.end, e) && forall b: nat :: b <= e ==> !At(document, m.begin, b)
  }

  /** `replace` refuses exactly a document that lacks a marker, or in which a closing one stands before
      every opening one. */
  lemma RefusedExactly(document: string, name: string, body: string)
    ensures Replace(document, name, body).Err?
       <==> || !Occurs(document, Begin(name)) || !Occurs(document, End(name))
            || ClosesFirst(document, Of(name))
  {
    var start, stop := Find(document, Begin(name)), Find(document, End(name));
    if start.Some? && stop.Some? {
      if stop.value < start.value {
        assert At(document, Of(name).end, stop.value);
      } else {
        assert At(document, Of(name).begin, start.value);
      }
    }
  }

  /** A document that has every block, beside the others, and bodies that hold no marker. */
  ghost predicate IsReady(document: string, blocks: seq<Block>) {
    && (forall i :: 0 <= i < |blocks| ==> Tame(blocks[i].name) && IsThere(document, Of(blocks[i].name)))
    && (forall i, j :: 0 <= i < |blocks| && 0 <= j < |blocks| ==> Free(blocks[i].body, Of(blocks[j].name)))
    && (forall i, j :: 0 <= i < |blocks| && 0 <= j < |blocks| && i != j ==>
          Apart(document, Of(blocks[i].name), Of(blocks[j].name)))
  }

  ghost predicate AllHold(document: string, blocks: seq<Block>, n: nat) {
    forall i :: 0 <= i < n && i < |blocks| ==> Holds(document, Of(blocks[i].name), blocks[i].body)
  }

  lemma NamesMakePairs(name: string)
    requires Tame(name)
    ensures ArePair(Of(name))
  {
    MarkersAreMarkers(name);
    MarkersDiffer(name, name);
  }

  /** One block replaced: the document stays ready, the block holds its body, and the others go on
      holding theirs. */
  lemma OneBlock(document: string, blocks: seq<Block>, n: nat)
    requires IsReady(document, blocks) && n < |blocks| && AllHold(document, blocks, n)
    ensures var after := Put(document, Of(blocks[n].name), blocks[n].body);
            IsReady(after, blocks) && AllHold(after, blocks, n + 1)
  {
    StaysReady(document, blocks, n);
    OneMoreHolds(document, blocks, n);
  }

  lemma StaysReady(document: string, blocks: seq<Block>, n: nat)
    requires IsReady(document, blocks) && n < |blocks| && AllHold(document, blocks, n)
    ensures IsReady(Put(document, Of(blocks[n].name), blocks[n].body), blocks)
  {
    var after := Put(document, Of(blocks[n].name), blocks[n].body);
    forall i | 0 <= i < |blocks|
      ensures IsThere(after, Of(blocks[i].name))
    {
      if i == n {
        OwnBlock(document, blocks[n]);
      } else {
        OtherBlock(document, blocks, n, i);
      }
    }
    forall i, j | 0 <= i < |blocks| && 0 <= j < |blocks| && i != j
      ensures Apart(after, Of(blocks[i].name), Of(blocks[j].name))
    {
      OthersApart(document, blocks, n, i, j);
    }
  }

  lemma OneMoreHolds(document: string, blocks: seq<Block>, n: nat)
    requires IsReady(document, blocks) && n < |blocks| && AllHold(document, blocks, n)
    ensures AllHold(Put(document, Of(blocks[n].name), blocks[n].body), blocks, n + 1)
  {
    var after := Put(document, Of(blocks[n].name), blocks[n].body);
    forall i | 0 <= i < n + 1
      ensures Holds(after, Of(blocks[i].name), blocks[i].body)
    {
      if i == n {
        OwnBlock(document, blocks[n]);
      } else {
        OtherBlock(document, blocks, n, i);
      }
    }
  }

  lemma OwnBlock(document: string, block: Block)
    requires Tame(block.name) && IsThere(document, Of(block.name)) && Free(block.body, Of(block.name))
    ensures var after := Put(document, Of(block.name), block.body);
            IsThere(after, Of(block.name)) && Holds(after, Of(block.name), block.body)
  {
    NamesMakePairs(block.name);
    PutIsIdempotent(document, Of(block.name), block.body);
  }

  lemma OtherBlock(document: string, blocks: seq<Block>, n: nat, i: nat)
    requires IsReady(document, blocks) && n < |blocks| && AllHold(document, blocks, n) && i < |blocks| && i != n
    ensures IsThere(document, Of(blocks[n].name))
    ensures var after := Put(document, Of(blocks[n].name), blocks[n].body);
            IsThere(after, Of(blocks[i].name)) && (i < n ==> Holds(after, Of(blocks[i].name), blocks[i].body))
  {
    var m, body := Of(blocks[n].name), blocks[n].body;
    NamesMakePairs(blocks[n].name);
    NamesMakePairs(blocks[i].name);
    PutElsewhere(document, m, body, Of(blocks[i].name));
    if i < n {
      PutKeepsOthers(document, m, body, Of(blocks[i].name), blocks[i].body);
    }
  }

  lemma OthersApart(document: string, blocks: seq<Block>, n: nat, i: nat, j: nat)
    requires IsReady(document, blocks) && n < |blocks| && i < |blocks| && j < |blocks| && i != j
    ensures IsThere(document, Of(blocks[n].name))
    ensures Apart(Put(document, Of(blocks[n].name), blocks[n].body), Of(blocks[i].name), Of(blocks[j].name))
  {
    NamesMakePairs(blocks[n].name);
    NamesMakePairs(blocks[i].name);
    NamesMakePairs(blocks[j].name);
    PutKeepsApart(document, Of(blocks[n].name), blocks[n].body, Of(blocks[i].name), Of(blocks[j].name));
  }

  lemma {:induction false} GeneratedHolds(document: string, blocks: seq<Block>, n: nat)
    requires IsReady(document, blocks) && n <= |blocks|
    ensures Generated(document, blocks[..n]).Ok?
    ensures IsReady(Generated(document, blocks[..n]).value, blocks)
    ensures AllHold(Generated(document, blocks[..n]).value, blocks, n)
    decreases n
  {
    if n > 0 {
      GeneratedHolds(document, blocks, n - 1);
      assert blocks[..n][..n - 1] == blocks[..n - 1];
      var before := Generated(document, blocks[..n - 1]).value;
      OneBlock(before, blocks, n - 1);
    }
  }

  ghost predicate IsHeld(document: string, block: Block) {
    Tame(block.name) && Holds(document, Of(block.name), block.body)
  }

  lemma {:induction false} HeldIsFixed(document: string, blocks: seq<Block>)
    requires forall i :: 0 <= i < |blocks| ==> IsHeld(document, blocks[i])
    ensures Generated(document, blocks) == Ok(document)
    decreases |blocks|
  {
    if blocks != [] {
      var before, last := blocks[..|blocks| - 1], blocks[|blocks| - 1];
      HeldIsFixed(document, before);
      assert IsHeld(document, last);
      HeldIsReplacedByItself(document, last);
    }
  }

  lemma HeldIsReplacedByItself(document: string, block: Block)
    requires Tame(block.name) && Holds(document, Of(block.name), block.body)
    ensures Replace(document, block.name, block.body) == Ok(document)
  {
    NamesMakePairs(block.name);
    FixedWhenItHolds(document, Of(block.name), block.body);
  }

  /** `generate` changes nothing exactly when every block already holds its body, and a document it
      has made it makes again. */
  lemma GenerateIsAFixpoint(document: string, blocks: seq<Block>)
    requires IsReady(document, blocks)
    ensures Generated(document, blocks).Ok?
    ensures Generated(document, blocks) == Ok(document) <==> AllHold(document, blocks, |blocks|)
    ensures Generated(Generated(document, blocks).value, blocks) == Generated(document, blocks)
  {
    assert blocks[..|blocks|] == blocks;
    GeneratedHolds(document, blocks, |blocks|);
    HeldIsFixed(Generated(document, blocks).value, blocks);
    if AllHold(document, blocks, |blocks|) {
      HeldIsFixed(document, blocks);
    }
  }

  lemma ReadyIsGenerated(document: string, blocks: seq<Block>)
    ensures IsReady(document, blocks) ==>
              Generated(document, blocks).Ok? && AllHold(Generated(document, blocks).value, blocks, |blocks|)
  {
    assert blocks[..|blocks|] == blocks;
    if IsReady(document, blocks) {
      GeneratedHolds(document, blocks, |blocks|);
    }
  }

  /** `generate`: every block of a document that is ready holds its body after it. */
  method Generate(document: string, blocks: seq<Block>) returns (r: Result<string, Refusal>)
    ensures r == Generated(document, blocks)
    ensures IsReady(document, blocks) ==> r.Ok? && AllHold(r.value, blocks, |blocks|)
  {
    ReadyIsGenerated(document, blocks);
    var made := document;
    for i := 0 to |blocks|
      invariant Generated(document, blocks[..i]) == Ok(made)
    {
      var replaced := Replace(made, blocks[i].name, blocks[i].body);
      assert blocks[..i + 1][..i] == blocks[..i];
      if replaced.Err? {
        RefusedStays(document, blocks, i + 1);
        return replaced;
      }
      made := replaced.value;
    }
    assert blocks[..|blocks|] == blocks;
    r := Ok(made);
  }

  lemma {:induction false} RefusedStays(document: string, blocks: seq<Block>, n: nat)
    requires n <= |blocks| && Generated(document, blocks[..n]).Err?
    ensures Generated(document, blocks) == Generated(document, blocks[..n])
    decreases |blocks| - n
  {
    if n == |blocks| {
      assert blocks[..n] == blocks;
    } else {
      assert blocks[..n + 1][..n] == blocks[..n];
      RefusedStays(document, blocks, n + 1);
    }
  }

  datatype Exit = UpToDate | OutOfDate | Rewritten

  /** `main`, with or without `--check`: the document after it, and how it ends. */
  method Update(current: string, blocks: seq<Block>, check: bool) returns (r: Result<(string, Exit), Refusal>)
    ensures Generated(current, blocks).Err? ==> r == Err(Generated(current, blocks).error)
    ensures Generated(current, blocks) == Ok(current) ==> r == Ok((current, UpToDate))
    ensures Generated(current, blocks).Ok? && Generated(current, blocks).value != current ==>
              r == if check then Ok((current, OutOfDate)) else Ok((Generated(current, blocks).value, Rewritten))
    ensures IsReady(current, blocks) && !check ==> r.Ok? && AllHold(r.value.0, blocks, |blocks|)
  {
    var wanted := Generate(current, blocks);
    if wanted.Err? {
      return Err(wanted.error);
    }
    if wanted.value == current {
      return Ok((current, UpToDate));
    }
    if check {
      return Ok((current, OutOfDate));
    }
    r := Ok((wanted.value, Rewritten));
  }

  /** A check right after a rewrite passes. */
  method RewriteThenCheck(current: string, blocks: seq<Block>) returns (r: Result<(string, Exit), Refusal>)
    requires IsReady(current, blocks)
    ensures r.Ok? && r.value.1 == UpToDate && Generated(current, blocks) == Ok(r.value.0)
  {
    GenerateIsAFixpoint(current, blocks);
    var rewritten := Update(current, blocks, false);
    r := Update(rewritten.value.0, blocks, true);
  }
}
