/**
 What the converter of scripts/pdf_to_spec.py makes of extracted lines: the pieces of a document, with
 headings, points, fences and sentences that go on from one line to the next.
 */
module Pieces {
  import opened Options
  import opened Decimals

  // ------------------------------------------------------------------------------------------
  // Lines in, pieces out
  // ------------------------------------------------------------------------------------------

  datatype Title = Title(number: nat, text: string)
  datatype SubTitle = SubTitle(section: nat, part: string, text: string)
  datatype Point = Point(number: string, text: string)

  /** An extracted line, with what the regular expressions say of it. `clean` is the line without its
      zero-width spaces and the blanks at its end, `stripped` also without those at its head. */
  datatype Line = Line(
    raw: string,
    clean: string,
    stripped: string,
    heading: Option<Title>,
    sub: Option<SubTitle>,
    bullet: Option<string>,
    numbered: Option<Point>,
    softBreak: bool,
    endsATitle: bool
  )

  /** A page break is a blank line. */
  ghost predicate AreRead(lines: seq<Line>) {
    forall i :: 0 <= i < |lines| && lines[i].raw == "" ==> lines[i].clean == ""
  }

  const FENCE := "```"

  /** A line of the document, with the lines it was made of. */
  datatype Piece =
    | Gap
    | Fence
    | Section(number: nat, title: string, line: Line, continuation: Option<Line>)
    | Sub(sub: SubTitle, line: Line)
    | Bullet(text: string, line: Line)
    | Numbered(point: Point, line: Line)
    | Hard(line: Line)
    | Prose(lines: seq<Line>)
    | Verbatim(line: Line)

  function Sentence(lines: seq<Line>): string {
    if lines == [] then ""
    else if |lines| == 1 then lines[0].clean
    else Sentence(lines[..|lines| - 1]) + " " + lines[|lines| - 1].clean
  }

  function Written(piece: Piece): string {
    match piece
    case Gap => ""
    case Fence => FENCE
    case Section(number, title, _, _) => "## " + Decimal(number) + ". " + title
    case Sub(sub, _) => "### " + Decimal(sub.section) + "." + sub.part + " " + sub.text
    case Bullet(text, _) => "- " + text
    case Numbered(point, _) => point.number + ". " + point.text
    case Hard(line) => line.clean + "\\"
    case Prose(lines) => Sentence(lines)
    case Verbatim(line) => line.clean
  }

  function Text(pieces: seq<Piece>): seq<string> {
    seq(|pieces|, i requires 0 <= i < |pieces| => Written(pieces[i]))
  }

  datatype Kind = Blank | Plain | BulletPoint | NumberedPoint | HardBreak | Heading | Code

  /** The texts the conversion is tied to: where each verbatim block ends, by the line that opens it,
      the line before the diagram, how many lines come before the first section, and what the sections must
      come to. */
  datatype Layout = Layout(
    blocks: map<string, string>,
    diagramStart: string,
    linesBefore: nat,
    sectionCount: nat,
    wrappedTitles: seq<nat>
  )

  const SPECIFICATION := Layout(
    map["Planner" := "\U{2192} Audit", "ELA/" := "\U{2514}\U{2500}\U{2500} tests/",
        "SPEC" := "NEXT MILESTONE", "Foundation" := "Evolution", "ELA CORE" := "Task Graph"],
    "La struttura concettuale di ELA \U{E8}:",
    9, 70, [8, 36, 58, 65])

  // ------------------------------------------------------------------------------------------
  // The steps, as functions
  // ------------------------------------------------------------------------------------------

  datatype Doc = Doc(
    pieces: seq<Piece>,
    last: Kind,
    expected: nat,
    joined: seq<nat>,
    blockEnd: Option<string>,
    inDiagram: bool
  )

  const START := Doc([], Blank, 1, [], None, false)

  predicate NeedsGap(kind: Kind, last: Kind) {
    match kind
    case Plain => last in {Plain, BulletPoint, NumberedPoint, Code}
    case BulletPoint => last in {Plain, NumberedPoint, HardBreak, Code}
    case NumberedPoint => last in {Plain, BulletPoint, HardBreak, Code}
    case HardBreak => last in {Plain, BulletPoint, NumberedPoint}
    case Heading => last != Blank
    case _ => false
  }

  function Apart(pieces: seq<Piece>): seq<Piece> {
    if pieces != [] && Written(pieces[|pieces| - 1]) != "" then pieces + [Gap] else pieces
  }

  function Emitted(doc: Doc, kind: Kind, piece: Piece): Doc {
    var before := if NeedsGap(kind, doc.last) then Apart(doc.pieces) else doc.pieces;
    doc.(pieces := before + [piece], last := kind)
  }

  function EmittedHeading(doc: Doc, piece: Piece): Doc {
    var headed := Emitted(doc, Heading, piece);
    headed.(pieces := headed.pieces + [Gap], last := Blank)
  }

  function FenceOpened(doc: Doc, first: Line): Doc {
    doc.(pieces := Apart(doc.pieces) + [Fence, Verbatim(first)])
  }

  /** The pieces without the blank ones at their end. */
  function Trimmed(pieces: seq<Piece>): seq<Piece> {
    if pieces == [] || Written(pieces[|pieces| - 1]) != "" then pieces
    else Trimmed(pieces[..|pieces| - 1])
  }

  function FenceClosed(doc: Doc): Doc {
    doc.(pieces := Trimmed(doc.pieces) + [Fence], last := Code)
  }

  predicate IsCutShort(text: string) {
    |text| > 70 && text[|text| - 1] !in ".:;!?\"\\"
  }

  predicate GoesOn(doc: Doc) {
    doc.last == Plain && doc.pieces != [] && IsCutShort(Written(doc.pieces[|doc.pieces| - 1]))
  }

  /** What follows a sentence that goes on is added to the line that holds it. */
  function Extended(doc: Doc, line: Line): Doc
    requires doc.pieces != []
  {
    var before, held := doc.pieces[..|doc.pieces| - 1], doc.pieces[|doc.pieces| - 1];
    doc.(pieces := before + [Prose((if held.Prose? then held.lines else []) + [line])])
  }

  predicate Continues(next: Option<Line>) {
    next.Some? && next.value.endsATitle
  }

  function SectionOf(title: Title, line: Line, next: Option<Line>): Piece {
    if Continues(next) then Section(title.number, title.text + " " + next.value.stripped, line, next)
    else Section(title.number, title.text, line, None)
  }

  function SectionBegun(doc: Doc, title: Title, line: Line, next: Option<Line>): Doc {
    EmittedHeading(doc, SectionOf(title, line, next)).(
      expected := doc.expected + 1,
      joined := doc.joined + if Continues(next) then [doc.expected] else [])
  }

  /** A line of prose. */
  function InProse(layout: Layout, doc: Doc, line: Line): Doc {
    if line.clean == layout.diagramStart then
      var said := Emitted(doc, Plain, Prose([line]));
      said.(pieces := said.pieces + [Gap, Fence], inDiagram := true)
    else if line.softBreak then Emitted(doc, HardBreak, Hard(line))
    else if GoesOn(doc) then Extended(doc, line)
    else Emitted(doc, Plain, Prose([line]))
  }

  /** A line that is neither inside a fence, nor blank, nor the heading that is expected. */
  function InBody(layout: Layout, doc: Doc, line: Line): Doc {
    if line.sub.Some? && line.sub.value.section == doc.expected - 1 then
      EmittedHeading(doc, Sub(line.sub.value, line))
    else if line.bullet.Some? then Emitted(doc, BulletPoint, Bullet(line.bullet.value, line))
    else if line.numbered.Some? then Emitted(doc, NumberedPoint, Numbered(line.numbered.value, line))
    else if line.stripped in layout.blocks then
      FenceOpened(doc, line).(blockEnd := Some(layout.blocks[line.stripped]))
    else InProse(layout, doc, line)
  }

  function Afterwards(doc: Doc): Doc {
    if doc.inDiagram then FenceClosed(doc).(inDiagram := false) else doc
  }

  /** A line that no diagram holds. */
  function Outside(layout: Layout, doc: Doc, line: Line, next: Option<Line>): (Doc, bool) {
    if doc.blockEnd.Some? then
      var held := doc.(pieces := doc.pieces + [Verbatim(line)]);
      (if line.stripped == doc.blockEnd.value then FenceClosed(held).(blockEnd := None) else held, false)
    else if line.clean == "" then (doc, false)
    else if line.heading.Some? && line.heading.value.number == doc.expected then
      (SectionBegun(doc, line.heading.value, line, next), Continues(next))
    else (InBody(layout, doc, line), false)
  }

  /** One turn of the loop: what becomes of the document, and whether the next line was taken too. */
  function Step(layout: Layout, doc: Doc, line: Line, next: Option<Line>): (Doc, bool) {
    if line.raw == "" then (doc, false)
    else if doc.inDiagram && !(line.heading.Some? && line.heading.value.number == doc.expected) then
      (doc.(pieces := doc.pieces + [Verbatim(line)]), false)
    else Outside(layout, Afterwards(doc), line, next)
  }

  function NextOf(lines: seq<Line>, i: nat): Option<Line>
    requires i < |lines|
  {
    if i + 1 < |lines| then Some(lines[i + 1]) else None
  }

  function After(layout: Layout, doc: Doc, lines: seq<Line>, i: nat): Doc
    requires i < |lines|
  {
    Step(layout, doc, lines[i], NextOf(lines, i)).0
  }

  function Following(layout: Layout, doc: Doc, lines: seq<Line>, i: nat): nat
    requires i < |lines|
  {
    if Step(layout, doc, lines[i], NextOf(lines, i)).1 then i + 2 else i + 1
  }

  function Run(layout: Layout, doc: Doc, lines: seq<Line>, i: nat): Doc
    decreases |lines| - i
  {
    if i >= |lines| then doc
    else Run(layout, After(layout, doc, lines, i), lines, Following(layout, doc, lines, i))
  }

  datatype Trouble = WrongSections(found: int) | WrongTitles(joined: seq<nat>) | Unterminated

  function Trial(layout: Layout, doc: Doc): Option<Trouble> {
    if doc.expected != layout.sectionCount + 1 then Some(WrongSections(doc.expected - 1))
    else if doc.joined != layout.wrappedTitles then Some(WrongTitles(doc.joined))
    else if doc.blockEnd.Some? || doc.inDiagram then Some(Unterminated)
    else None
  }

  function Body(layout: Layout, lines: seq<Line>): seq<Line> {
    if |lines| < layout.linesBefore then [] else lines[layout.linesBefore..]
  }

  function Converted(layout: Layout, lines: seq<Line>): Result<seq<Piece>, Trouble> {
    var doc := Run(layout, START, Body(layout, lines), 0);
    match Trial(layout, doc)
    case Some(trouble) => Err(trouble)
    case None => Ok(Trimmed(doc.pieces))
  }

  // ------------------------------------------------------------------------------------------
  // What a document holds
  // ------------------------------------------------------------------------------------------

  /** Whether a fence is open after the pieces. */
  ghost predicate IsOpen(pieces: seq<Piece>) {
    pieces != [] &&
    var before := IsOpen(pieces[..|pieces| - 1]);
    if pieces[|pieces| - 1].Fence? then !before else before
  }

  ghost function LastSection(pieces: seq<Piece>): nat {
    if pieces == [] then 0
    else if pieces[|pieces| - 1].Section? then pieces[|pieces| - 1].number
    else LastSection(pieces[..|pieces| - 1])
  }

  /** The sections of a document, in order. */
  ghost function Sections(pieces: seq<Piece>): seq<nat> {
    if pieces == [] then []
    else
      var before := Sections(pieces[..|pieces| - 1]);
      if pieces[|pieces| - 1].Section? then before + [pieces[|pieces| - 1].number] else before
  }

  /** The sections whose title takes two lines. */
  ghost function Rejoined(pieces: seq<Piece>): seq<nat> {
    if pieces == [] then []
    else
      var before, piece := Rejoined(pieces[..|pieces| - 1]), pieces[|pieces| - 1];
      if piece.Section? && piece.continuation.Some? then before + [piece.number] else before
  }

  /** The lines that say something. */
  ghost function Speaking(lines: seq<Line>): seq<Line> {
    if lines == [] then []
    else
      var before, line := Speaking(lines[..|lines| - 1]), lines[|lines| - 1];
      if line.clean == "" then before else before + [line]
  }

  ghost function LinesOf(piece: Piece): seq<Line> {
    match piece
    case Gap => []
    case Fence => []
    case Section(_, _, line, continuation) =>
      [line] + if continuation.Some? then [continuation.value] else []
    case Sub(_, line) => [line]
    case Bullet(_, line) => [line]
    case Numbered(_, line) => [line]
    case Hard(line) => [line]
    case Prose(lines) => lines
    case Verbatim(line) => [line]
  }

  /** The lines a document was made of, in its own order, but for the blank ones. */
  ghost function Holds(pieces: seq<Piece>): seq<Line> {
    if pieces == [] then []
    else Holds(pieces[..|pieces| - 1]) + Speaking(LinesOf(pieces[|pieces| - 1]))
  }

  /** Whether a piece may stand where it is: verbatim lines inside a fence and everything else outside,
      a section after the one before it, a subsection under its own section, and each line written
      with the text that was read in it. */
  ghost predicate Fits(piece: Piece, open: bool, section: nat) {
    match piece
    case Gap => !open
    case Fence => true
    case Section(number, title, line, continuation) =>
      && !open && number == section + 1
      && line.heading.Some? && line.heading.value.number == number
      && title == line.heading.value.text + (if continuation.Some? then " " + continuation.value.stripped else "")
      && (continuation.Some? ==> continuation.value.endsATitle)
    case Sub(sub, line) => !open && line.sub == Some(sub) && sub.section == section
    case Bullet(text, line) => !open && line.bullet == Some(text)
    case Numbered(point, line) => !open && line.numbered == Some(point) && line.clean != ""
    case Hard(line) => !open && line.softBreak
    case Prose(lines) => !open && lines != [] && lines[0].clean != ""
    case Verbatim(_) => open
  }

  ghost predicate IsWellFormed(pieces: seq<Piece>) {
    pieces != [] ==>
      var before := pieces[..|pieces| - 1];
      IsWellFormed(before) && Fits(pieces[|pieces| - 1], IsOpen(before), LastSection(before))
  }

  /** What every turn of the loop keeps. */
  ghost predicate IsSound(doc: Doc) {
    && IsWellFormed(doc.pieces)
    && (IsOpen(doc.pieces) <==> doc.blockEnd.Some? || doc.inDiagram)
    && !(doc.blockEnd.Some? && doc.inDiagram)
    && doc.expected == LastSection(doc.pieces) + 1
    && doc.joined == Rejoined(doc.pieces)
    && (doc.last == Plain && !IsOpen(doc.pieces) ==> doc.pieces != [] && doc.pieces[|doc.pieces| - 1].Prose?)
  }

  // ------------------------------------------------------------------------------------------
  // Every step keeps it
  // ------------------------------------------------------------------------------------------

  lemma OneMore(pieces: seq<Piece>, piece: Piece)
    ensures IsWellFormed(pieces + [piece])
        <==> IsWellFormed(pieces) && Fits(piece, IsOpen(pieces), LastSection(pieces))
    ensures IsOpen(pieces + [piece]) == if piece.Fence? then !IsOpen(pieces) else IsOpen(pieces)
    ensures LastSection(pieces + [piece]) == if piece.Section? then piece.number else LastSection(pieces)
    ensures Sections(pieces + [piece]) == Sections(pieces) + if piece.Section? then [piece.number] else []
    ensures Rejoined(pieces + [piece])
         == Rejoined(pieces) + if piece.Section? && piece.continuation.Some? then [piece.number] else []
    ensures Holds(pieces + [piece]) == Holds(pieces) + Speaking(LinesOf(piece))
  {
    assert (pieces + [piece])[..|pieces|] == pieces;
  }

  lemma {:induction false} SpeakingOfBoth(lines: seq<Line>, more: seq<Line>)
    ensures Speaking(lines + more) == Speaking(lines) + Speaking(more)
    decreases |more|
  {
    if more == [] {
      assert lines + more == lines;
    } else {
      var most := more[..|more| - 1];
      SpeakingOfBoth(lines, most);
      assert (lines + more)[..|lines + more| - 1] == lines + most;
    }
  }

  lemma {:induction false} SentencesAreNotBlank(lines: seq<Line>)
    requires lines != [] && lines[0].clean != ""
    ensures Sentence(lines) != "" && Sentence(lines)[0] == lines[0].clean[0]
  {
    if |lines| > 1 {
      SentencesAreNotBlank(lines[..|lines| - 1]);
    }
  }

  /** Only gaps and blank verbatim lines are written as nothing. */
  lemma BlankPieces(piece: Piece, open: bool, section: nat)
    requires Fits(piece, open, section) && Written(piece) == ""
    ensures !piece.Fence? && !piece.Section? && Speaking(LinesOf(piece)) == []
  {
    if piece.Prose? {
      SentencesAreNotBlank(piece.lines);
    }
  }

  /** What two documents have in common when one only has more blanks at its end. */
  ghost predicate AreAlike(pieces: seq<Piece>, others: seq<Piece>) {
    && IsOpen(pieces) == IsOpen(others)
    && LastSection(pieces) == LastSection(others)
    && Sections(pieces) == Sections(others)
    && Rejoined(pieces) == Rejoined(others)
    && Holds(pieces) == Holds(others)
  }

  lemma {:induction false} TrimmingLosesNothing(pieces: seq<Piece>)
    requires IsWellFormed(pieces)
    ensures IsWellFormed(Trimmed(pieces)) && AreAlike(Trimmed(pieces), pieces)
  {
    if pieces != [] && Written(pieces[|pieces| - 1]) == "" {
      var before, piece := pieces[..|pieces| - 1], pieces[|pieces| - 1];
      BlankPieces(piece, IsOpen(before), LastSection(before));
      TrimmingLosesNothing(before);
    }
  }

  lemma ApartLosesNothing(pieces: seq<Piece>)
    requires IsWellFormed(pieces) && !IsOpen(pieces)
    ensures IsWellFormed(Apart(pieces)) && AreAlike(Apart(pieces), pieces)
  {
    OneMore(pieces, Gap);
  }

  lemma EmittingKeeps(doc: Doc, kind: Kind, piece: Piece)
    requires IsWellFormed(doc.pieces) && !IsOpen(doc.pieces) && !piece.Fence?
    requires Fits(piece, false, LastSection(doc.pieces))
    ensures var pieces := Emitted(doc, kind, piece).pieces;
            && IsWellFormed(pieces) && !IsOpen(pieces)
            && LastSection(pieces) == (if piece.Section? then piece.number else LastSection(doc.pieces))
            && Rejoined(pieces)
               == Rejoined(doc.pieces) + (if piece.Section? && piece.continuation.Some? then [piece.number] else [])
            && Holds(pieces) == Holds(doc.pieces) + Speaking(LinesOf(piece))
  {
    ApartLosesNothing(doc.pieces);
    OneMore(doc.pieces, piece);
    OneMore(Apart(doc.pieces), piece);
  }

  lemma HeadingKeeps(doc: Doc, piece: Piece)
    requires IsWellFormed(doc.pieces) && !IsOpen(doc.pieces) && !piece.Fence?
    requires Fits(piece, false, LastSection(doc.pieces))
    ensures var pieces := EmittedHeading(doc, piece).pieces;
            && IsWellFormed(pieces) && !IsOpen(pieces)
            && LastSection(pieces) == (if piece.Section? then piece.number else LastSection(doc.pieces))
            && Rejoined(pieces)
               == Rejoined(doc.pieces) + (if piece.Section? && piece.continuation.Some? then [piece.number] else [])
            && Holds(pieces) == Holds(doc.pieces) + Speaking(LinesOf(piece))
  {
    EmittingKeeps(doc, Heading, piece);
    OneMore(Emitted(doc, Heading, piece).pieces, Gap);
  }

  lemma ClosingKeeps(doc: Doc)
    requires IsWellFormed(doc.pieces) && IsOpen(doc.pieces)
    ensures var pieces := FenceClosed(doc).pieces;
            && IsWellFormed(pieces) && !IsOpen(pieces)
            && LastSection(pieces) == LastSection(doc.pieces)
            && Rejoined(pieces) == Rejoined(doc.pieces)
            && Holds(pieces) == Holds(doc.pieces)
  {
    TrimmingLosesNothing(doc.pieces);
    OneMore(Trimmed(doc.pieces), Fence);
  }

  /** The lines of a document after a step are those before it and the ones the step read. */
  ghost predicate Adds(before: Doc, after: Doc, lines: seq<Line>) {
    Holds(after.pieces) == Holds(before.pieces) + Speaking(lines)
  }

  lemma FencedFirst(pieces: seq<Piece>, line: Line)
    requires IsWellFormed(pieces) && !IsOpen(pieces)
    ensures var fenced := pieces + [Fence, Verbatim(line)];
            && IsWellFormed(fenced) && IsOpen(fenced)
            && LastSection(fenced) == LastSection(pieces)
            && Rejoined(fenced) == Rejoined(pieces)
            && Holds(fenced) == Holds(pieces) + Speaking([line])
  {
    OneMore(pieces, Fence);
    OneMore(pieces + [Fence], Verbatim(line));
    assert pieces + [Fence] + [Verbatim(line)] == pieces + [Fence, Verbatim(line)];
  }

  lemma OpeningKeeps(doc: Doc, line: Line)
    requires IsWellFormed(doc.pieces) && !IsOpen(doc.pieces)
    ensures var pieces := FenceOpened(doc, line).pieces;
            && IsWellFormed(pieces) && IsOpen(pieces)
            && LastSection(pieces) == LastSection(doc.pieces)
            && Rejoined(pieces) == Rejoined(doc.pieces)
            && Holds(pieces) == Holds(doc.pieces) + Speaking([line])
  {
    ApartLosesNothing(doc.pieces);
    FencedFirst(Apart(doc.pieces), line);
  }

  lemma FencedAfter(pieces: seq<Piece>)
    requires IsWellFormed(pieces) && !IsOpen(pieces)
    ensures var fenced := pieces + [Gap, Fence];
            IsWellFormed(fenced) && IsOpen(fenced) && LastSection(fenced) == LastSection(pieces)
            && Rejoined(fenced) == Rejoined(pieces) && Holds(fenced) == Holds(pieces)
  {
    OneMore(pieces, Gap);
    OneMore(pieces + [Gap], Fence);
    assert pieces + [Gap] + [Fence] == pieces + [Gap, Fence];
  }

  lemma DiagramKeeps(doc: Doc, line: Line)
    requires IsWellFormed(doc.pieces) && !IsOpen(doc.pieces) && line.clean != ""
    ensures var pieces := Emitted(doc, Plain, Prose([line])).pieces + [Gap, Fence];
            && IsWellFormed(pieces) && IsOpen(pieces)
            && LastSection(pieces) == LastSection(doc.pieces)
            && Rejoined(pieces) == Rejoined(doc.pieces)
            && Holds(pieces) == Holds(doc.pieces) + Speaking([line])
  {
    EmittingKeeps(doc, Plain, Prose([line]));
    FencedAfter(Emitted(doc, Plain, Prose([line])).pieces);
  }

  lemma LongerSentence(before: seq<Piece>, lines: seq<Line>, line: Line)
    requires IsWellFormed(before + [Prose(lines)])
    ensures var longer, shorter := before + [Prose(lines + [line])], before + [Prose(lines)];
            && IsWellFormed(longer) && !IsOpen(longer)
            && LastSection(longer) == LastSection(shorter)
            && Rejoined(longer) == Rejoined(shorter)
            && Holds(longer) == Holds(shorter) + Speaking([line])
  {
    OneMore(before, Prose(lines));
    LongerStillFits(before, lines, line);
    HoldsLonger(before, lines, line);
  }

  lemma LongerStillFits(before: seq<Piece>, lines: seq<Line>, line: Line)
    requires IsWellFormed(before) && Fits(Prose(lines), IsOpen(before), LastSection(before))
    ensures var longer := before + [Prose(lines + [line])];
            && IsWellFormed(longer) && !IsOpen(longer)
            && LastSection(longer) == LastSection(before) && Rejoined(longer) == Rejoined(before)
  {
    assert (lines + [line])[0] == lines[0];
    OneMore(before, Prose(lines + [line]));
  }

  lemma HoldsLonger(before: seq<Piece>, lines: seq<Line>, line: Line)
    ensures Holds(before + [Prose(lines + [line])]) == Holds(before + [Prose(lines)]) + Speaking([line])
  {
    calc {
      Holds(before + [Prose(lines + [line])]);
      { ProseHolds(before, lines + [line]); }
      Holds(before) + Speaking(lines + [line]);
      { SpeakingOfBoth(lines, [line]); }
      Holds(before) + (Speaking(lines) + Speaking([line]));
      { AddedInTurn(Holds(before), Speaking(lines), Speaking([line])); }
      Holds(before) + Speaking(lines) + Speaking([line]);
      { ProseHolds(before, lines); }
      Holds(before + [Prose(lines)]) + Speaking([line]);
    }
  }

  lemma AddedInTurn(a: seq<Line>, b: seq<Line>, c: seq<Line>)
    ensures a + (b + c) == a + b + c
  {
  }

  lemma ProseHolds(before: seq<Piece>, lines: seq<Line>)
    ensures Holds(before + [Prose(lines)]) == Holds(before) + Speaking(lines)
  {
    OneMore(before, Prose(lines));
  }

  lemma ExtendingKeeps(doc: Doc, line: Line)
    requires IsSound(doc) && !IsOpen(doc.pieces) && doc.last == Plain
    ensures IsSound(Extended(doc, line)) && !IsOpen(Extended(doc, line).pieces)
    ensures Adds(doc, Extended(doc, line), [line])
  {
    var before, held := doc.pieces[..|doc.pieces| - 1], doc.pieces[|doc.pieces| - 1];
    assert doc.pieces == before + [Prose(held.lines)];
    LongerSentence(before, held.lines, line);
  }

  /** A sentence that goes on is the last line written, with a space and the new line after it. */
  lemma ASentenceGoesOn(doc: Doc, line: Line)
    requires IsSound(doc) && !IsOpen(doc.pieces) && doc.last == Plain
    ensures var before, after := Text(doc.pieces), Text(Extended(doc, line).pieces);
            |before| > 0 && after == before[..|before| - 1] + [before[|before| - 1] + " " + line.clean]
  {
    var before, held := doc.pieces[..|doc.pieces| - 1], doc.pieces[|doc.pieces| - 1];
    assert Fits(held, IsOpen(before), LastSection(before));
    assert (held.lines + [line])[..|held.lines|] == held.lines;
  }

  lemma ProseKeeps(layout: Layout, doc: Doc, line: Line)
    requires IsSound(doc) && !IsOpen(doc.pieces) && line.clean != ""
    ensures IsSound(InProse(layout, doc, line)) && Adds(doc, InProse(layout, doc, line), [line])
  {
    if line.clean == layout.diagramStart {
      DiagramKeeps(doc, line);
    } else if line.softBreak {
      EmittingKeeps(doc, HardBreak, Hard(line));
    } else if GoesOn(doc) {
      ExtendingKeeps(doc, line);
    } else {
      EmittingKeeps(doc, Plain, Prose([line]));
    }
  }

  lemma BodyKeeps(layout: Layout, doc: Doc, line: Line)
    requires IsSound(doc) && !IsOpen(doc.pieces) && line.clean != ""
    ensures IsSound(InBody(layout, doc, line)) && Adds(doc, InBody(layout, doc, line), [line])
  {
    if line.sub.Some? && line.sub.value.section == doc.expected - 1 {
      HeadingKeeps(doc, Sub(line.sub.value, line));
    } else if line.bullet.Some? {
      EmittingKeeps(doc, BulletPoint, Bullet(line.bullet.value, line));
    } else if line.numbered.Some? {
      EmittingKeeps(doc, NumberedPoint, Numbered(line.numbered.value, line));
    } else if line.stripped in layout.blocks {
      OpeningKeeps(doc, line);
    } else {
      ProseKeeps(layout, doc, line);
    }
  }

  lemma SectionKeeps(doc: Doc, line: Line, next: Option<Line>)
    requires IsSound(doc) && !IsOpen(doc.pieces)
    requires line.heading.Some? && line.heading.value.number == doc.expected
    ensures var after := SectionBegun(doc, line.heading.value, line, next);
            IsSound(after) && Adds(doc, after, [line] + if Continues(next) then [next.value] else [])
  {
    var piece := SectionOf(line.heading.value, line, next);
    assert line.heading.value.text + "" == line.heading.value.text;
    HeadingKeeps(doc, piece);
  }

  lemma HeldKeeps(layout: Layout, doc: Doc, line: Line, next: Option<Line>)
    requires IsSound(doc) && doc.blockEnd.Some?
    ensures var (after, took) := Outside(layout, doc, line, next);
            !took && IsSound(after) && Adds(doc, after, [line])
  {
    OneMore(doc.pieces, Verbatim(line));
    ClosingKeeps(doc.(pieces := doc.pieces + [Verbatim(line)]));
  }

  lemma OutsideKeeps(layout: Layout, doc: Doc, line: Line, next: Option<Line>)
    requires IsSound(doc) && !doc.inDiagram
    ensures var (after, took) := Outside(layout, doc, line, next);
            && IsSound(after) && (took ==> next.Some?)
            && Adds(doc, after, [line] + if took then [next.value] else [])
  {
    assert [line] + [] == [line];
    if doc.blockEnd.Some? {
      HeldKeeps(layout, doc, line, next);
    } else if line.clean == "" {
    } else if line.heading.Some? && line.heading.value.number == doc.expected {
      SectionKeeps(doc, line, next);
    } else {
      BodyKeeps(layout, doc, line);
    }
  }

  lemma AfterwardsKeeps(doc: Doc)
    requires IsSound(doc)
    ensures IsSound(Afterwards(doc)) && !Afterwards(doc).inDiagram
    ensures Holds(Afterwards(doc).pieces) == Holds(doc.pieces)
  {
    if doc.inDiagram {
      ClosingKeeps(doc);
    }
  }

  lemma StepKeeps(layout: Layout, doc: Doc, line: Line, next: Option<Line>)
    requires IsSound(doc) && (line.raw == "" ==> line.clean == "")
    ensures var (after, took) := Step(layout, doc, line, next);
            && IsSound(after) && (took ==> next.Some?)
            && Adds(doc, after, [line] + if took then [next.value] else [])
  {
    assert [line] + [] == [line];
    if line.raw == "" {
    } else if doc.inDiagram && !(line.heading.Some? && line.heading.value.number == doc.expected) {
      OneMore(doc.pieces, Verbatim(line));
    } else {
      AfterwardsKeeps(doc);
      OutsideKeeps(layout, Afterwards(doc), line, next);
    }
  }

  lemma ReadOn(lines: seq<Line>, i: nat, took: bool)
    requires i < |lines| && (took ==> i + 1 < |lines|)
    ensures Speaking(lines[..i]) + Speaking([lines[i]] + if took then [lines[i + 1]] else [])
         == Speaking(lines[..if took then i + 2 else i + 1])
  {
    var read := [lines[i]] + if took then [lines[i + 1]] else [];
    SpeakingOfBoth(lines[..i], read);
    assert lines[..i] + read == lines[..i + |read|];
  }

  lemma TurnIsSound(layout: Layout, doc: Doc, lines: seq<Line>, i: nat)
    requires AreRead(lines) && i < |lines| && IsSound(doc)
    ensures IsSound(After(layout, doc, lines, i)) && i < Following(layout, doc, lines, i) <= |lines|
  {
    StepKeeps(layout, doc, lines[i], NextOf(lines, i));
  }

  lemma TurnKeeps(layout: Layout, doc: Doc, lines: seq<Line>, i: nat)
    requires AreRead(lines) && i < |lines| && IsSound(doc) && Holds(doc.pieces) == Speaking(lines[..i])
    ensures IsSound(After(layout, doc, lines, i)) && i < Following(layout, doc, lines, i) <= |lines|
    ensures Holds(After(layout, doc, lines, i).pieces) == Speaking(lines[..Following(layout, doc, lines, i)])
  {
    StepKeeps(layout, doc, lines[i], NextOf(lines, i));
    ReadOn(lines, i, Step(layout, doc, lines[i], NextOf(lines, i)).1);
  }

  lemma {:induction false} RunKeeps(layout: Layout, doc: Doc, lines: seq<Line>, i: nat)
    requires AreRead(lines) && i <= |lines| && IsSound(doc) && Holds(doc.pieces) == Speaking(lines[..i])
    ensures IsSound(Run(layout, doc, lines, i)) && Holds(Run(layout, doc, lines, i).pieces) == Speaking(lines)
    decreases |lines| - i
  {
    if i == |lines| {
      assert lines[..i] == lines;
    } else {
      TurnKeeps(layout, doc, lines, i);
      RunKeeps(layout, After(layout, doc, lines, i), lines, Following(layout, doc, lines, i));
    }
  }

  // ------------------------------------------------------------------------------------------
  // What a conversion that passes its trial has made
  // ------------------------------------------------------------------------------------------

  lemma {:induction false} SectionsInOrder(pieces: seq<Piece>)
    requires IsWellFormed(pieces)
    ensures |Sections(pieces)| == LastSection(pieces)
    ensures forall i :: 0 <= i < |Sections(pieces)| ==> Sections(pieces)[i] == i + 1
  {
    if pieces != [] {
      SectionsInOrder(pieces[..|pieces| - 1]);
    }
  }

  /** A converted document is well-formed and has all its fences closed; its sections are numbered from
      one up to the last without a hole, and the titles that took two lines are the ones foreseen; and
      every line of the body that is not blank is in it once, in its order. */
  lemma ConvertedIsWhole(layout: Layout, lines: seq<Line>)
    requires AreRead(lines) && Converted(layout, lines).Ok?
    ensures var pieces := Converted(layout, lines).value;
            && IsWellFormed(pieces) && !IsOpen(pieces)
            && |Sections(pieces)| == layout.sectionCount
            && (forall i :: 0 <= i < |Sections(pieces)| ==> Sections(pieces)[i] == i + 1)
            && Rejoined(pieces) == layout.wrappedTitles
            && Holds(pieces) == Speaking(Body(layout, lines))
  {
    var body := Body(layout, lines);
    assert body[..0] == [];
    RunKeeps(layout, START, body, 0);
    var doc := Run(layout, START, body, 0);
    TrimmingLosesNothing(doc.pieces);
    SectionsInOrder(Trimmed(doc.pieces));
  }

  /** The document of the specification, when there is one, has sections 1 to 70, and four titles on two
      lines. */
  lemma SpecificationIsWhole(lines: seq<Line>)
    requires AreRead(lines) && Converted(SPECIFICATION, lines).Ok?
    ensures var pieces := Converted(SPECIFICATION, lines).value;
            && IsWellFormed(pieces) && !IsOpen(pieces)
            && |Sections(pieces)| == 70 && (forall i :: 0 <= i < 70 ==> Sections(pieces)[i] == i + 1)
            && Rejoined(pieces) == [8, 36, 58, 65]
            && Holds(pieces) == Speaking(if |lines| < 9 then [] else lines[9..])
  {
    ConvertedIsWhole(SPECIFICATION, lines);
  }

  // ------------------------------------------------------------------------------------------
  // The fences a reader of the Markdown sees
  // ------------------------------------------------------------------------------------------

  ghost function FencesIn(out: seq<string>): nat {
    if out == [] then 0
    else FencesIn(out[..|out| - 1]) + if out[|out| - 1] == FENCE then 1 else 0
  }

  ghost predicate NoFenceAmong(lines: seq<Line>) {
    forall i :: 0 <= i < |lines| ==> lines[i].clean != FENCE
  }

  lemma {:induction false} SentenceIsNoFence(lines: seq<Line>)
    requires lines != [] && NoFenceAmong(lines)
    ensures Sentence(lines) != FENCE
  {
    if |lines| > 1 {
      var most := Sentence(lines[..|lines| - 1]);
      assert Sentence(lines)[|most|] == ' ';
    }
  }

  lemma OnlyFencesReadAsFences(piece: Piece, open: bool, section: nat)
    requires Fits(piece, open, section) && NoFenceAmong(LinesOf(piece))
    ensures Written(piece) == FENCE <==> piece.Fence?
  {
    var text := Written(piece);
    match piece
    case Gap =>
    case Fence =>
    case Section(_, _, _, _) => assert text[0] == '#';
    case Sub(_, _) => assert text[0] == '#';
    case Bullet(_, _) => assert text[0] == '-';
    case Numbered(point, _) => assert text[|point.number|] == '.';
    case Hard(line) => assert text[|line.clean|] == '\\';
    case Prose(lines) => SentenceIsNoFence(lines);
    case Verbatim(line) => assert LinesOf(piece)[0] == line;
  }

  lemma TextOfOneMore(pieces: seq<Piece>, piece: Piece)
    ensures FencesIn(Text(pieces + [piece])) == FencesIn(Text(pieces)) + if Written(piece) == FENCE then 1 else 0
  {
    assert Text(pieces + [piece]) == Text(pieces) + [Written(piece)];
    assert (Text(pieces) + [Written(piece)])[..|pieces|] == Text(pieces);
  }

  ghost predicate NoFenceIn(pieces: seq<Piece>) {
    forall i :: 0 <= i < |pieces| ==> NoFenceAmong(LinesOf(pieces[i]))
  }

  ghost predicate FencesTellWhatIsOpen(pieces: seq<Piece>) {
    FencesIn(Text(pieces)) % 2 == 1 <==> IsOpen(pieces)
  }

  lemma OneMoreFence(pieces: seq<Piece>, piece: Piece, marks: bool)
    requires FencesIn(Text(pieces + [piece])) == FencesIn(Text(pieces)) + if marks then 1 else 0
    requires marks == piece.Fence? && FencesTellWhatIsOpen(pieces)
    ensures FencesTellWhatIsOpen(pieces + [piece])
  {
    assert (pieces + [piece])[..|pieces|] == pieces;
    assert IsOpen(pieces + [piece]) == if marks then !IsOpen(pieces) else IsOpen(pieces);
  }

  lemma OnePieceMore(pieces: seq<Piece>, piece: Piece)
    requires Fits(piece, IsOpen(pieces), LastSection(pieces)) && NoFenceAmong(LinesOf(piece))
    requires FencesTellWhatIsOpen(pieces)
    ensures FencesTellWhatIsOpen(pieces + [piece])
  {
    OnlyFencesReadAsFences(piece, IsOpen(pieces), LastSection(pieces));
    TextOfOneMore(pieces, piece);
    OneMoreFence(pieces, piece, piece.Fence?);
  }

  /** Of pieces whose lines are not themselves fences, the fences written are odd in number exactly
      when one is open. */
  lemma {:induction false} FencesAreOddWhenOpen(pieces: seq<Piece>)
    requires IsWellFormed(pieces) && NoFenceIn(pieces)
    ensures FencesTellWhatIsOpen(pieces)
  {
    if pieces == [] {
      assert Text(pieces) == [];
    } else {
      var before, piece := pieces[..|pieces| - 1], pieces[|pieces| - 1];
      assert NoFenceIn(before) && NoFenceAmong(LinesOf(piece));
      FencesAreOddWhenOpen(before);
      OnePieceMore(before, piece);
      assert pieces == before + [piece];
    }
  }

  lemma {:induction false} SpeakingAreLines(lines: seq<Line>, line: Line)
    ensures line in Speaking(lines) <==> line in lines && line.clean != ""
  {
    if lines != [] {
      SpeakingAreLines(lines[..|lines| - 1], line);
      assert lines == lines[..|lines| - 1] + [lines[|lines| - 1]];
    }
  }

  lemma {:induction false} LinesAreHeld(pieces: seq<Piece>, i: nat, line: Line)
    requires i < |pieces| && line in LinesOf(pieces[i]) && line.clean != ""
    ensures line in Holds(pieces)
  {
    if i == |pieces| - 1 {
      SpeakingAreLines(LinesOf(pieces[i]), line);
    } else {
      LinesAreHeld(pieces[..|pieces| - 1], i, line);
    }
  }

  lemma NoFenceComesIn(pieces: seq<Piece>, lines: seq<Line>)
    requires NoFenceAmong(lines) && Holds(pieces) == Speaking(lines)
    ensures NoFenceIn(pieces)
  {
    forall i, k | 0 <= i < |pieces| && 0 <= k < |LinesOf(pieces[i])|
      ensures LinesOf(pieces[i])[k].clean != FENCE
    {
      var line := LinesOf(pieces[i])[k];
      if line.clean == FENCE {
        LinesAreHeld(pieces, i, line);
        SpeakingAreLines(lines, line);
      }
    }
  }

  /** The document after so many turns of the loop, and the line it has come to. */
  ghost function Turned(layout: Layout, lines: seq<Line>, turns: nat): (Doc, nat) {
    if turns == 0 then (START, 0)
    else
      var (doc, i) := Turned(layout, lines, turns - 1);
      if i >= |lines| then (doc, i)
      else (After(layout, doc, lines, i), Following(layout, doc, lines, i))
  }

  lemma {:induction false} EveryTurnIsSound(layout: Layout, lines: seq<Line>, turns: nat)
    requires AreRead(lines)
    ensures var (doc, i) := Turned(layout, lines, turns);
            i <= |lines| && IsSound(doc) && Holds(doc.pieces) == Speaking(lines[..i])
  {
    if turns == 0 {
      assert lines[..0] == [];
    } else {
      EveryTurnIsSound(layout, lines, turns - 1);
      var (doc, i) := Turned(layout, lines, turns - 1);
      if i < |lines| {
        TurnKeeps(layout, doc, lines, i);
      }
    }
  }

  /** After every turn over lines that are not themselves fences, the fences written are odd in number
      exactly inside a block or the diagram; those two are never open together; and a sentence that is
      continued is the prose line the document ends with. */
  lemma FencesAtEveryTurn(layout: Layout, lines: seq<Line>, turns: nat)
    requires AreRead(lines) && NoFenceAmong(lines)
    ensures var doc := Turned(layout, lines, turns).0;
            && (FencesIn(Text(doc.pieces)) % 2 == 1 <==> doc.blockEnd.Some? || doc.inDiagram)
            && !(doc.blockEnd.Some? && doc.inDiagram)
            && (doc.blockEnd.None? && !doc.inDiagram && GoesOn(doc) ==>
                  doc.pieces != [] && doc.pieces[|doc.pieces| - 1].Prose?)
  {
    EveryTurnIsSound(layout, lines, turns);
    var (doc, i) := Turned(layout, lines, turns);
    NoFenceComesIn(doc.pieces, lines[..i]);
    FencesAreOddWhenOpen(doc.pieces);
  }

  // ------------------------------------------------------------------------------------------
  // The headings a reader of the Markdown sees
  // ------------------------------------------------------------------------------------------

  /** The number and the title of a section, read in a line: `## n. title`. */
  function HeadingIn(line: string): Option<(nat, string)> {
    if !("## " <= line && |line| > 3 && IsDigit(line[3])) then None
    else
      var (number, rest) := ReadNumber(line[3..], 0);
      if ". " <= rest then Some((number, rest[2..])) else None
  }

  /** The numbers of the sections read in a document, in order. */
  function HeadingsIn(out: seq<string>): seq<nat> {
    if out == [] then []
    else
      var heading := HeadingIn(out[|out| - 1]);
      HeadingsIn(out[..|out| - 1]) + if heading.Some? then [heading.value.0] else []
  }

  lemma HeadingIsRead(number: nat, title: string)
    ensures HeadingIn("## " + Decimal(number) + ". " + title) == Some((number, title))
  {
    var line, rest := "## " + Decimal(number) + ". " + title, ". " + title;
    assert line[3..] == Decimal(number) + rest;
    DecimalIsRead(number, rest);
    assert ReadNumber(rest, number) == (number, rest) && rest[2..] == title;
  }

  /** Every section of a document is read where it stands, with its own number and title. */
  lemma SectionsAreHeaded(pieces: seq<Piece>, i: nat)
    requires i < |pieces| && pieces[i].Section?
    ensures HeadingIn(Text(pieces)[i]) == Some((pieces[i].number, pieces[i].title))
  {
    HeadingIsRead(pieces[i].number, pieces[i].title);
  }

  /** A subsection is read with the number of its section. */
  lemma SubsectionIsRead(sub: SubTitle, line: Line)
    ensures var text := Written(Sub(sub, line));
            |text| > 4 && text[..4] == "### "
            && ReadNumber(text[4..], 0) == (sub.section, "." + sub.part + " " + sub.text)
  {
    var text, rest := Written(Sub(sub, line)), "." + sub.part + " " + sub.text;
    assert text[4..] == Decimal(sub.section) + rest;
    DecimalIsRead(sub.section, rest);
  }

  /** Points keep their text after what marks them. */
  lemma PointsAreRead(text: string, point: Point, line: Line)
    ensures var bullet, numbered := Written(Bullet(text, line)), Written(Numbered(point, line));
            && |bullet| == |text| + 2 && bullet[..2] == "- " && bullet[2..] == text
            && |numbered| == |point.number| + |point.text| + 2
            && numbered[..|point.number|] == point.number && numbered[|point.number| + 2..] == point.text
            && numbered[|point.number|..|point.number| + 2] == ". "
  {
  }

  predicate HasNoHash(text: string) {
    text != "" ==> text[0] != '#'
  }

  /** A line that does not itself begin as a heading does. */
  predicate HeadsNothing(line: Line) {
    HasNoHash(line.clean) && (line.numbered.Some? ==> HasNoHash(line.numbered.value.number))
  }

  ghost predicate NoneHeads(lines: seq<Line>) {
    forall i :: 0 <= i < |lines| && lines[i].clean != "" ==> HeadsNothing(lines[i])
  }

  ghost predicate NoLineHeads(pieces: seq<Piece>) {
    forall i :: 0 <= i < |pieces| ==> NoneHeads(LinesOf(pieces[i]))
  }

  lemma OnlySectionsReadAsHeadings(piece: Piece, open: bool, section: nat)
    requires Fits(piece, open, section) && NoneHeads(LinesOf(piece)) && !piece.Section?
    ensures HeadingIn(Written(piece)).None?
  {
    match piece
    case Sub(_, line) => assert Written(piece)[2] == '#';
    case Bullet(_, line) => assert Written(piece)[0] == '-';
    case Numbered(point, line) => assert LinesOf(piece)[0] == line && HeadsNothing(line);
    case Hard(line) => assert LinesOf(piece)[0] == line;
    case Prose(lines) => SentencesAreNotBlank(lines);
    case Verbatim(line) => assert LinesOf(piece)[0] == line;
    case _ =>
  }

  /** The sections read in the text of a document are its sections. */
  lemma {:induction false} HeadingsAreSections(pieces: seq<Piece>)
    requires IsWellFormed(pieces) && NoLineHeads(pieces)
    ensures HeadingsIn(Text(pieces)) == Sections(pieces)
  {
    if pieces != [] {
      var before, piece := pieces[..|pieces| - 1], pieces[|pieces| - 1];
      assert NoLineHeads(before) && NoneHeads(LinesOf(piece));
      HeadingsAreSections(before);
      assert Text(pieces)[..|pieces| - 1] == Text(before);
      if piece.Section? {
        HeadingIsRead(piece.number, piece.title);
      } else {
        OnlySectionsReadAsHeadings(piece, IsOpen(before), LastSection(before));
      }
    }
  }

  lemma NoneComesIn(pieces: seq<Piece>, lines: seq<Line>)
    requires NoneHeads(lines) && Holds(pieces) == Speaking(lines)
    ensures NoLineHeads(pieces)
  {
    forall i, k | 0 <= i < |pieces| && 0 <= k < |LinesOf(pieces[i])| && LinesOf(pieces[i])[k].clean != ""
      ensures HeadsNothing(LinesOf(pieces[i])[k])
    {
      var line := LinesOf(pieces[i])[k];
      LinesAreHeld(pieces, i, line);
      SpeakingAreLines(lines, line);
    }
  }

  /** The headings read in the text of the specification are numbered 1 to 70, when no line of the body begins
      as a heading does. */
  lemma TheSpecificationIsRead(lines: seq<Line>)
    requires AreRead(lines) && Converted(SPECIFICATION, lines).Ok? && NoneHeads(lines)
    ensures var headings := HeadingsIn(Text(Converted(SPECIFICATION, lines).value));
            |headings| == 70 && forall i :: 0 <= i < 70 ==> headings[i] == i + 1
  {
    SpecificationIsWhole(lines);
    var pieces := Converted(SPECIFICATION, lines).value;
    NoneComesIn(pieces, if |lines| < 9 then [] else lines[9..]);
    HeadingsAreSections(pieces);
  }

  // ------------------------------------------------------------------------------------------
  // Where a block and the diagram end
  // ------------------------------------------------------------------------------------------

  /** Lines held as they are; a page break is not a line. */
  function Verbatims(lines: seq<Line>): seq<Piece> {
    if lines == [] then []
    else (if lines[0].raw == "" then [] else [Verbatim(lines[0])]) + Verbatims(lines[1..])
  }

  /** A block or the diagram goes on over a line that does not end it. */
  predicate GoesOnOver(doc: Doc, line: Line) {
    line.raw == "" ||
    if doc.inDiagram then !(line.heading.Some? && line.heading.value.number == doc.expected)
    else doc.blockEnd.Some? && line.stripped != doc.blockEnd.value
  }

  function Held(doc: Doc, lines: seq<Line>): Doc {
    doc.(pieces := doc.pieces + Verbatims(lines))
  }

  lemma HeldInTurn(doc: Doc, line: Line, lines: seq<Line>)
    ensures Held(Held(doc, [line]), lines) == Held(doc, [line] + lines)
    ensures Held(doc, [line]) == if line.raw == "" then doc else doc.(pieces := doc.pieces + [Verbatim(line)])
  {
    assert ([line] + lines)[1..] == lines && Verbatims([line][1..]) == [];
    assert doc.pieces + [] == doc.pieces;
    assert doc.pieces + Verbatims([line]) + Verbatims(lines) == doc.pieces + Verbatims([line] + lines);
  }

  /** While lines do not end it, what is open holds each of them and stays open. */
  lemma {:induction false} HeldUntil(layout: Layout, doc: Doc, lines: seq<Line>, i: nat, j: nat)
    requires i <= j <= |lines| && (doc.blockEnd.Some? || doc.inDiagram)
    requires forall k :: i <= k < j ==> GoesOnOver(doc, lines[k])
    ensures Run(layout, doc, lines, i) == Run(layout, Held(doc, lines[i..j]), lines, j)
    decreases j - i
  {
    if i == j {
      assert lines[i..j] == [] && doc.pieces + [] == doc.pieces;
    } else {
      HeldInTurn(doc, lines[i], lines[i + 1..j]);
      assert lines[i..j] == [lines[i]] + lines[i + 1..j];
      assert Step(layout, doc, lines[i], NextOf(lines, i)) == (Held(doc, [lines[i]]), false);
      HeldUntil(layout, Held(doc, [lines[i]]), lines, i + 1, j);
    }
  }

  /** A block ends with the first of its lines that is its end, and holds all of them to there. */
  lemma ABlockEndsAtItsEnd(layout: Layout, doc: Doc, lines: seq<Line>, i: nat, j: nat)
    requires i <= j < |lines| && doc.blockEnd.Some? && !doc.inDiagram
    requires forall k :: i <= k < j ==> lines[k].raw == "" || lines[k].stripped != doc.blockEnd.value
    requires lines[j].raw != "" && lines[j].stripped == doc.blockEnd.value
    ensures Run(layout, doc, lines, i)
         == Run(layout, doc.(pieces := Trimmed(doc.pieces + Verbatims(lines[i..j]) + [Verbatim(lines[j])]) + [Fence],
                             last := Code, blockEnd := None), lines, j + 1)
  {
    HeldUntil(layout, doc, lines, i, j);
  }

  /** The diagram ends before the first heading that is the next section. */
  lemma TheDiagramEndsBeforeAHeading(layout: Layout, doc: Doc, lines: seq<Line>, i: nat, j: nat)
    requires i <= j < |lines| && doc.inDiagram
    requires forall k :: i <= k < j ==> GoesOnOver(doc, lines[k])
    requires lines[j].raw != "" && lines[j].heading.Some? && lines[j].heading.value.number == doc.expected
    ensures Run(layout, doc, lines, i)
         == Run(layout, doc.(pieces := Trimmed(doc.pieces + Verbatims(lines[i..j])) + [Fence],
                             last := Code, inDiagram := false), lines, j)
  {
    HeldUntil(layout, doc, lines, i, j);
  }

  /** A block or a diagram that no line ends is never closed, and the conversion is refused. */
  lemma WhatNeverEndsIsRefused(layout: Layout, doc: Doc, lines: seq<Line>, i: nat)
    requires i <= |lines| && (doc.blockEnd.Some? || doc.inDiagram)
    requires forall k :: i <= k < |lines| ==> GoesOnOver(doc, lines[k])
    ensures Run(layout, doc, lines, i) == Held(doc, lines[i..])
    ensures Trial(layout, Run(layout, doc, lines, i)).Some?
  {
    HeldUntil(layout, doc, lines, i, |lines|);
    assert lines[i..|lines|] == lines[i..];
  }

  /** A conversion passes exactly when the sections and the rejoined titles are those foreseen and no fence is
      left open. */
  lemma PassesExactly(layout: Layout, lines: seq<Line>)
    requires AreRead(lines)
    ensures var pieces := Run(layout, START, Body(layout, lines), 0).pieces;
            Converted(layout, lines).Ok?
            <==> && |Sections(pieces)| == layout.sectionCount && Rejoined(pieces) == layout.wrappedTitles
                 && !IsOpen(pieces)
  {
    var body := Body(layout, lines);
    assert body[..0] == [];
    RunKeeps(layout, START, body, 0);
    SectionsInOrder(Run(layout, START, body, 0).pieces);
  }
}
