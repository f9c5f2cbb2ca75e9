/**
 Where blank lines stand in what the converter of scripts/pdf_to_spec.py writes: the table of `emit`,
 which looks only at the kind of the last line, keeps apart what Markdown would otherwise run together.
 */
module Spacing {
  import opened Options
  import opened Pieces

  /** Whether a piece may stand right below another: a paragraph only below a blank line or a hard
      break, a point below one of its own list or a blank line, a heading and an opening fence only
      below a blank line. A hard break may also stand right below a fence. */
  predicate MayTouch(above: Piece, piece: Piece, open: bool) {
    match piece
    case Gap => true
    case Verbatim(_) => true
    case Fence => open || above.Gap?
    case Prose(_) => above.Gap? || above.Hard?
    case Bullet(_, _) => above.Gap? || above.Bullet?
    case Numbered(_, _) => above.Gap? || above.Numbered?
    case Hard(_) => above.Gap? || above.Hard? || above.Fence?
    case Section(_, _, _, _) => above.Gap?
    case Sub(_, _) => above.Gap?
  }

  ghost predicate MayStandBelow(pieces: seq<Piece>, piece: Piece) {
    pieces != [] ==> MayTouch(pieces[|pieces| - 1], piece, IsOpen(pieces))
  }

  ghost predicate AreSpaced(pieces: seq<Piece>) {
    pieces != [] ==>
      AreSpaced(pieces[..|pieces| - 1]) && MayStandBelow(pieces[..|pieces| - 1], pieces[|pieces| - 1])
  }

  /** The kind of line a document ends with, outside a fence. */
  function KindAtEnd(pieces: seq<Piece>): Kind {
    if pieces == [] then Blank
    else
      match pieces[|pieces| - 1]
      case Gap => Blank
      case Fence => Code
      case Section(_, _, _, _) => Heading
      case Sub(_, _) => Heading
      case Bullet(_, _) => BulletPoint
      case Numbered(_, _) => NumberedPoint
      case Hard(_) => HardBreak
      case Prose(_) => Plain
      case Verbatim(_) => Code
  }

  ghost predicate IsSpaced(doc: Doc) {
    AreSpaced(doc.pieces) && (!IsOpen(doc.pieces) ==> doc.last == KindAtEnd(doc.pieces) != Heading)
  }

  lemma OneMoreSpaced(pieces: seq<Piece>, piece: Piece)
    requires AreSpaced(pieces) && MayStandBelow(pieces, piece)
    ensures AreSpaced(pieces + [piece])
    ensures IsOpen(pieces + [piece]) == if piece.Fence? then !IsOpen(pieces) else IsOpen(pieces)
  {
    assert (pieces + [piece])[..|pieces|] == pieces;
  }

  /** Outside a fence only a gap is written as nothing. */
  lemma OnlyGapsAreBlank(pieces: seq<Piece>)
    requires IsWellFormed(pieces) && !IsOpen(pieces) && pieces != []
    ensures Written(pieces[|pieces| - 1]) == "" <==> pieces[|pieces| - 1].Gap?
  {
    var before, piece := pieces[..|pieces| - 1], pieces[|pieces| - 1];
    if piece.Prose? {
      SentencesAreNotBlank(piece.lines);
    }
  }

  lemma ApartIsSpaced(pieces: seq<Piece>)
    requires IsWellFormed(pieces) && !IsOpen(pieces) && AreSpaced(pieces)
    ensures AreSpaced(Apart(pieces)) && (Apart(pieces) != [] ==> Apart(pieces)[|Apart(pieces)| - 1].Gap?)
  {
    if pieces != [] {
      OnlyGapsAreBlank(pieces);
      OneMoreSpaced(pieces, Gap);
    }
  }

  predicate IsSaid(piece: Piece) {
    !piece.Gap? && !piece.Fence? && !piece.Verbatim?
  }

  /** Where the table asks for no gap, none is needed. */
  lemma NoGapNeeded(pieces: seq<Piece>, piece: Piece)
    requires IsWellFormed(pieces) && !IsOpen(pieces) && KindAtEnd(pieces) != Heading && pieces != []
    requires IsSaid(piece) && !NeedsGap(KindAtEnd([piece]), KindAtEnd(pieces))
    ensures MayStandBelow(pieces, piece)
  {
    var before := pieces[..|pieces| - 1];
    assert Fits(pieces[|pieces| - 1], IsOpen(before), LastSection(before));
  }

  /** A blank line is put before a piece exactly when it may not stand right below what is written last. */
  lemma AGapWhereItIsNeeded(doc: Doc, piece: Piece)
    requires IsWellFormed(doc.pieces) && !IsOpen(doc.pieces) && IsSpaced(doc) && IsSaid(piece) && doc.pieces != []
    ensures var touches := MayTouch(doc.pieces[|doc.pieces| - 1], piece, false);
            Emitted(doc, KindAtEnd([piece]), piece).pieces
            == doc.pieces + (if touches then [] else [Gap]) + [piece]
  {
    OnlyGapsAreBlank(doc.pieces);
    var before := doc.pieces[..|doc.pieces| - 1];
    assert Fits(doc.pieces[|doc.pieces| - 1], IsOpen(before), LastSection(before));
  }

  lemma SaidIsSpaced(pieces: seq<Piece>, piece: Piece)
    requires AreSpaced(pieces) && !IsOpen(pieces) && MayStandBelow(pieces, piece) && IsSaid(piece)
    ensures var after := pieces + [piece];
            AreSpaced(after) && !IsOpen(after) && KindAtEnd(after) == KindAtEnd([piece])
  {
    OneMoreSpaced(pieces, piece);
  }

  lemma EmittedIsSpaced(doc: Doc, piece: Piece)
    requires IsWellFormed(doc.pieces) && !IsOpen(doc.pieces) && IsSpaced(doc) && IsSaid(piece)
    ensures var after := Emitted(doc, KindAtEnd([piece]), piece);
            AreSpaced(after.pieces) && !IsOpen(after.pieces) && KindAtEnd(after.pieces) == after.last
  {
    if NeedsGap(KindAtEnd([piece]), doc.last) {
      ApartIsSpaced(doc.pieces);
      ApartLosesNothing(doc.pieces);
      SaidIsSpaced(Apart(doc.pieces), piece);
    } else {
      if doc.pieces != [] {
        NoGapNeeded(doc.pieces, piece);
      }
      SaidIsSpaced(doc.pieces, piece);
    }
  }

  lemma LineIsSpaced(doc: Doc, kind: Kind, piece: Piece)
    requires IsWellFormed(doc.pieces) && !IsOpen(doc.pieces) && IsSpaced(doc) && IsSaid(piece)
    requires kind == KindAtEnd([piece]) != Heading
    ensures IsSpaced(Emitted(doc, kind, piece))
  {
    EmittedIsSpaced(doc, piece);
  }

  lemma HeadingIsSpaced(doc: Doc, piece: Piece)
    requires IsWellFormed(doc.pieces) && !IsOpen(doc.pieces) && IsSpaced(doc)
    requires piece.Section? || piece.Sub?
    ensures IsSpaced(EmittedHeading(doc, piece))
  {
    EmittedIsSpaced(doc, piece);
    OneMoreSpaced(Emitted(doc, Heading, piece).pieces, Gap);
  }

  lemma FencedIsSpaced(pieces: seq<Piece>, piece: Piece)
    requires AreSpaced(pieces) && !IsOpen(pieces) && piece.Verbatim?
    requires pieces != [] ==> pieces[|pieces| - 1].Gap?
    ensures AreSpaced(pieces + [Fence]) && IsOpen(pieces + [Fence])
    ensures AreSpaced(pieces + [Fence, piece]) && IsOpen(pieces + [Fence, piece])
  {
    OneMoreSpaced(pieces, Fence);
    OneMoreSpaced(pieces + [Fence], piece);
    assert pieces + [Fence] + [piece] == pieces + [Fence, piece];
  }

  lemma OpenedIsSpaced(doc: Doc, line: Line)
    requires IsWellFormed(doc.pieces) && !IsOpen(doc.pieces) && IsSpaced(doc)
    ensures AreSpaced(FenceOpened(doc, line).pieces) && IsOpen(FenceOpened(doc, line).pieces)
  {
    ApartIsSpaced(doc.pieces);
    ApartLosesNothing(doc.pieces);
    FencedIsSpaced(Apart(doc.pieces), Verbatim(line));
  }

  lemma GapFencedIsSpaced(pieces: seq<Piece>)
    requires AreSpaced(pieces) && !IsOpen(pieces)
    ensures AreSpaced(pieces + [Gap, Fence]) && IsOpen(pieces + [Gap, Fence])
  {
    OneMoreSpaced(pieces, Gap);
    OneMoreSpaced(pieces + [Gap], Fence);
    assert pieces + [Gap] + [Fence] == pieces + [Gap, Fence];
  }

  lemma DiagramIsSpaced(doc: Doc, line: Line)
    requires IsWellFormed(doc.pieces) && !IsOpen(doc.pieces) && IsSpaced(doc)
    ensures var pieces := Emitted(doc, Plain, Prose([line])).pieces + [Gap, Fence];
            AreSpaced(pieces) && IsOpen(pieces)
  {
    EmittedIsSpaced(doc, Prose([line]));
    GapFencedIsSpaced(Emitted(doc, Plain, Prose([line])).pieces);
  }

  lemma {:induction false} TrimmedIsSpaced(pieces: seq<Piece>)
    requires AreSpaced(pieces)
    ensures AreSpaced(Trimmed(pieces))
  {
    if pieces != [] && Written(pieces[|pieces| - 1]) == "" {
      TrimmedIsSpaced(pieces[..|pieces| - 1]);
    }
  }

  lemma ClosedIsSpaced(doc: Doc)
    requires IsWellFormed(doc.pieces) && IsOpen(doc.pieces) && AreSpaced(doc.pieces)
    ensures IsSpaced(FenceClosed(doc))
  {
    TrimmedIsSpaced(doc.pieces);
    TrimmingLosesNothing(doc.pieces);
    OneMoreSpaced(Trimmed(doc.pieces), Fence);
  }

  lemma LongerIsSpaced(before: seq<Piece>, lines: seq<Line>, more: seq<Line>)
    requires AreSpaced(before + [Prose(lines)]) && !IsOpen(before + [Prose(lines)])
    ensures AreSpaced(before + [Prose(more)]) && !IsOpen(before + [Prose(more)])
  {
    assert (before + [Prose(lines)])[..|before|] == before;
    assert (before + [Prose(more)])[..|before|] == before;
  }

  lemma ExtendedIsSpaced(doc: Doc, line: Line)
    requires IsSound(doc) && !IsOpen(doc.pieces) && IsSpaced(doc) && doc.last == Plain
    ensures IsSpaced(Extended(doc, line))
  {
    var before, held := doc.pieces[..|doc.pieces| - 1], doc.pieces[|doc.pieces| - 1];
    assert doc.pieces == before + [Prose(held.lines)];
    LongerIsSpaced(before, held.lines, held.lines + [line]);
  }

  lemma ProseIsSpaced(layout: Layout, doc: Doc, line: Line)
    requires IsSound(doc) && !IsOpen(doc.pieces) && IsSpaced(doc)
    ensures IsSpaced(InProse(layout, doc, line))
  {
    if line.clean == layout.diagramStart {
      DiagramIsSpaced(doc, line);
    } else if line.softBreak {
      LineIsSpaced(doc, HardBreak, Hard(line));
    } else if GoesOn(doc) {
      ExtendedIsSpaced(doc, line);
    } else {
      LineIsSpaced(doc, Plain, Prose([line]));
    }
  }

  lemma BodyIsSpaced(layout: Layout, doc: Doc, line: Line)
    requires IsSound(doc) && !IsOpen(doc.pieces) && IsSpaced(doc)
    ensures IsSpaced(InBody(layout, doc, line))
  {
    if line.sub.Some? && line.sub.value.section == doc.expected - 1 {
      HeadingIsSpaced(doc, Sub(line.sub.value, line));
    } else if line.bullet.Some? {
      LineIsSpaced(doc, BulletPoint, Bullet(line.bullet.value, line));
    } else if line.numbered.Some? {
      LineIsSpaced(doc, NumberedPoint, Numbered(line.numbered.value, line));
    } else if line.stripped in layout.blocks {
      OpenedIsSpaced(doc, line);
    } else {
      ProseIsSpaced(layout, doc, line);
    }
  }

  lemma HeldIsSpaced(doc: Doc, line: Line)
    requires IsOpen(doc.pieces) && AreSpaced(doc.pieces)
    ensures AreSpaced(doc.pieces + [Verbatim(line)]) && IsOpen(doc.pieces + [Verbatim(line)])
  {
    OneMoreSpaced(doc.pieces, Verbatim(line));
  }

  lemma OutsideIsSpaced(layout: Layout, doc: Doc, line: Line, next: Option<Line>)
    requires IsSound(doc) && !doc.inDiagram && IsSpaced(doc)
    ensures IsSpaced(Outside(layout, doc, line, next).0)
  {
    if doc.blockEnd.Some? {
      var held := doc.(pieces := doc.pieces + [Verbatim(line)]);
      HeldIsSpaced(doc, line);
      OneMore(doc.pieces, Verbatim(line));
      ClosedIsSpaced(held);
    } else if line.clean == "" {
    } else if line.heading.Some? && line.heading.value.number == doc.expected {
      HeadingIsSpaced(doc, SectionOf(line.heading.value, line, next));
    } else {
      BodyIsSpaced(layout, doc, line);
    }
  }

  lemma StepIsSpaced(layout: Layout, doc: Doc, line: Line, next: Option<Line>)
    requires IsSound(doc) && IsSpaced(doc)
    ensures IsSpaced(Step(layout, doc, line, next).0)
  {
    if line.raw == "" {
    } else if doc.inDiagram && !(line.heading.Some? && line.heading.value.number == doc.expected) {
      HeldIsSpaced(doc, line);
    } else {
      AfterwardsKeeps(doc);
      if doc.inDiagram {
        ClosedIsSpaced(doc);
      }
      OutsideIsSpaced(layout, Afterwards(doc), line, next);
    }
  }

  lemma {:induction false} RunIsSpaced(layout: Layout, doc: Doc, lines: seq<Line>, i: nat)
    requires AreRead(lines) && i <= |lines| && IsSound(doc) && IsSpaced(doc)
    ensures IsSpaced(Run(layout, doc, lines, i))
    decreases |lines| - i
  {
    if i < |lines| {
      TurnIsSound(layout, doc, lines, i);
      StepIsSpaced(layout, doc, lines[i], NextOf(lines, i));
      RunIsSpaced(layout, After(layout, doc, lines, i), lines, Following(layout, doc, lines, i));
    }
  }

  /** A converted document keeps apart what must not run together. */
  lemma ConvertedIsSpaced(layout: Layout, lines: seq<Line>)
    requires AreRead(lines) && Converted(layout, lines).Ok?
    ensures AreSpaced(Converted(layout, lines).value)
  {
    var body := Body(layout, lines);
    RunIsSpaced(layout, START, body, 0);
    TrimmedIsSpaced(Run(layout, START, body, 0).pieces);
  }
}
