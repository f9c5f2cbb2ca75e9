/**
 The converter of scripts/pdf_to_spec.py as the object it is, its fields changed line by line, held to
 the functions of `Pieces`.
 */
module PdfToSpec {
  import opened Options
  import opened Decimals
  import opened Pieces

  lemma TextGrows(pieces: seq<Piece>, piece: Piece)
    ensures Text(pieces + [piece]) == Text(pieces) + [Written(piece)]
  {
  }

  lemma SentenceGrows(lines: seq<Line>, line: Line)
    requires lines != []
    ensures Sentence(lines + [line]) == Sentence(lines) + " " + line.clean
  {
    assert (lines + [line])[..|lines|] == lines;
  }

  lemma TextReplaced(pieces: seq<Piece>, piece: Piece)
    requires pieces != []
    ensures Text(pieces[..|pieces| - 1] + [piece]) == Text(pieces)[|pieces| - 1 := Written(piece)]
  {
  }

  lemma LastIsWhole(pieces: seq<Piece>)
    requires IsWellFormed(pieces) && pieces != [] && pieces[|pieces| - 1].Prose?
    ensures pieces[|pieces| - 1].lines != []
  {
  }

  class Converter {
    var out: seq<string>
    var last: Kind
    var expected: nat
    var joined: seq<nat>
    var blockEnd: Option<string>
    var inDiagram: bool
    ghost var doc: Doc

    ghost predicate Valid()
      reads this
    {
      && out == Text(doc.pieces) && last == doc.last && expected == doc.expected
      && joined == doc.joined && blockEnd == doc.blockEnd && inDiagram == doc.inDiagram
    }

    constructor ()
      ensures Valid() && doc == START
    {
      out, last, expected, joined, blockEnd, inDiagram := [], Blank, 1, [], None, false;
      doc := START;
    }

    method Push(text: string, ghost piece: Piece)
      requires Valid() && text == Written(piece)
      modifies this
      ensures Valid() && doc == old(doc).(pieces := old(doc).pieces + [piece])
    {
      TextGrows(doc.pieces, piece);
      out := out + [text];
      doc := doc.(pieces := doc.pieces + [piece]);
    }

    method LeaveApart()
      requires Valid()
      modifies this
      ensures Valid() && doc == old(doc).(pieces := Apart(old(doc).pieces))
    {
      if out != [] && out[|out| - 1] != "" {
        Push("", Gap);
      }
    }

    method Emit(kind: Kind, text: string, ghost piece: Piece)
      requires Valid() && text == Written(piece)
      modifies this
      ensures Valid() && doc == Emitted(old(doc), kind, piece)
    {
      if NeedsGap(kind, last) {
        LeaveApart();
      }
      Push(text, piece);
      last := kind;
      doc := doc.(last := kind);
    }

    method EmitHeading(text: string, ghost piece: Piece)
      requires Valid() && text == Written(piece)
      modifies this
      ensures Valid() && doc == EmittedHeading(old(doc), piece)
    {
      Emit(Heading, text, piece);
      Push("", Gap);
      last := Blank;
      doc := doc.(last := Blank);
    }

    method OpenFence(first: Line)
      requires Valid()
      modifies this
      ensures Valid() && doc == FenceOpened(old(doc), first)
    {
      LeaveApart();
      ghost var apart := doc.pieces;
      Push(FENCE, Fence);
      Push(first.clean, Verbatim(first));
      assert apart + [Fence] + [Verbatim(first)] == apart + [Fence, Verbatim(first)];
    }

    method DropBlanks()
      requires Valid()
      modifies this
      ensures Valid() && doc == old(doc).(pieces := Trimmed(old(doc).pieces))
    {
      while out != [] && out[|out| - 1] == ""
        invariant Valid()
        invariant doc == old(doc).(pieces := doc.pieces)
        invariant Trimmed(doc.pieces) == Trimmed(old(doc).pieces)
        decreases |out|
      {
        ghost var fewer := doc.pieces[..|out| - 1];
        assert Text(fewer) == out[..|out| - 1];
        out := out[..|out| - 1];
        doc := doc.(pieces := fewer);
      }
    }

    method CloseFence()
      requires Valid()
      modifies this
      ensures Valid() && doc == FenceClosed(old(doc))
    {
      DropBlanks();
      Push(FENCE, Fence);
      last := Code;
      doc := doc.(last := Code);
    }

    method BeginSection(title: Title, line: Line, next: Option<Line>) returns (took: bool)
      requires Valid() && title.number == expected
      modifies this
      ensures Valid() && doc == SectionBegun(old(doc), title, line, next) && took == Continues(next)
    {
      var text := title.text;
      took := next.Some? && next.value.endsATitle;
      if took {
        text := text + " " + next.value.stripped;
        joined := joined + [expected];
        doc := doc.(joined := joined);
      }
      EmitHeading("## " + Decimal(expected) + ". " + text, SectionOf(title, line, next));
      expected := expected + 1;
      doc := doc.(expected := expected);
      assert old(joined) + [] == old(joined);
    }

    /** `_continues_wrapped_sentence`, asked only where no fence is open: there is a line to ask of. */
    method ContinuesWrappedSentence() returns (goesOn: bool)
      requires Valid() && IsSound(doc) && !IsOpen(doc.pieces)
      ensures goesOn == GoesOn(doc)
    {
      goesOn := last == Plain && IsCutShort(out[|out| - 1]);
    }

    method Extend(line: Line)
      requires Valid() && IsSound(doc) && !IsOpen(doc.pieces) && GoesOn(doc)
      modifies this
      ensures Valid() && doc == Extended(old(doc), line)
    {
      LastIsWhole(doc.pieces);
      SentenceGrows(doc.pieces[|out| - 1].lines, line);
      TextReplaced(doc.pieces, Prose(doc.pieces[|out| - 1].lines + [line]));
      out := out[|out| - 1 := out[|out| - 1] + " " + line.clean];
      doc := Extended(doc, line);
    }

    /** A line outside every fence that is neither blank nor the next section. */
    method TakeBody(layout: Layout, line: Line)
      requires Valid() && IsSound(doc) && !IsOpen(doc.pieces)
      modifies this
      ensures Valid() && doc == InBody(layout, old(doc), line)
    {
      if line.sub.Some? && line.sub.value.section == expected - 1 {
        var sub := line.sub.value;
        EmitHeading("### " + Decimal(sub.section) + "." + sub.part + " " + sub.text, Sub(sub, line));
        return;
      }
      if line.bullet.Some? {
        Emit(BulletPoint, "- " + line.bullet.value, Bullet(line.bullet.value, line));
        return;
      }
      if line.numbered.Some? {
        var point := line.numbered.value;
        Emit(NumberedPoint, point.number + ". " + point.text, Numbered(point, line));
        return;
      }
      if line.stripped in layout.blocks {
        OpenFence(line);
        blockEnd := Some(layout.blocks[line.stripped]);
        doc := doc.(blockEnd := blockEnd);
        return;
      }
      TakeProse(layout, line);
    }

    method TakeProse(layout: Layout, line: Line)
      requires Valid() && IsSound(doc) && !IsOpen(doc.pieces)
      modifies this
      ensures Valid() && doc == InProse(layout, old(doc), line)
    {
      if line.clean == layout.diagramStart {
        OpenDiagram(line);
        return;
      }
      if line.softBreak {
        Emit(HardBreak, line.clean + "\\", Hard(line));
        return;
      }
      var goesOn := ContinuesWrappedSentence();
      if goesOn {
        Extend(line);
        return;
      }
      Emit(Plain, line.clean, Prose([line]));
    }

    method OpenDiagram(line: Line)
      requires Valid()
      modifies this
      ensures Valid()
      ensures var said := Emitted(old(doc), Plain, Prose([line]));
              doc == said.(pieces := said.pieces + [Gap, Fence], inDiagram := true)
    {
      Emit(Plain, line.clean, Prose([line]));
      ghost var said := doc.pieces;
      Push("", Gap);
      Push(FENCE, Fence);
      assert said + [Gap] + [Fence] == said + [Gap, Fence];
      inDiagram := true;
      doc := doc.(inDiagram := true);
    }

    /** A line outside the diagram. */
    method TakeOutside(layout: Layout, line: Line, next: Option<Line>) returns (took: bool)
      requires Valid() && IsSound(doc) && !inDiagram
      modifies this
      ensures Valid() && (doc, took) == Outside(layout, old(doc), line, next)
    {
      took := false;
      if blockEnd.Some? {
        Push(line.clean, Verbatim(line));
        if line.stripped == blockEnd.value {
          CloseFence();
          blockEnd := None;
          doc := doc.(blockEnd := None);
        }
        return;
      }
      if line.clean == "" {
        return;
      }
      if line.heading.Some? && line.heading.value.number == expected {
        took := BeginSection(line.heading.value, line, next);
        return;
      }
      TakeBody(layout, line);
    }

    method LeaveDiagram()
      requires Valid()
      modifies this
      ensures Valid() && doc == Afterwards(old(doc))
    {
      if inDiagram {
        CloseFence();
        inDiagram := false;
        doc := doc.(inDiagram := false);
      }
    }

    /** One turn of the loop; `took` when the next line was taken as the rest of a title. */
    method Turn(layout: Layout, line: Line, next: Option<Line>) returns (took: bool)
      requires Valid() && IsSound(doc)
      modifies this
      ensures Valid() && (doc, took) == Step(layout, old(doc), line, next)
    {
      if line.raw == "" {
        return false;
      }
      if inDiagram && !(line.heading.Some? && line.heading.value.number == expected) {
        Push(line.clean, Verbatim(line));
        return false;
      }
      AfterwardsKeeps(doc);
      LeaveDiagram();
      took := TakeOutside(layout, line, next);
    }

    /** The whole conversion: the lines of the document, or why there is none. */
    method Convert(layout: Layout, lines: seq<Line>) returns (result: Result<seq<string>, Trouble>)
      requires Valid() && doc == START && AreRead(lines)
      modifies this
      ensures Converted(layout, lines).Ok? ==> result == Ok(Text(Converted(layout, lines).value))
      ensures Converted(layout, lines).Err? ==> result == Err(Converted(layout, lines).error)
    {
      var body := Body(layout, lines);
      var i := 0;
      while i < |body|
        invariant Valid() && IsSound(doc) && 0 <= i <= |body|
        invariant Run(layout, doc, body, i) == Run(layout, START, body, 0)
      {
        ghost var before := doc;
        TurnIsSound(layout, doc, body, i);
        var took := Turn(layout, body[i], NextOf(body, i));
        assert doc == After(layout, before, body, i);
        i := if took then i + 2 else i + 1;
      }
      if expected != layout.sectionCount + 1 {
        return Err(WrongSections(expected - 1));
      }
      if joined != layout.wrappedTitles {
        return Err(WrongTitles(joined));
      }
      if blockEnd.Some? || inDiagram {
        return Err(Unterminated);
      }
      DropBlanks();
      return Ok(out);
    }
  }
}
