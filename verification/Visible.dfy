/**
 What deceives a reader made visible (src/ela/domain.py, `visible` and `listed`), and the readers
 that undo it. A character is a Unicode scalar value.
 */
module Visible {
  import opened Options
  import opened Numerals

  predicate Between(c: char, low: int, high: int) {
    low <= c as int <= high
  }

  /** The controls, of C0, DEL and C1. */
  predicate IsControl(c: char) {
    Between(c, 0, 0x1F) || Between(c, 0x7F, 0x9F)
  }

  /** The bidirectional controls and the characters of no width. */
  predicate IsInvisible(c: char) {
    || Between(c, 0x202A, 0x202E) || Between(c, 0x2066, 0x2069)
    || Between(c, 0x200B, 0x200D) || Between(c, 0x2060, 0x2060) || Between(c, 0xFEFF, 0xFEFF)
  }

  /** The keys of the table. */
  predicate Deceives(c: char) {
    IsControl(c) || IsInvisible(c) || c == '\\'
  }

  function TwoDigits(n: nat): string
    requires n < 256
  {
    [LowerDigit(n / 16), LowerDigit(n % 16)]
  }

  function FourDigits(n: nat): string
    requires n < 65536
  {
    TwoDigits(n / 256) + TwoDigits(n % 256)
  }

  /** How one character is written. */
  function Shown(c: char, lines: bool): string {
    if lines && (c == '\n' || c == '\t') then [c]
    else if c == '\\' then "\\\\"
    else if c == '\n' then "\\n"
    else if c == '\t' then "\\t"
    else if c == '\r' then "\\r"
    else if IsControl(c) then "\\x" + TwoDigits(c as nat)
    else if IsInvisible(c) then "\\u" + FourDigits(c as nat)
    else [c]
  }

  /** `visible`. */
  function Visible(text: string, lines: bool): string {
    if text == "" then "" else Shown(text[0], lines) + Visible(text[1..], lines)
  }

  /** `str.replace('"', '\\"')`. */
  function QuotesEscaped(text: string): string {
    if text == "" then ""
    else (if text[0] == '"' then "\\\"" else [text[0]]) + QuotesEscaped(text[1..])
  }

  function Quoted(item: string): string {
    "\"" + QuotesEscaped(Visible(item, false)) + "\""
  }

  function Joined(items: seq<string>): string {
    if items == [] then ""
    else if |items| == 1 then Quoted(items[0])
    else Quoted(items[0]) + ", " + Joined(items[1..])
  }

  /** `listed`. */
  function Listed(items: seq<string>): string {
    "[" + Joined(items) + "]"
  }

  // ------------------------------------------------------------------------------------------
  // Reading it back
  // ------------------------------------------------------------------------------------------

  function TwoValue(a: char, b: char): Option<nat> {
    match (DigitValue(a), DigitValue(b))
    case (Some(x), Some(y)) => Some(16 * x + y)
    case _ => None
  }

  /** The character a text begins with, as it was before it was made visible, and the text after it. */
  function ReadOne(text: string): (r: Option<(char, string)>)
    requires text != ""
    ensures r.Some? ==> |r.value.1| < |text|
  {
    if text[0] != '\\' then Some((text[0], text[1..]))
    else if |text| < 2 then None
    else if text[1] == '\\' || text[1] == '"' then Some((text[1], text[2..]))
    else if text[1] == 'n' then Some(('\n', text[2..]))
    else if text[1] == 't' then Some(('\t', text[2..]))
    else if text[1] == 'r' then Some(('\r', text[2..]))
    else if text[1] == 'x' && |text| >= 4 then
      match TwoValue(text[2], text[3])
      case None => None
      case Some(code) => if code < 0xD800 then Some((code as char, text[4..])) else None
    else if text[1] == 'u' && |text| >= 6 then
      match (TwoValue(text[2], text[3]), TwoValue(text[4], text[5]))
      case (Some(high), Some(low)) =>
        var code := 256 * high + low;
        if code < 0xD800 || 0xE000 <= code < 0x10000 then Some((code as char, text[6..])) else None
      case _ => None
    else None
  }

  function ReadVisible(text: string): Option<string>
    decreases |text|
  {
    if text == "" then Some("")
    else
      match ReadOne(text)
      case None => None
      case Some((c, after)) =>
        match ReadVisible(after)
        case None => None
        case Some(read) => Some([c] + read)
  }

  /** An item, up to the quote that closes it, and the text after that quote. */
  function ReadItem(text: string): (r: Option<(string, string)>)
    ensures r.Some? ==> |r.value.1| < |text|
    decreases |text|
  {
    if text == "" then None
    else if text[0] == '"' then Some(("", text[1..]))
    else
      match ReadOne(text)
      case None => None
      case Some((c, after)) =>
        match ReadItem(after)
        case None => None
        case Some((item, rest)) => Some(([c] + item, rest))
  }

  /** Items from the first quote on, up to the bracket that closes the list. */
  function ReadItems(text: string): Option<seq<string>>
    decreases |text|
  {
    if text == "" || text[0] != '"' then None
    else
      match ReadItem(text[1..])
      case None => None
      case Some((item, rest)) =>
        if rest == "]" then Some([item])
        else if |rest| < 2 || rest[..2] != ", " then None
        else
          match ReadItems(rest[2..])
          case None => None
          case Some(items) => Some([item] + items)
  }

  function ReadListed(text: string): Option<seq<string>> {
    if text == "[]" then Some([])
    else if text == "" || text[0] != '[' then None
    else ReadItems(text[1..])
  }

  // ------------------------------------------------------------------------------------------
  // Nothing is lost
  // ------------------------------------------------------------------------------------------

  lemma DigitsAreRead(n: nat)
    requires n < 256
    ensures TwoValue(TwoDigits(n)[0], TwoDigits(n)[1]) == Some(n)
  {
    DigitsRead(n / 16);
    DigitsRead(n % 16);
  }

  lemma ShortEscapeIsRead(n: nat, after: string)
    requires n < 256
    ensures ReadOne("\\x" + TwoDigits(n) + after) == Some((n as char, after))
  {
    var text := "\\x" + TwoDigits(n) + after;
    DigitsAreRead(n);
    assert text[2] == TwoDigits(n)[0] && text[3] == TwoDigits(n)[1] && text[4..] == after;
  }

  lemma LongFormIsRead(a: char, b: char, c: char, d: char, after: string)
    ensures ReadOne(['\\', 'u', a, b, c, d] + after)
         == match (TwoValue(a, b), TwoValue(c, d))
            case (Some(high), Some(low)) =>
              var code := 256 * high + low;
              if code < 0xD800 || 0xE000 <= code < 0x10000 then Some((code as char, after)) else None
            case _ => None
  {
    var text := ['\\', 'u', a, b, c, d] + after;
    assert text[6..] == after;
  }

  lemma LongEscapeIsRead(n: nat, after: string)
    requires n < 0xD800 || 0xE000 <= n < 0x10000
    ensures ReadOne("\\u" + FourDigits(n) + after) == Some((n as char, after))
  {
    var high, low := TwoDigits(n / 256), TwoDigits(n % 256);
    DigitsAreRead(n / 256);
    DigitsAreRead(n % 256);
    LongFormIsRead(high[0], high[1], low[0], low[1], after);
    assert "\\u" + FourDigits(n) == ['\\', 'u', high[0], high[1], low[0], low[1]];
  }

  /** A character is read back from the way it is written, whatever follows it. */
  lemma OneIsRead(c: char, lines: bool, after: string)
    ensures Shown(c, lines) != "" && ReadOne(Shown(c, lines) + after) == Some((c, after))
  {
    if (lines && (c == '\n' || c == '\t')) || c in {'\\', '\n', '\t', '\r'} {
      assert (Shown(c, lines) + after)[|Shown(c, lines)|..] == after;
    } else if IsControl(c) {
      ShortEscapeIsRead(c as nat, after);
    } else if IsInvisible(c) {
      LongEscapeIsRead(c as nat, after);
    } else {
      assert ([c] + after)[1..] == after;
    }
  }

  /** One reader undoes `visible` in both modes. */
  lemma {:induction false} VisibleIsRead(text: string, lines: bool)
    ensures ReadVisible(Visible(text, lines)) == Some(text)
    decreases |text|
  {
    if text != "" {
      var first, rest := Shown(text[0], lines), Visible(text[1..], lines);
      OneIsRead(text[0], lines, rest);
      VisibleIsRead(text[1..], lines);
      assert text == [text[0]] + text[1..];
      ReadOn(first + rest, text[0], rest, text[1..]);
    }
  }

  lemma ReadOn(shown: string, c: char, rest: string, text: string)
    requires shown != "" && ReadOne(shown) == Some((c, rest)) && ReadVisible(rest) == Some(text)
    ensures ReadVisible(shown) == Some([c] + text)
  {
  }

  lemma VisibleTellsTextsApart(a: string, b: string, linesOfA: bool, linesOfB: bool)
    requires Visible(a, linesOfA) == Visible(b, linesOfB)
    ensures a == b
  {
    VisibleIsRead(a, linesOfA);
    VisibleIsRead(b, linesOfB);
  }

  lemma DigitsDoNotDeceive(n: nat, c: char)
    requires n < 65536 && (c in FourDigits(n) || (n < 256 && c in TwoDigits(n)))
    ensures !Deceives(c) && c != '"'
  {
    assert forall d: nat :: d < 16 ==> Between(LowerDigit(d), 0x30, 0x66) && LowerDigit(d) != '\\';
  }

  lemma ShownDoesNotDeceive(c: char, lines: bool, i: nat)
    requires i < |Shown(c, lines)| && Deceives(Shown(c, lines)[i])
    ensures Shown(c, lines)[i] == '\\' || (lines && Shown(c, lines)[i] in {'\n', '\t'})
  {
    if i >= 2 {
      var shown := Shown(c, lines);
      assert shown == shown[..2] + shown[2..];
      assert IsControl(c) ==> shown[2..] == TwoDigits(c as nat);
      assert IsInvisible(c) ==> shown[2..] == FourDigits(c as nat);
      assert shown[i] == shown[2..][i - 2];
      DigitsDoNotDeceive(c as nat, shown[i]);
    }
  }

  /** Nothing that deceives is left: only the backslash of an escape and, with `lines`, newline and
      tab. */
  lemma {:induction false} NothingDeceives(text: string, lines: bool)
    ensures IsHarmless(Visible(text, lines), lines)
    decreases |text|
  {
    if text != "" {
      ShownIsHarmless(text[0], lines);
      NothingDeceives(text[1..], lines);
    }
  }

  /** The code points that are not in the table: printable ASCII but the backslash, and the rest of Unicode but
      the controls and what has no width or reorders a line. */
  predicate IsLeftAlone(code: int) {
    || (0x20 <= code <= 0x7E && code != 0x5C) || 0xA0 <= code <= 0x200A || 0x200E <= code <= 0x2029
    || 0x202F <= code <= 0x205F || 0x2061 <= code <= 0x2065 || 0x206A <= code <= 0xFEFE || 0xFEFF < code
  }

  predicate IsKept(c: char, lines: bool) {
    IsLeftAlone(c as int) || (lines && c in {'\n', '\t'})
  }

  lemma OneIsKeptExactly(c: char, lines: bool)
    ensures if IsKept(c, lines) then Shown(c, lines) == [c] else |Shown(c, lines)| > 1
  {
  }

  lemma {:induction false} NeverShorter(text: string, lines: bool)
    ensures |Visible(text, lines)| >= |text|
  {
    if text != "" {
      OneIsKeptExactly(text[0], lines);
      NeverShorter(text[1..], lines);
    }
  }

  /** A text prints as it is exactly when it holds nothing that is in the table. */
  lemma {:induction false} UnchangedExactly(text: string, lines: bool)
    ensures Visible(text, lines) == text <==> forall i :: 0 <= i < |text| ==> IsKept(text[i], lines)
  {
    if text != "" {
      OneIsKeptExactly(text[0], lines);
      NeverShorter(text[1..], lines);
      UnchangedExactly(text[1..], lines);
      assert text == [text[0]] + text[1..];
      if IsKept(text[0], lines) {
        assert Visible(text, lines)[1..] == Visible(text[1..], lines);
      }
    }
  }

  predicate IsHarmless(shown: string, lines: bool) {
    forall i :: 0 <= i < |shown| && Deceives(shown[i]) ==> shown[i] == '\\' || (lines && shown[i] in {'\n', '\t'})
  }

  lemma ShownIsHarmless(c: char, lines: bool)
    ensures IsHarmless(Shown(c, lines), lines)
  {
    forall i | 0 <= i < |Shown(c, lines)| && Deceives(Shown(c, lines)[i])
      ensures Shown(c, lines)[i] == '\\' || (lines && Shown(c, lines)[i] in {'\n', '\t'})
    {
      ShownDoesNotDeceive(c, lines, i);
    }
  }

  // ------------------------------------------------------------------------------------------
  // Lists
  // ------------------------------------------------------------------------------------------

  lemma {:induction false} QuotesEscapedInTwo(a: string, b: string)
    ensures QuotesEscaped(a + b) == QuotesEscaped(a) + QuotesEscaped(b)
    decreases |a|
  {
    if a == "" {
      assert a + b == b;
    } else {
      assert (a + b)[1..] == a[1..] + b;
      QuotesEscapedInTwo(a[1..], b);
    }
  }

  lemma {:induction false} QuotesEscapedOfPlain(a: string)
    requires '"' !in a
    ensures QuotesEscaped(a) == a
    decreases |a|
  {
    if a != "" {
      QuotesEscapedOfPlain(a[1..]);
      assert a == [a[0]] + a[1..];
    }
  }

  /** A character between quotes is read back, and never taken for the closing quote. */
  lemma QuotedOneIsRead(c: char, after: string)
    ensures var shown := QuotesEscaped(Shown(c, false));
            shown != "" && shown[0] != '"' && ReadOne(shown + after) == Some((c, after))
  {
    if c == '"' {
      assert Shown(c, false) == "\"" && QuotesEscaped("\"") == "\\\"" + QuotesEscaped("");
      assert ("\\\"" + after)[2..] == after;
    } else {
      OneIsRead(c, false, after);
      assert '"' !in Shown(c, false) by {
        if IsControl(c) || IsInvisible(c) {
          if '"' in Shown(c, false) {
            DigitsDoNotDeceive(c as nat, '"');
          }
        }
      }
      QuotesEscapedOfPlain(Shown(c, false));
    }
  }

  lemma {:induction false} ItemIsRead(item: string, after: string)
    ensures ReadItem(QuotesEscaped(Visible(item, false)) + "\"" + after) == Some((item, after))
    decreases |item|
  {
    if item == "" {
      assert QuotesEscaped("") + "\"" + after == "\"" + after;
      assert ("\"" + after)[1..] == after;
    } else {
      var tail := QuotesEscaped(Visible(item[1..], false)) + "\"" + after;
      ItemInTwo(item, after);
      QuotedOneIsRead(item[0], tail);
      ItemIsRead(item[1..], after);
      ReadItemStep(QuotesEscaped(Shown(item[0], false)), tail, item[0], item[1..], after);
      assert item == [item[0]] + item[1..];
    }
  }

  lemma ItemInTwo(item: string, after: string)
    requires item != ""
    ensures QuotesEscaped(Visible(item, false)) + "\"" + after
         == QuotesEscaped(Shown(item[0], false)) + (QuotesEscaped(Visible(item[1..], false)) + "\"" + after)
  {
    var first, rest := Shown(item[0], false), Visible(item[1..], false);
    QuotesEscapedInTwo(first, rest);
    FromTheLeft(QuotesEscaped(first), QuotesEscaped(rest), "\"", after);
  }

  lemma FromTheLeft(a: string, b: string, c: string, d: string)
    ensures a + b + c + d == a + (b + c + d)
  {
  }

  lemma ReadItemStep(shown: string, tail: string, c: char, item: string, after: string)
    requires shown != "" && shown[0] != '"' && ReadOne(shown + tail) == Some((c, tail))
    requires ReadItem(tail) == Some((item, after))
    ensures ReadItem(shown + tail) == Some(([c] + item, after))
  {
    assert (shown + tail)[0] == shown[0];
  }

  lemma FirstItemIsRead(item: string, after: string)
    ensures var text := Quoted(item) + after;
            text != "" && text[0] == '"' && ReadItem(text[1..]) == Some((item, after))
  {
    var body := QuotesEscaped(Visible(item, false));
    assert (Quoted(item) + after)[1..] == body + "\"" + after;
    ItemIsRead(item, after);
  }

  lemma {:induction false} ItemsAreRead(items: seq<string>)
    requires items != []
    ensures ReadItems(Joined(items) + "]") == Some(items)
    decreases |items|
  {
    assert items == [items[0]] + items[1..];
    if |items| == 1 {
      LastItemIsRead(items[0]);
      assert items == [items[0]];
    } else {
      var tail := Joined(items[1..]) + "]";
      ItemsAreRead(items[1..]);
      MoreItemsAreRead(items[0], items[1..], tail);
      JoinedStep(items);
    }
  }

  lemma JoinedStep(items: seq<string>)
    requires |items| > 1
    ensures Joined(items) + "]" == Quoted(items[0]) + (", " + (Joined(items[1..]) + "]"))
  {
    FromTheRight(Quoted(items[0]), ", ", Joined(items[1..]), "]");
  }

  lemma FromTheRight(a: string, b: string, c: string, d: string)
    ensures a + b + c + d == a + (b + (c + d))
  {
  }

  lemma LastItemIsRead(item: string)
    ensures ReadItems(Quoted(item) + "]") == Some([item])
  {
    FirstItemIsRead(item, "]");
  }

  lemma MoreItemsAreRead(item: string, items: seq<string>, tail: string)
    requires ReadItems(tail) == Some(items)
    ensures ReadItems(Quoted(item) + (", " + tail)) == Some([item] + items)
  {
    FirstItemIsRead(item, ", " + tail);
    assert (", " + tail)[..2] == ", " && (", " + tail)[2..] == tail && (", " + tail)[0] != ']';
  }

  /** `listed` is read back: the borders of its items are where they were. */
  lemma ListedIsRead(items: seq<string>)
    ensures ReadListed(Listed(items)) == Some(items)
  {
    if items == [] {
      assert Listed(items) == "[]";
    } else {
      ItemsAreRead(items);
      FirstItemIsRead(items[0], "");
      assert Listed(items)[1..] == Joined(items) + "]";
      assert Listed(items)[1] == Quoted(items[0])[0] == '"';
    }
  }

  /** Two lists of arguments never print alike. */
  lemma ListedTellsListsApart(a: seq<string>, b: seq<string>)
    requires Listed(a) == Listed(b)
    ensures a == b
  {
    ListedIsRead(a);
    ListedIsRead(b);
  }
}
