/**
 What the derived stylesheet means: the theorems a reader of tokens.json relies on.
 */
module Meaning {
  import opened Options
  import opened Numerals
  import opened Tokens
  import opened Stylesheet
  import opened Rendering

  /** A value that compiles is one whose chain of aliases reaches a literal. */
  lemma CompiledResolves(tokens: Node, theme: string, path: Path) returns (trail: seq<Path>)
    requires LeafAt(tokens, path, theme) && CssValueOf(tokens, Leaf(tokens, path, theme), theme).Ok?
    ensures IsLiteralTrail(tokens, theme, Alias(path), trail)
  {
    var tail := ChaseFollowsATrail(tokens, Leaf(tokens, path, theme).value, theme, [], 1.0);
    trail := [path] + tail;
    assert trail[1..] == tail;
  }

  lemma EmittedCompiles(tokens: Node, sheet: seq<Rule>, theme: string, pair: (Path, Token))
    requires DistinctKeys(tokens) && Validated(tokens) && ThemesHoldThemed(tokens) && NamesTellPathsApart(tokens)
    requires Sheet(tokens) == Ok(sheet) && theme in THEMES && pair in EmittedLeaves(tokens, theme)
    ensures CssValueOf(tokens, pair.1, CompiledIn(pair.0, theme)).Ok?
  {
    RootDeclares(tokens, sheet, Some(theme), pair);
  }

  /** A stylesheet that was derived resolves every emitted path to a literal, in the theme it is
      compiled in. */
  lemma EmittedResolves(tokens: Node, sheet: seq<Rule>, theme: string, pair: (Path, Token)) returns (trail: seq<Path>)
    requires DistinctKeys(tokens) && Validated(tokens) && ThemesHoldThemed(tokens) && NamesTellPathsApart(tokens)
    requires Sheet(tokens) == Ok(sheet) && theme in THEMES && pair in EmittedLeaves(tokens, theme)
    ensures IsLiteralTrail(tokens, CompiledIn(pair.0, theme), Alias(pair.0), trail)
  {
    EmittedIsAccepted(tokens, theme, pair);
    EmittedCompiles(tokens, sheet, theme, pair);
    trail := CompiledResolves(tokens, CompiledIn(pair.0, theme), pair.0);
  }

  /** Plain groups closed under aliasing say one thing of each of their tokens. */
  lemma ClosedSaysTheSame(tokens: Node, sheet: seq<Rule>)
    requires Ready(tokens) && Sheet(tokens) == Ok(sheet) && PlainIsClosed(tokens)
    ensures PlainSaysTheSame(tokens)
  {
    forall pair | pair in PlainLeaves(tokens, PLAIN)
      ensures SaysTheSame(tokens, pair.0)
    {
      PlainIsAccepted(tokens, pair);
      PlainIsNotThemed(pair.0);
      assert pair in EmittedLeaves(tokens, DARK);
      var trail := EmittedResolves(tokens, sheet, DARK, pair);
      PlainTrailHasNoTheme(tokens, DARK, LIGHT, Alias(pair.0), trail);
      SaidOfTrail(tokens, DARK, pair.0, trail);
      SaidOfTrail(tokens, LIGHT, pair.0, trail);
    }
  }

  /** Compilation preserves meaning. On the last element of any document that stays in the default
      theme at the root and at that element, and of any document at all when the source says one thing
      of each plain token, the property of an emitted path computes to the literal its aliases reach,
      with the alpha gathered on the way. */
  lemma CompilationPreservesMeaning(tokens: Node, sheet: seq<Rule>, chain: Chain, path: Path) returns (trail: seq<Path>)
    requires Ready(tokens) && Sheet(tokens) == Ok(sheet)
    requires chain != [] && (InOneTheme(chain) || PlainIsClosed(tokens) || PlainSaysTheSame(tokens))
    requires Emitted(tokens, ThemeOf(chain), path)
    ensures IsLiteralTrail(tokens, ThemeOf(chain), Alias(path), trail)
    ensures Chase(tokens, Alias(path), ThemeOf(chain), [], 1.0)
         == Found(End(tokens, ThemeOf(chain), Alias(path), trail),
                  TrailAlpha(tokens, ThemeOf(chain), Alias(path), trail))
    ensures Computes(tokens, sheet, chain, path, trail, {})
    ensures InOneTheme(chain) || PlainIsClosed(tokens) ==>
              0.0 <= TrailAlpha(tokens, ThemeOf(chain), Alias(path), trail) <= 1.0
  {
    if PlainIsClosed(tokens) {
      ClosedSaysTheSame(tokens, sheet);
    }
    trail := TrailHere(tokens, sheet, ThemeOf(chain), path);
    ChaseOfTrail(tokens, ThemeOf(chain), Alias(path), trail);
    ValueComputes(tokens, sheet, chain, path, trail);
    if InOneTheme(chain) || PlainIsClosed(tokens) {
      AlphaIsTheFirst(tokens, ThemeOf(chain), path, trail);
    }
  }

  lemma TrailHere(tokens: Node, sheet: seq<Rule>, theme: string, path: Path) returns (trail: seq<Path>)
    requires Ready(tokens) && Sheet(tokens) == Ok(sheet) && theme in THEMES
    requires (theme == DARK || PlainSaysTheSame(tokens)) && Emitted(tokens, theme, path)
    ensures IsLiteralTrail(tokens, theme, Alias(path), trail)
  {
    var pair :| pair in EmittedLeaves(tokens, theme) && pair.0 == path;
    EmittedIsAccepted(tokens, theme, pair);
    if CompiledIn(path, theme) == theme {
      trail := EmittedResolves(tokens, sheet, theme, pair);
    } else {
      trail := TrailOfSaid(tokens, theme, path);
    }
  }

  lemma ValueComputes(tokens: Node, sheet: seq<Rule>, chain: Chain, path: Path, trail: seq<Path>)
    requires Ready(tokens) && Sheet(tokens) == Ok(sheet)
    requires chain != [] && (InOneTheme(chain) || PlainSaysTheSame(tokens))
    requires IsLiteralTrail(tokens, ThemeOf(chain), Alias(path), trail) && Emitted(tokens, ThemeOf(chain), path)
    ensures Computes(tokens, sheet, chain, path, trail, {})
  {
    if |chain| == 1 {
      assert chain == [chain[0]] == chain[..1];
      RootValue(tokens, sheet, chain[0], path, trail, {});
    } else {
      ValueBelow(tokens, sheet, chain, path, trail, {});
    }
  }

  /** The alpha gathered on a trail is that of the first leaf that carries one, between 0 and 1. */
  predicate HasOneAlpha(tokens: Node, theme: string, value: Value, trail: seq<Path>)
    requires IsTrail(tokens, theme, value, trail)
  {
    && TrailAlpha(tokens, theme, value, trail) == FirstAlpha(tokens, theme, value, trail)
    && 0.0 <= FirstAlpha(tokens, theme, value, trail) <= 1.0
  }

  lemma FirstAlphaByTheFirst(tokens: Node, theme: string, path: Path, trail: seq<Path>)
    requires IsTrail(tokens, theme, Alias(path), trail) && trail != []
    ensures trail[0] == path && LeafAt(tokens, path, theme)
    ensures var leaf := Leaf(tokens, path, theme);
            && IsTrail(tokens, theme, leaf.value, trail[1..])
            && FirstAlpha(tokens, theme, Alias(path), trail)
               == if leaf.alpha.Some? then leaf.alpha.value else FirstAlpha(tokens, theme, leaf.value, trail[1..])
  {
  }

  lemma TintedHasOneAlpha(tokens: Node, theme: string, path: Path, trail: seq<Path>)
    requires CompiledIn(path, theme) == theme
    requires (IsPlain(path) || IsThemed(path)) && IsLiteralTrail(tokens, theme, Alias(path), trail)
    requires LeafAt(tokens, path, theme) && Leaf(tokens, path, theme).alpha.Some?
    requires AcceptedIn(tokens, path, Leaf(tokens, path, theme), theme)
    ensures HasOneAlpha(tokens, theme, Alias(path), trail)
  {
    AlphaStandsAlone(tokens, theme, path, trail);
    FirstAlphaByTheFirst(tokens, theme, path, trail);
  }

  lemma LiteralHasOneAlpha(tokens: Node, theme: string, path: Path, trail: seq<Path>)
    requires IsLiteralTrail(tokens, theme, Alias(path), trail) && LeafAt(tokens, path, theme)
    requires Leaf(tokens, path, theme).alpha.None? && !Leaf(tokens, path, theme).value.Alias?
    ensures HasOneAlpha(tokens, theme, Alias(path), trail)
  {
    CompiledLiteral(tokens, theme, path, trail);
    FirstAlphaByTheFirst(tokens, theme, path, trail);
    assert trail[1..] == [];
  }

  lemma AliasHasOneAlpha(tokens: Node, theme: string, path: Path, trail: seq<Path>)
    requires IsLiteralTrail(tokens, theme, Alias(path), trail) && trail != [] && LeafAt(tokens, path, theme)
    requires Leaf(tokens, path, theme).alpha.None?
    requires IsTrail(tokens, theme, Leaf(tokens, path, theme).value, trail[1..])
    requires HasOneAlpha(tokens, theme, Leaf(tokens, path, theme).value, trail[1..])
    ensures HasOneAlpha(tokens, theme, Alias(path), trail)
  {
    AlphaByTheFirst(tokens, theme, path, trail);
    FirstAlphaByTheFirst(tokens, theme, path, trail);
    TimesOne(TrailAlpha(tokens, theme, Leaf(tokens, path, theme).value, trail[1..]), 1.0);
  }

  /** The alpha gathered from an emitted path is that of the first token on the way that carries one, and 1
      if none does; so it is one of those validation admits. */
  lemma {:induction false} AlphaIsTheFirst(tokens: Node, theme: string, path: Path, trail: seq<Path>)
    requires Ready(tokens) && theme in THEMES && (theme == DARK || PlainIsClosed(tokens))
    requires IsLiteralTrail(tokens, theme, Alias(path), trail) && Emitted(tokens, theme, path)
    ensures TrailAlpha(tokens, theme, Alias(path), trail) == FirstAlpha(tokens, theme, Alias(path), trail)
    ensures 0.0 <= TrailAlpha(tokens, theme, Alias(path), trail) <= 1.0
    decreases |trail|, theme != DARK
  {
    var pair :| pair in EmittedLeaves(tokens, theme) && pair.0 == path;
    EmittedIsAccepted(tokens, theme, pair);
    EndByTheFirst(tokens, theme, path, trail);
    if CompiledIn(path, theme) != theme {
      PlainTrailHasNoTheme(tokens, theme, DARK, Alias(path), trail);
      assert pair in EmittedLeaves(tokens, DARK);
      AlphaIsTheFirst(tokens, DARK, path, trail);
    } else if pair.1.alpha.Some? {
      TintedHasOneAlpha(tokens, theme, path, trail);
    } else if pair.1.value.Alias? {
      TargetIsEmitted(tokens, theme, pair);
      AlphaIsTheFirst(tokens, theme, pair.1.value.path, trail[1..]);
      AliasHasOneAlpha(tokens, theme, path, trail);
    } else {
      LiteralHasOneAlpha(tokens, theme, path, trail);
    }
  }

  /** What the chase says of an emitted path of a file that compiles: the literal its aliases reach, with
      the one alpha of the first token that carries one. */
  lemma EmittedHasOneAlpha(tokens: Node, sheet: seq<Rule>, theme: string, path: Path) returns (trail: seq<Path>)
    requires Ready(tokens) && Sheet(tokens) == Ok(sheet) && theme in THEMES
    requires (theme == DARK || PlainIsClosed(tokens)) && Emitted(tokens, theme, path)
    ensures IsLiteralTrail(tokens, theme, Alias(path), trail)
    ensures Chase(tokens, Alias(path), theme, [], 1.0)
         == Found(End(tokens, theme, Alias(path), trail), FirstAlpha(tokens, theme, Alias(path), trail))
  {
    if PlainIsClosed(tokens) {
      ClosedSaysTheSame(tokens, sheet);
    }
    trail := TrailHere(tokens, sheet, theme, path);
    ChaseOfTrail(tokens, theme, Alias(path), trail);
    AlphaIsTheFirst(tokens, theme, path, trail);
  }

  // ------------------------------------------------------------------------------------------
  // Exactly when every element shows what the source says
  // ------------------------------------------------------------------------------------------

  /** On an element, the property of a path is what the source says of it in the theme of the element. */
  predicate ShowsWhatIsSaid(tokens: Node, sheet: seq<Rule>, chain: Chain, path: Path) {
    Said(tokens, ThemeOf(chain), path).Some?
    && ValueAt(sheet, chain, CssName(path), {}) == Said(tokens, ThemeOf(chain), path)
  }

  /** On every element of every document. */
  ghost predicate ShownEverywhere(tokens: Node, sheet: seq<Rule>) {
    forall chain, path :: chain != [] && Emitted(tokens, ThemeOf(chain), path) ==>
      ShowsWhatIsSaid(tokens, sheet, chain, path)
  }

  /** The stylesheet says what the source says, on every element of every document and of every path,
      exactly when the source says one thing of each plain token in both themes. */
  lemma ShownEverywhereExactly(tokens: Node, sheet: seq<Rule>)
    requires Ready(tokens) && Sheet(tokens) == Ok(sheet)
    ensures ShownEverywhere(tokens, sheet) <==> PlainSaysTheSame(tokens)
  {
    if PlainSaysTheSame(tokens) {
      forall chain, path | chain != [] && Emitted(tokens, ThemeOf(chain), path)
        ensures ShowsWhatIsSaid(tokens, sheet, chain, path)
      {
        var trail := CompilationPreservesMeaning(tokens, sheet, chain, path);
        SaidOfTrail(tokens, ThemeOf(chain), path, trail);
      }
    }
    if ShownEverywhere(tokens, sheet) {
      forall pair | pair in PlainLeaves(tokens, PLAIN)
        ensures SaysTheSame(tokens, pair.0)
      {
        ShownInBoth(tokens, sheet, pair);
      }
    }
  }

  /** A plain property that is right in both themes is one text: a light element under a default root
      inherits it from there. */
  lemma ShownInBoth(tokens: Node, sheet: seq<Rule>, pair: (Path, Token))
    requires Ready(tokens) && Sheet(tokens) == Ok(sheet) && ShownEverywhere(tokens, sheet)
    requires pair in PlainLeaves(tokens, PLAIN)
    ensures SaysTheSame(tokens, pair.0)
  {
    var root: Chain := [None];
    var below: Chain := [None, Some(LIGHT)];
    assert below[..1] == root && root[..0] == [] && ThemeOf(root) == DARK && ThemeOf(below) == LIGHT;
    PlainIsShown(tokens, sheet, root, pair);
    PlainIsShown(tokens, sheet, below, pair);
    PlainIsInherited(tokens, sheet, below, pair, {});
  }

  lemma PlainIsShown(tokens: Node, sheet: seq<Rule>, chain: Chain, pair: (Path, Token))
    requires ShownEverywhere(tokens, sheet) && chain != [] && pair in PlainLeaves(tokens, PLAIN)
    ensures Said(tokens, ThemeOf(chain), pair.0).Some?
    ensures ValueAt(sheet, chain, CssName(pair.0), {}) == Said(tokens, ThemeOf(chain), pair.0)
  {
    assert pair in EmittedLeaves(tokens, ThemeOf(chain)) && Emitted(tokens, ThemeOf(chain), pair.0);
    assert ShowsWhatIsSaid(tokens, sheet, chain, pair.0);
  }

  /** So with the plain groups closed under aliasing every element shows what the source says. */
  lemma ClosedIsShownEverywhere(tokens: Node, sheet: seq<Rule>)
    requires Ready(tokens) && Sheet(tokens) == Ok(sheet) && PlainIsClosed(tokens)
    ensures ShownEverywhere(tokens, sheet)
  {
    ClosedSaysTheSame(tokens, sheet);
    ShownEverywhereExactly(tokens, sheet);
  }

  // ------------------------------------------------------------------------------------------
  // Colours
  // ------------------------------------------------------------------------------------------

  /** A colour as CSS reads it: six hexadecimal digits, and an alpha from 0 to 255. */
  datatype Colour = Colour(digits: string, alpha: int)

  function ReadColour(text: string): Option<Colour> {
    if !((|text| == 7 || |text| == 9) && text[0] == '#' && forall i :: 1 <= i < |text| ==> IsHex(text[i])) then None
    else if |text| == 7 then Some(Colour(Upper(text[1..7]), 255))
    else Some(Colour(Upper(text[1..7]), 16 * DigitValue(text[7]).value + DigitValue(text[8]).value))
  }

  lemma UpperOfHex(c: char)
    requires IsHex(c)
    ensures IsHex(UpperChar(c)) && UpperChar(UpperChar(c)) == UpperChar(c)
  {
  }

  lemma ComposedIsRead(literal: string, alpha: real)
    requires Opaque(literal) && 0.0 <= alpha <= 1.0
    ensures ReadColour(literal) == Some(Colour(Upper(literal[1..]), 255))
    ensures ReadColour(WithAlpha(literal, alpha)) == Some(Colour(Upper(literal[1..]), Round(alpha * 255.0)))
  {
    assert literal[1..7] == literal[1..];
    var byte := Round(alpha * 255.0);
    RoundStaysBetween(alpha * 255.0, 0, 255);
    PaddedHexReads(byte);
    var text := WithAlpha(literal, alpha);
    WithAlphaIs(literal, alpha);
    forall i | 1 <= i < 9
      ensures IsHex(text[i])
    {
      if i < 7 {
        UpperOfHex(literal[i]);
      } else {
        assert text[i] == PaddedHex(byte)[i - 7];
      }
    }
    assert Upper(text[1..7]) == Upper(literal[1..]) by {
      forall i | 0 <= i < 6
        ensures Upper(text[1..7])[i] == Upper(literal[1..])[i]
      {
        UpperOfHex(literal[i + 1]);
      }
    }
    assert text[7] == PaddedHex(byte)[0] && text[8] == PaddedHex(byte)[1];
  }

  /** A computed value is read as an opaque literal and the alpha gathered over it. */
  predicate ReadsAs(value: Option<string>, said: Chased) {
    && said.Found? && Opaque(Shown(said.literal))
    && value.Some?
    && ReadColour(value.value) == Some(Colour(Upper(Shown(said.literal)[1..]), Round(said.alpha * 255.0)))
  }

  /** What the chase says is a colour: an opaque literal, and an alpha between 0 and 1. */
  predicate IsColour(said: Chased) {
    said.Found? && Opaque(Shown(said.literal)) && 0.0 <= said.alpha <= 1.0
  }

  /** A colour's property is read as the colour `colour_of` gives in the theme of the element: its six
      digits, and its alpha rounded to a byte. Validation has seen that it gives a colour wherever it
      has looked: in the default theme, and everywhere when the plain groups are closed. */
  lemma ColoursKeepTheirAlpha(tokens: Node, sheet: seq<Rule>, chain: Chain, pair: (Path, Token))
    requires Ready(tokens) && Sheet(tokens) == Ok(sheet)
    requires chain != [] && (InOneTheme(chain) || PlainIsClosed(tokens) || PlainSaysTheSame(tokens))
    requires pair in EmittedLeaves(tokens, ThemeOf(chain)) && pair.1.kind == Some("color")
    ensures var said := Chase(tokens, Alias(pair.0), ThemeOf(chain), [], 1.0);
            && (IsColour(said) ==> ReadsAs(ValueAt(sheet, chain, CssName(pair.0), {}), said))
            && (InOneTheme(chain) || PlainIsClosed(tokens) ==> IsColour(said))
  {
    var theme := ThemeOf(chain);
    assert Emitted(tokens, theme, pair.0);
    var trail := CompilationPreservesMeaning(tokens, sheet, chain, pair.0);
    SaidReads(tokens, theme, pair.0, trail);
    if InOneTheme(chain) || PlainIsClosed(tokens) {
      LiteralIsOpaque(tokens, theme, pair, trail);
    }
  }

  lemma SaidReads(tokens: Node, theme: string, path: Path, trail: seq<Path>)
    requires IsLiteralTrail(tokens, theme, Alias(path), trail)
    ensures var said := Found(End(tokens, theme, Alias(path), trail), TrailAlpha(tokens, theme, Alias(path), trail));
            IsColour(said) ==> ReadsAs(Some(SaidOn(tokens, theme, Alias(path), trail)), said)
  {
    if IsColour(Found(End(tokens, theme, Alias(path), trail), TrailAlpha(tokens, theme, Alias(path), trail))) {
      SaidIsRead(tokens, theme, path, trail);
    }
  }

  lemma SaidIsRead(tokens: Node, theme: string, path: Path, trail: seq<Path>)
    requires IsLiteralTrail(tokens, theme, Alias(path), trail)
    requires 0.0 <= TrailAlpha(tokens, theme, Alias(path), trail) <= 1.0
    requires Opaque(Shown(End(tokens, theme, Alias(path), trail)))
    ensures ReadColour(SaidOn(tokens, theme, Alias(path), trail))
         == Some(Colour(Upper(Shown(End(tokens, theme, Alias(path), trail))[1..]),
                        Round(TrailAlpha(tokens, theme, Alias(path), trail) * 255.0)))
  {
    if Tinted(tokens, theme, Alias(path), trail) {
      ComposedIsRead(Shown(End(tokens, theme, Alias(path), trail)), TrailAlpha(tokens, theme, Alias(path), trail));
    } else {
      UntintedIsOpaque(tokens, theme, Alias(path), trail);
      PlainIsRead(Shown(End(tokens, theme, Alias(path), trail)));
    }
  }

  lemma PlainIsRead(literal: string)
    requires Opaque(literal)
    ensures ReadColour(literal) == Some(Colour(Upper(literal[1..]), Round(1.0 * 255.0)))
  {
    ComposedIsRead(literal, 1.0);
  }

  lemma LiteralIsOpaque(tokens: Node, theme: string, pair: (Path, Token), trail: seq<Path>)
    requires DistinctKeys(tokens) && Validated(tokens) && ThemesHoldThemed(tokens)
    requires theme in THEMES && (theme == DARK || PlainIsClosed(tokens))
    requires pair in EmittedLeaves(tokens, theme) && pair.1.kind == Some("color")
    requires IsLiteralTrail(tokens, theme, Alias(pair.0), trail)
    ensures Opaque(Shown(End(tokens, theme, Alias(pair.0), trail)))
  {
    EmittedIsAccepted(tokens, theme, pair);
    var compiled := CompiledIn(pair.0, theme);
    if compiled != theme {
      PlainTrailHasNoTheme(tokens, theme, compiled, Alias(pair.0), trail);
    }
    TailAsCompiled(tokens, compiled, pair.0, trail);
  }

  /** At most one of the factors is not 1, and it is the product. */
  predicate OneFactor(factors: seq<real>) {
    && (forall i, j :: 0 <= i < j < |factors| && factors[i] != 1.0 ==> factors[j] == 1.0)
    && (forall i :: 0 <= i < |factors| && factors[i] != 1.0 ==> Product(factors) == factors[i])
    && ((forall i :: 0 <= i < |factors| ==> factors[i] == 1.0) ==> Product(factors) == 1.0)
  }

  lemma OneFactorMore(factor: real, rest: seq<real>)
    requires OneFactor(rest) && (factor == 1.0 || Product(rest) == 1.0)
    ensures OneFactor([factor] + rest)
  {
    var all := [factor] + rest;
    assert all[1..] == rest;
    if factor == 1.0 {
      assert Product(all) == Product(rest);
      assert forall i :: 0 <= i < |rest| ==> all[i + 1] == rest[i];
    } else {
      assert Product(all) == factor;
      assert forall i :: 0 <= i < |rest| ==> rest[i] == 1.0;
    }
  }

  /** The path validation finds a leaf at, when a path is followed in a theme. */
  function ValidatedAt(path: Path, theme: string): Path {
    if IsThemed(path) then [theme] + path else path
  }

  /** The theme validation reads that leaf in. */
  function ValidatedIn(path: Path, theme: string): string {
    ThemeOfPath(ValidatedAt(path, theme))
  }

  /** Validation has looked at the leaves of a chain. */
  ghost predicate IsListed(tokens: Node, theme: string, value: Value, trail: seq<Path>)
    requires IsTrail(tokens, theme, value, trail)
    decreases |trail|
  {
    trail != [] ==>
      var leaf := Leaf(tokens, trail[0], theme);
      (ValidatedAt(trail[0], theme), leaf) in Listed(tokens) && IsListed(tokens, theme, leaf.value, trail[1..])
  }

  /** No leaf of a chain that validation reads in another theme goes on to a themed one. */
  ghost predicate IsSteady(theme: string, trail: seq<Path>)
    decreases |trail|
  {
    trail != [] ==>
      && (ValidatedIn(trail[0], theme) == theme || forall path :: path in trail[1..] ==> !IsThemed(path))
      && IsSteady(theme, trail[1..])
  }

  /** On a chain of tokens that validation has looked at, at most one alpha differs from 1, and the
      alpha the chase returns is that one. */
  lemma {:induction false} OneAlphaOnAChain(tokens: Node, theme: string, value: Value, trail: seq<Path>)
    requires Validated(tokens) && IsLiteralTrail(tokens, theme, value, trail)
    requires IsListed(tokens, theme, value, trail) && IsSteady(theme, trail)
    ensures |Alphas(tokens, theme, value, trail)| == |trail|
    ensures OneFactor(Alphas(tokens, theme, value, trail))
    ensures Chase(tokens, value, theme, [], 1.0)
         == Found(End(tokens, theme, value, trail), Product(Alphas(tokens, theme, value, trail)))
    decreases |trail|
  {
    ChaseOfTrail(tokens, theme, value, trail);
    if trail != [] {
      var leaf := Leaf(tokens, trail[0], theme);
      OneAlphaOnAChain(tokens, theme, leaf.value, trail[1..]);
      AlphaOverOpaque(tokens, theme, trail);
      OneFactorMore(AlphaOf(leaf), Alphas(tokens, theme, leaf.value, trail[1..]));
    }
  }

  /** A trail with no themed path on it is the same in every theme. */
  lemma {:induction false} UnthemedTrailHasNoTheme(tokens: Node, s: string, t: string, value: Value, trail: seq<Path>)
    requires IsTrail(tokens, s, value, trail) && forall path :: path in trail ==> !IsThemed(path)
    ensures IsTrail(tokens, t, value, trail)
    ensures End(tokens, t, value, trail) == End(tokens, s, value, trail)
    ensures Alphas(tokens, t, value, trail) == Alphas(tokens, s, value, trail)
    decreases |trail|
  {
    if trail != [] {
      assert trail[0] in trail && NodeAt(tokens, trail[0], s) == NodeAt(tokens, trail[0], t);
      UnthemedTrailHasNoTheme(tokens, s, t, Leaf(tokens, trail[0], s).value, trail[1..]);
    }
  }

  /** A leaf that carries an alpha stands over colours that carry none. */
  lemma AlphaOverOpaque(tokens: Node, theme: string, trail: seq<Path>)
    requires Validated(tokens) && trail != [] && IsLiteralTrail(tokens, theme, Alias(trail[0]), trail)
    requires IsListed(tokens, theme, Alias(trail[0]), trail) && IsSteady(theme, trail)
    ensures var leaf := Leaf(tokens, trail[0], theme);
            AlphaOf(leaf) == 1.0 || Product(Alphas(tokens, theme, leaf.value, trail[1..])) == 1.0
  {
    var leaf, there := Leaf(tokens, trail[0], theme), ValidatedIn(trail[0], theme);
    assert LeafAccepted(tokens, ValidatedAt(trail[0], theme), leaf);
    if there != theme {
      UnthemedTrailHasNoTheme(tokens, theme, there, leaf.value, trail[1..]);
    }
    ChaseOfTrail(tokens, there, leaf.value, trail[1..]);
  }

  // ------------------------------------------------------------------------------------------
  // Outside the theorem: a plain token that aliases a themed one
  // ------------------------------------------------------------------------------------------

  /** Under a root in the default theme a plain property is the default theme's everywhere. So it
      says what the source says in another theme exactly when the source says the same in both. */
  lemma PlainTokensFreezeAtTheRoot(tokens: Node, sheet: seq<Rule>, chain: Chain, pair: (Path, Token), there: seq<Path>)
    returns (trail: seq<Path>)
    requires Ready(tokens) && Sheet(tokens) == Ok(sheet)
    requires chain != [] && ThemeOf(chain[..1]) == DARK
    requires pair in PlainLeaves(tokens, PLAIN)
    requires IsLiteralTrail(tokens, ThemeOf(chain), Alias(pair.0), there)
    ensures IsLiteralTrail(tokens, DARK, Alias(pair.0), trail)
    ensures ValueAt(sheet, chain, CssName(pair.0), {}) == Some(SaidOn(tokens, DARK, Alias(pair.0), trail))
    ensures ValueAt(sheet, chain, CssName(pair.0), {}) == Some(SaidOn(tokens, ThemeOf(chain), Alias(pair.0), there))
       <==> SaidOn(tokens, DARK, Alias(pair.0), trail) == SaidOn(tokens, ThemeOf(chain), Alias(pair.0), there)
  {
    assert chain[..1] == [chain[0]];
    assert pair in EmittedLeaves(tokens, DARK) && Emitted(tokens, DARK, pair.0);
    EmittedIsAccepted(tokens, DARK, pair);
    trail := EmittedResolves(tokens, sheet, DARK, pair);
    RootValue(tokens, sheet, chain[0], pair.0, trail, {});
    if |chain| > 1 {
      PlainIsInherited(tokens, sheet, chain, pair, {});
    } else {
      assert chain == chain[..1];
    }
  }
}
