/**
 Compilation preserves meaning: on every element of every document, the custom property of a token
 computes to the literal and the alpha that chasing its aliases gives.
 */
module Rendering {
  import opened Options
  import opened Tokens
  import opened Stylesheet

  // ------------------------------------------------------------------------------------------
  // Where the emitted leaves are
  // ------------------------------------------------------------------------------------------

  lemma PlainIsNotThemed(path: Path)
    ensures IsPlain(path) ==> !IsThemed(path)
    ensures IsPlain(path) || IsThemed(path) ==> path[0] !in THEMES && !Hidden(path[0])
  {
  }

  lemma {:induction false} PlainLeavesAreAt(tokens: Node, groups: seq<string>, pair: (Path, Token))
    requires DistinctKeys(tokens) && pair in PlainLeaves(tokens, groups)
    ensures pair.0 != [] && pair.0[0] in groups
    ensures Child(tokens.entries, pair.0[0]).Some?
    ensures Reached(Child(tokens.entries, pair.0[0]).value, [pair.0[0]], pair.0[1..])
    ensures Holds(Walk(tokens, pair.0), pair.1)
    decreases groups
  {
    var group := groups[|groups| - 1];
    if pair in PlainLeaves(tokens, groups[..|groups| - 1]) {
      PlainLeavesAreAt(tokens, groups[..|groups| - 1], pair);
      assert groups == groups[..|groups| - 1] + [group];
    } else {
      KeptExactly(GroupLeaves(tokens, group), pair);
      ChildrenAreDistinct(tokens.entries, group);
      LeavesExact(Child(tokens.entries, group).value, [group], pair.0, pair.1);
    }
  }

  lemma ChildrenAreDistinct(entries: seq<Entry>, key: string)
    requires DistinctIn(entries) && Child(entries, key).Some?
    ensures DistinctKeys(Child(entries, key).value)
  {
  }

  /** A walk that meets no record goes on meeting none when it starts elsewhere. */
  lemma {:induction false} ReachedUnderATheme(node: Node, theme: string, path: Path, below: Path)
    requires theme in THEMES && Reached(node, path, below)
    ensures Reached(node, [theme] + path, below)
    decreases |below|
  {
    if below != [] {
      assert ([theme] + path)[0] != "contrast";
      assert [theme] + path + [below[0]] == [theme] + (path + [below[0]]);
      ReachedUnderATheme(Child(node.entries, below[0]).value, theme, path + [below[0]], below[1..]);
    }
  }

  /** What `validate` guarantees of one leaf in the theme it is read in. */
  predicate AcceptedIn(tokens: Node, path: Path, leaf: Token, theme: string) {
    && leaf.kind.Some?
    && (leaf.kind.value != "color" ==> leaf.alpha.None?)
    && (leaf.kind.value == "color" ==>
          var chased := Chase(tokens, leaf.value, theme, [], 1.0);
          && chased.Found?
          && Opaque(Shown(chased.literal))
          && (leaf.alpha.Some? ==> 0.0 <= leaf.alpha.value <= 1.0 && chased.alpha == 1.0))
  }

  lemma PlainIsListed(tokens: Node, groups: seq<string>, pair: (Path, Token))
    requires DistinctKeys(tokens) && pair in PlainLeaves(tokens, groups)
    requires forall group :: group in groups ==> !Hidden(group)
    ensures pair.0 != [] && pair.0[0] in groups && Holds(Walk(tokens, pair.0), pair.1) && pair in Listed(tokens)
  {
    PlainLeavesAreAt(tokens, groups, pair);
    var none: Path := [];
    assert none + [pair.0[0]] == [pair.0[0]] && none < pair.0;
    LeavesInExact(tokens.entries, none, pair.0, pair.1);
  }

  lemma ThemedIsListed(tokens: Node, theme: string, pair: (Path, Token))
    requires DistinctKeys(tokens) && theme in THEMES && pair in ThemedLeaves(tokens, theme)
    ensures Child(tokens.entries, theme).Some? && Holds(Walk(Child(tokens.entries, theme).value, pair.0), pair.1)
    ensures ([theme] + pair.0, pair.1) in Listed(tokens)
  {
    var top := Child(tokens.entries, theme).value;
    ChildrenAreDistinct(tokens.entries, theme);
    LeavesExact(top, [], pair.0, pair.1);
    assert pair.0[0..] == pair.0;
    ReachedUnderATheme(top, theme, [], pair.0);
    var full, none: Path := [theme] + pair.0, [];
    assert full[1..] == pair.0;
    assert none + [full[0]] == [theme] == [theme] + none && none < full;
    LeavesInExact(tokens.entries, none, full, pair.1);
  }

  lemma PlainIsAccepted(tokens: Node, pair: (Path, Token))
    requires DistinctKeys(tokens) && Validated(tokens) && pair in PlainLeaves(tokens, PLAIN)
    ensures IsPlain(pair.0) && Holds(Walk(tokens, pair.0), pair.1) && AcceptedIn(tokens, pair.0, pair.1, DARK)
  {
    PlainIsListed(tokens, PLAIN, pair);
    PlainIsNotThemed(pair.0);
    assert LeafAccepted(tokens, pair.0, pair.1);
  }

  lemma ThemedIsAccepted(tokens: Node, theme: string, pair: (Path, Token))
    requires DistinctKeys(tokens) && Validated(tokens) && ThemesHoldThemed(tokens)
    requires theme in THEMES && pair in ThemedLeaves(tokens, theme)
    ensures IsThemed(pair.0) && Holds(NodeAt(tokens, pair.0, theme), pair.1)
    ensures AcceptedIn(tokens, pair.0, pair.1, theme)
  {
    ThemedIsListed(tokens, theme, pair);
    assert LeafAccepted(tokens, [theme] + pair.0, pair.1);
  }

  /** Every emitted leaf is what `node_at` finds at its path, and `validate` has accepted it for the
      theme it is compiled in. */
  lemma EmittedIsAccepted(tokens: Node, theme: string, pair: (Path, Token))
    requires DistinctKeys(tokens) && Validated(tokens) && ThemesHoldThemed(tokens)
    requires theme in THEMES && pair in EmittedLeaves(tokens, theme)
    ensures IsPlain(pair.0) || IsThemed(pair.0)
    ensures IsPlain(pair.0) <==> pair in PlainLeaves(tokens, PLAIN)
    ensures Holds(NodeAt(tokens, pair.0, theme), pair.1)
    ensures Holds(NodeAt(tokens, pair.0, CompiledIn(pair.0, theme)), pair.1)
    ensures AcceptedIn(tokens, pair.0, pair.1, CompiledIn(pair.0, theme))
  {
    if pair in PlainLeaves(tokens, PLAIN) {
      PlainIsAccepted(tokens, pair);
    } else {
      ThemedIsAccepted(tokens, theme, pair);
    }
    PlainIsNotThemed(pair.0);
  }

  // ------------------------------------------------------------------------------------------
  // What each element declares
  // ------------------------------------------------------------------------------------------

  lemma {:induction false} LastOfBoth(a: seq<Declaration>, b: seq<Declaration>, name: string)
    ensures LastOf(a + b, name) == if LastOf(b, name).Some? then LastOf(b, name) else LastOf(a, name)
    decreases |b|
  {
    if b == [] {
      assert a + b == a;
    } else {
      assert (a + b)[..|a + b| - 1] == a + b[..|b| - 1];
      LastOfBoth(a, b[..|b| - 1], name);
    }
  }

  /** When one leaf alone bears a name, the last declaration of the name is that leaf's. */
  lemma {:induction false} LastDeclared(tokens: Node, theme: string, pairs: seq<(Path, Token)>, pair: (Path, Token))
    requires Declared(tokens, theme, pairs).Ok? && pair in pairs
    requires forall other :: other in pairs && CssName(other.0) == CssName(pair.0) ==> other == pair
    ensures CssValueOf(tokens, pair.1, theme).Ok?
    ensures LastOf(Declared(tokens, theme, pairs).value, CssName(pair.0))
         == Some(CssValueOf(tokens, pair.1, theme).value)
    decreases |pairs|
  {
    var before, last := pairs[..|pairs| - 1], pairs[|pairs| - 1];
    assert pairs == before + [last];
    DeclaredStep(tokens, theme, before, last);
    var made := Declared(tokens, theme, pairs).value;
    assert made[..|made| - 1] == Declared(tokens, theme, before).value;
    if CssName(last.0) != CssName(pair.0) {
      assert pair in before;
      LastDeclared(tokens, theme, before, pair);
    }
  }

  lemma {:induction false} NotDeclared(tokens: Node, theme: string, pairs: seq<(Path, Token)>, name: string)
    requires Declared(tokens, theme, pairs).Ok?
    requires forall other :: other in pairs ==> CssName(other.0) != name
    ensures LastOf(Declared(tokens, theme, pairs).value, name).None?
    decreases |pairs|
  {
    if pairs != [] {
      var before, last := pairs[..|pairs| - 1], pairs[|pairs| - 1];
      assert pairs == before + [last];
      DeclaredStep(tokens, theme, before, last);
      var made := Declared(tokens, theme, pairs).value;
      assert made[..|made| - 1] == Declared(tokens, theme, before).value;
      NotDeclared(tokens, theme, before, name);
    }
  }

  /** `color-scheme` is nobody's custom property: it hides nothing and adds nothing. */
  lemma ThemedLast(tokens: Node, theme: string, path: Path)
    requires Themed(tokens, theme).Ok?
    ensures Declared(tokens, theme, ThemedLeaves(tokens, theme)).Ok?
    ensures LastOf(Themed(tokens, theme).value, CssName(path))
         == LastOf(Declared(tokens, theme, ThemedLeaves(tokens, theme)).value, CssName(path))
  {
    var scheme := [Declaration("color-scheme", Literal(theme))];
    LastOfBoth(scheme, Declared(tokens, theme, ThemedLeaves(tokens, theme)).value, CssName(path));
    assert CssName(path)[0] == '-' && "color-scheme"[0] == 'c';
    assert LastOf(scheme[..0], CssName(path)).None?;
  }

  lemma AppliedOfThree(a: Rule, b: Rule, c: Rule, isRoot: bool, attribute: Option<string>)
    ensures Applied([a, b, c], isRoot, attribute)
         == (if Matches(a.selector, isRoot, attribute) then a.declarations else [])
          + (if Matches(b.selector, isRoot, attribute) then b.declarations else [])
          + (if Matches(c.selector, isRoot, attribute) then c.declarations else [])
  {
    assert [a, b, c][1..] == [b, c] && [b, c][1..] == [c] && [c][1..] == [];
    assert Applied([c], isRoot, attribute)
        == if Matches(c.selector, isRoot, attribute) then c.declarations else [];
    assert Applied([b, c], isRoot, attribute)
        == (if Matches(b.selector, isRoot, attribute) then b.declarations else []) + Applied([c], isRoot, attribute);
  }

  /** The three rules, as the elements of a document see them. */
  lemma AppliedIs(tokens: Node, sheet: seq<Rule>, isRoot: bool, attribute: Option<string>)
    requires Sheet(tokens) == Ok(sheet)
    ensures Declared(tokens, DARK, PlainLeaves(tokens, PLAIN)).Ok?
    ensures Themed(tokens, DARK).Ok? && Themed(tokens, LIGHT).Ok?
    ensures Applied(sheet, isRoot, attribute)
         == (if isRoot then Declared(tokens, DARK, PlainLeaves(tokens, PLAIN)).value else [])
          + (if isRoot || attribute == Some(DARK) then Themed(tokens, DARK).value else [])
          + (if attribute == Some(LIGHT) then Themed(tokens, LIGHT).value else [])
  {
    AppliedOfThree(sheet[0], sheet[1], sheet[2], isRoot, attribute);
  }

  /** Among the leaves emitted in any theme, those that share a name share the path. */
  lemma SamePath(tokens: Node, s: string, t: string, pair: (Path, Token), other: (Path, Token))
    requires NamesTellPathsApart(tokens)
    requires s in THEMES && t in THEMES
    requires pair in EmittedLeaves(tokens, s) && other in EmittedLeaves(tokens, t)
    requires CssName(pair.0) == CssName(other.0)
    ensures pair.0 == other.0
  {
    assert Emitted(tokens, s, pair.0) && Emitted(tokens, t, other.0);
  }

  lemma SoleBearer(tokens: Node, theme: string, pair: (Path, Token), other: (Path, Token))
    requires DistinctKeys(tokens) && Validated(tokens) && ThemesHoldThemed(tokens) && NamesTellPathsApart(tokens)
    requires theme in THEMES
    requires pair in EmittedLeaves(tokens, theme) && other in EmittedLeaves(tokens, theme)
    requires CssName(pair.0) == CssName(other.0)
    ensures pair == other
  {
    SamePath(tokens, theme, theme, pair, other);
    EmittedIsAccepted(tokens, theme, pair);
    EmittedIsAccepted(tokens, theme, other);
  }

  /** The last word of a theme's rule on the name of one of its own leaves. */
  lemma ThemeDeclares(tokens: Node, theme: string, pair: (Path, Token))
    requires DistinctKeys(tokens) && Validated(tokens) && ThemesHoldThemed(tokens) && NamesTellPathsApart(tokens)
    requires Themed(tokens, theme).Ok? && theme in THEMES && pair in ThemedLeaves(tokens, theme)
    ensures CssValueOf(tokens, pair.1, theme).Ok?
    ensures LastOf(Themed(tokens, theme).value, CssName(pair.0)) == Some(CssValueOf(tokens, pair.1, theme).value)
  {
    ThemedLast(tokens, theme, pair.0);
    forall other | other in ThemedLeaves(tokens, theme) && CssName(other.0) == CssName(pair.0)
      ensures other == pair
    {
      SoleBearer(tokens, theme, pair, other);
    }
    LastDeclared(tokens, theme, ThemedLeaves(tokens, theme), pair);
  }

  /** A theme's rule says nothing of a plain leaf. */
  lemma ThemeIsSilent(tokens: Node, theme: string, pair: (Path, Token))
    requires DistinctKeys(tokens) && Validated(tokens) && ThemesHoldThemed(tokens) && NamesTellPathsApart(tokens)
    requires Themed(tokens, theme).Ok? && theme in THEMES && pair in PlainLeaves(tokens, PLAIN)
    ensures LastOf(Themed(tokens, theme).value, CssName(pair.0)).None?
  {
    ThemedLast(tokens, theme, pair.0);
    PlainIsNotThemed(pair.0);
    forall other | other in ThemedLeaves(tokens, theme)
      ensures CssName(other.0) != CssName(pair.0)
    {
      if CssName(other.0) == CssName(pair.0) {
        SoleBearer(tokens, theme, pair, other);
        EmittedIsAccepted(tokens, theme, pair);
      }
    }
    NotDeclared(tokens, theme, ThemedLeaves(tokens, theme), CssName(pair.0));
  }

  /** The rule of the plain groups has the last word on the name of a plain leaf. */
  lemma PlainDeclares(tokens: Node, pair: (Path, Token))
    requires DistinctKeys(tokens) && Validated(tokens) && ThemesHoldThemed(tokens) && NamesTellPathsApart(tokens)
    requires Declared(tokens, DARK, PlainLeaves(tokens, PLAIN)).Ok? && pair in PlainLeaves(tokens, PLAIN)
    ensures CssValueOf(tokens, pair.1, DARK).Ok?
    ensures LastOf(Declared(tokens, DARK, PlainLeaves(tokens, PLAIN)).value, CssName(pair.0))
         == Some(CssValueOf(tokens, pair.1, DARK).value)
  {
    forall other | other in PlainLeaves(tokens, PLAIN) && CssName(other.0) == CssName(pair.0)
      ensures other == pair
    {
      SoleBearer(tokens, DARK, pair, other);
    }
    LastDeclared(tokens, DARK, PlainLeaves(tokens, PLAIN), pair);
  }

  /** The root declares every leaf emitted in its theme, with the value compiled for it. */
  lemma RootDeclares(tokens: Node, sheet: seq<Rule>, attribute: Option<string>, pair: (Path, Token))
    requires DistinctKeys(tokens) && Validated(tokens) && ThemesHoldThemed(tokens) && NamesTellPathsApart(tokens)
    requires Sheet(tokens) == Ok(sheet)
    requires pair in EmittedLeaves(tokens, ThemeOf([attribute]))
    ensures CssValueOf(tokens, pair.1, CompiledIn(pair.0, ThemeOf([attribute]))).Ok?
    ensures LastOf(Applied(sheet, true, attribute), CssName(pair.0))
         == Some(CssValueOf(tokens, pair.1, CompiledIn(pair.0, ThemeOf([attribute]))).value)
  {
    var theme := ThemeOf([attribute]);
    AppliedIs(tokens, sheet, true, attribute);
    EmittedIsAccepted(tokens, theme, pair);
    PlainIsNotThemed(pair.0);
    var plain := Declared(tokens, DARK, PlainLeaves(tokens, PLAIN)).value;
    var dark := Themed(tokens, DARK).value;
    var light := if attribute == Some(LIGHT) then Themed(tokens, LIGHT).value else [];
    LastOfBoth(plain + dark, light, CssName(pair.0));
    LastOfBoth(plain, dark, CssName(pair.0));
    if pair in PlainLeaves(tokens, PLAIN) {
      ThemeIsSilent(tokens, DARK, pair);
      ThemeIsSilent(tokens, LIGHT, pair);
      PlainDeclares(tokens, pair);
    } else {
      ThemeDeclares(tokens, theme, pair);
    }
  }

  /** Below the root, an element that names a theme declares the leaves of that theme, and no
      element declares a plain leaf. */
  lemma BelowDeclares(tokens: Node, sheet: seq<Rule>, theme: string, pair: (Path, Token))
    requires DistinctKeys(tokens) && Validated(tokens) && ThemesHoldThemed(tokens) && NamesTellPathsApart(tokens)
    requires Sheet(tokens) == Ok(sheet)
    requires theme in THEMES && pair in ThemedLeaves(tokens, theme)
    ensures CssValueOf(tokens, pair.1, theme).Ok?
    ensures LastOf(Applied(sheet, false, Some(theme)), CssName(pair.0)) == Some(CssValueOf(tokens, pair.1, theme).value)
  {
    AppliedIs(tokens, sheet, false, Some(theme));
    ThemeDeclares(tokens, theme, pair);
    assert Applied(sheet, false, Some(theme)) == Themed(tokens, theme).value;
  }

  lemma BelowIsSilent(tokens: Node, sheet: seq<Rule>, attribute: Option<string>, pair: (Path, Token))
    requires DistinctKeys(tokens) && Validated(tokens) && ThemesHoldThemed(tokens) && NamesTellPathsApart(tokens)
    requires Sheet(tokens) == Ok(sheet)
    requires pair in PlainLeaves(tokens, PLAIN)
    ensures LastOf(Applied(sheet, false, attribute), CssName(pair.0)).None?
  {
    BelowIs(tokens, sheet, attribute);
    if attribute == Some(DARK) {
      ThemeIsSilent(tokens, DARK, pair);
    } else if attribute == Some(LIGHT) {
      ThemeIsSilent(tokens, LIGHT, pair);
    }
  }

  /** What applies below the root: the rule of the theme an element names, and nothing otherwise. */
  lemma BelowIs(tokens: Node, sheet: seq<Rule>, attribute: Option<string>)
    requires Sheet(tokens) == Ok(sheet)
    ensures Themed(tokens, DARK).Ok? && Themed(tokens, LIGHT).Ok?
    ensures attribute == Some(DARK) ==> Applied(sheet, false, attribute) == Themed(tokens, DARK).value
    ensures attribute == Some(LIGHT) ==> Applied(sheet, false, attribute) == Themed(tokens, LIGHT).value
    ensures attribute != Some(DARK) && attribute != Some(LIGHT) ==> Applied(sheet, false, attribute) == []
  {
    AppliedIs(tokens, sheet, false, attribute);
  }

  lemma SchemeIsNobodysName(tokens: Node, theme: string, pairs: seq<(Path, Token)>)
    requires Declared(tokens, theme, pairs).Ok?
    ensures LastOf(Declared(tokens, theme, pairs).value, "color-scheme").None?
  {
    assert forall path :: CssName(path)[0] == '-';
    NotDeclared(tokens, theme, pairs, "color-scheme");
  }

  lemma SchemeOfATheme(tokens: Node, theme: string)
    requires Themed(tokens, theme).Ok?
    ensures LastOf(Themed(tokens, theme).value, "color-scheme") == Some(Literal(theme))
  {
    var scheme := [Declaration("color-scheme", Literal(theme))];
    SchemeIsNobodysName(tokens, theme, ThemedLeaves(tokens, theme));
    LastOfBoth(scheme, Declared(tokens, theme, ThemedLeaves(tokens, theme)).value, "color-scheme");
  }

  lemma SchemeAtTheRoot(tokens: Node, sheet: seq<Rule>, attribute: Option<string>)
    requires Sheet(tokens) == Ok(sheet)
    ensures LastOf(Applied(sheet, true, attribute), "color-scheme") == Some(Literal(ThemeOf([attribute])))
  {
    AppliedIs(tokens, sheet, true, attribute);
    SchemeOfATheme(tokens, DARK);
    SchemeOfATheme(tokens, LIGHT);
    var plain, dark := Declared(tokens, DARK, PlainLeaves(tokens, PLAIN)).value, Themed(tokens, DARK).value;
    var light := if attribute == Some(LIGHT) then Themed(tokens, LIGHT).value else [];
    LastOfBoth(plain + dark, light, "color-scheme");
    LastOfBoth(plain, dark, "color-scheme");
  }

  lemma SchemeBelow(tokens: Node, sheet: seq<Rule>, attribute: Option<string>)
    requires Sheet(tokens) == Ok(sheet)
    ensures LastOf(Applied(sheet, false, attribute), "color-scheme")
         == if attribute.Some? && attribute.value in THEMES then Some(Literal(attribute.value)) else None
  {
    BelowIs(tokens, sheet, attribute);
    SchemeOfATheme(tokens, DARK);
    SchemeOfATheme(tokens, LIGHT);
  }

  /** On every element of every document the color scheme is the theme the element is in. */
  lemma {:induction false} TheSchemeIsTheTheme(tokens: Node, sheet: seq<Rule>, chain: Chain)
    requires Sheet(tokens) == Ok(sheet) && chain != []
    ensures ValueAt(sheet, chain, "color-scheme", {}) == Some(ThemeOf(chain))
    decreases |chain|
  {
    var attribute := chain[|chain| - 1];
    if |chain| == 1 {
      assert chain == [attribute];
      SchemeAtTheRoot(tokens, sheet, attribute);
    } else {
      SchemeBelow(tokens, sheet, attribute);
      TheSchemeIsTheTheme(tokens, sheet, chain[..|chain| - 1]);
    }
  }

  // ------------------------------------------------------------------------------------------
  // Trails and the values they compute to
  // ------------------------------------------------------------------------------------------

  /** An element in the default theme, in a document whose root is in it too. */
  predicate InOneTheme(chain: Chain) {
    ThemeOf(chain[..if chain == [] then 0 else 1]) == DARK && ThemeOf(chain) == DARK
  }

  /** The properties of emitted paths of a trail that are not under way yet. */
  ghost predicate Fresh(tokens: Node, theme: string, trail: seq<Path>, seen: set<string>) {
    forall p :: p in trail && Emitted(tokens, theme, p) ==> CssName(p) !in seen
  }

  /** What is claimed of one property on one element. */
  ghost predicate Computes(tokens: Node, sheet: seq<Rule>, chain: Chain, path: Path, trail: seq<Path>,
                           seen: set<string>)
    requires IsTrail(tokens, ThemeOf(chain), Alias(path), trail)
  {
    ValueAt(sheet, chain, CssName(path), seen) == Some(SaidOn(tokens, ThemeOf(chain), Alias(path), trail))
  }

  /** The chase of a trail that reaches a literal finds it. */
  lemma ChaseOfTrail(tokens: Node, theme: string, value: Value, trail: seq<Path>)
    requires IsLiteralTrail(tokens, theme, value, trail)
    ensures Chase(tokens, value, theme, [], 1.0)
         == Found(End(tokens, theme, value, trail), TrailAlpha(tokens, theme, value, trail))
  {
    ChaseSucceedsExactly(tokens, value, theme, End(tokens, theme, value, trail),
                         TrailAlpha(tokens, theme, value, trail));
  }

  lemma {:induction false} UntintedIsOpaque(tokens: Node, theme: string, value: Value, trail: seq<Path>)
    requires IsTrail(tokens, theme, value, trail) && !Tinted(tokens, theme, value, trail)
    ensures TrailAlpha(tokens, theme, value, trail) == 1.0
    decreases |trail|
  {
    if trail != [] {
      UntintedIsOpaque(tokens, theme, Leaf(tokens, trail[0], theme).value, trail[1..]);
    }
  }

  lemma PlainNodeHasNoTheme(tokens: Node, s: string, t: string, path: Path)
    requires IsPlain(path)
    ensures NodeAt(tokens, path, s) == NodeAt(tokens, path, t)
  {
    PlainIsNotThemed(path);
  }

  lemma PlainAliasesPlain(tokens: Node, path: Path)
    requires PlainIsClosed(tokens) && IsPlain(path)
    requires LeafAt(tokens, path, DARK) && Leaf(tokens, path, DARK).value.Alias?
    ensures IsPlain(Leaf(tokens, path, DARK).value.path)
  {
  }

  /** When the plain groups are closed, a trail that starts among them is the same in every theme. */
  lemma {:induction false} PlainTrailHasNoTheme(tokens: Node, s: string, t: string, value: Value, trail: seq<Path>)
    requires PlainIsClosed(tokens)
    requires IsTrail(tokens, s, value, trail)
    requires value.Alias? ==> IsPlain(value.path)
    ensures IsTrail(tokens, t, value, trail)
    ensures End(tokens, t, value, trail) == End(tokens, s, value, trail)
    ensures Tinted(tokens, t, value, trail) == Tinted(tokens, s, value, trail)
    ensures FirstAlpha(tokens, t, value, trail) == FirstAlpha(tokens, s, value, trail)
    ensures Alphas(tokens, t, value, trail) == Alphas(tokens, s, value, trail)
    decreases |trail|
  {
    if trail != [] {
      PlainNodeHasNoTheme(tokens, s, t, trail[0]);
      PlainNodeHasNoTheme(tokens, s, DARK, trail[0]);
      var next := Leaf(tokens, trail[0], s).value;
      if next.Alias? {
        PlainAliasesPlain(tokens, trail[0]);
      }
      PlainTrailHasNoTheme(tokens, s, t, next, trail[1..]);
    }
  }

  /** The literal trail of a path whose value is compiled in the theme it is read in. */
  lemma TailAsCompiled(tokens: Node, theme: string, path: Path, trail: seq<Path>)
    requires CompiledIn(path, theme) == theme
    requires IsLiteralTrail(tokens, theme, Alias(path), trail)
    ensures trail != [] && trail[0] == path && LeafAt(tokens, path, theme)
    ensures Chase(tokens, Leaf(tokens, path, theme).value, CompiledIn(path, theme), [], 1.0)
         == Found(End(tokens, theme, Alias(path), trail),
                  TrailAlpha(tokens, theme, Leaf(tokens, path, theme).value, trail[1..]))
  {
    AlphaByTheFirst(tokens, theme, path, trail);
    EndByTheFirst(tokens, theme, path, trail);
    ChaseOfTrail(tokens, theme, Leaf(tokens, path, theme).value, trail[1..]);
  }

  lemma EndByTheFirst(tokens: Node, theme: string, path: Path, trail: seq<Path>)
    requires IsTrail(tokens, theme, Alias(path), trail) && trail != []
    ensures trail[0] == path && LeafAt(tokens, path, theme)
    ensures IsTrail(tokens, theme, Leaf(tokens, path, theme).value, trail[1..])
    ensures End(tokens, theme, Alias(path), trail) == End(tokens, theme, Leaf(tokens, path, theme).value, trail[1..])
  {
  }

  lemma AlphaByTheFirst(tokens: Node, theme: string, path: Path, trail: seq<Path>)
    requires IsLiteralTrail(tokens, theme, Alias(path), trail)
    ensures trail != [] && trail[0] == path && LeafAt(tokens, path, theme)
    ensures var leaf := Leaf(tokens, path, theme);
            && IsLiteralTrail(tokens, theme, leaf.value, trail[1..])
            && TrailAlpha(tokens, theme, Alias(path), trail)
               == AlphaOf(leaf) * TrailAlpha(tokens, theme, leaf.value, trail[1..])
  {
  }

  /** A dotted name is of one path, when no key holds a dot. */
  lemma {:induction false} DottedTellsPathsApart(a: Path, b: Path)
    requires IsDotless(a) && IsDotless(b) && Dotted(a) == Dotted(b)
    ensures a == b
    decreases |a|
  {
    HeadIsDotted(a);
    HeadIsDotted(b);
    if |a| > 1 && |b| > 1 {
      FirstDot(a, b);
      assert Dotted(a)[|a[0]| + 1..] == Dotted(a[1..]) && Dotted(b)[|b[0]| + 1..] == Dotted(b[1..]);
      DottedTellsPathsApart(a[1..], b[1..]);
      assert a == [a[0]] + a[1..] && b == [b[0]] + b[1..];
    } else if |a| > 1 {
      assert false;
    } else if |b| > 1 {
      assert false;
    }
  }

  lemma HeadIsDotted(path: Path)
    requires IsDotless(path)
    ensures |Dotted(path)| >= |path[0]| && Dotted(path)[..|path[0]|] == path[0]
    ensures if |path| == 1 then Dotted(path) == path[0]
            else |Dotted(path)| > |path[0]| && Dotted(path)[|path[0]|] == '.'
    ensures forall i :: 0 <= i < |path[0]| ==> Dotted(path)[i] != '.'
  {
    assert path[0] in path;
    forall i | 0 <= i < |path[0]|
      ensures Dotted(path)[i] != '.'
    {
      assert Dotted(path)[i] == path[0][i];
    }
  }

  lemma FirstDot(a: Path, b: Path)
    requires IsDotless(a) && IsDotless(b) && |a| > 1 && |b| > 1 && Dotted(a) == Dotted(b)
    ensures a[0] == b[0]
  {
    HeadIsDotted(a);
    HeadIsDotted(b);
    assert |a[0]| == |b[0]|;
  }

  /** The leaves of one theme are at the same paths as those of the other. */
  lemma KeyIsInTheOther(tokens: Node, pair: (Path, Token)) returns (other: (Path, Token))
    requires SameKeys(tokens) && KeysHoldNoDot(tokens) && pair in ThemedLeaves(tokens, DARK)
    ensures other in ThemedLeaves(tokens, LIGHT) && other.0 == pair.0
  {
    var dark, light := ThemedLeaves(tokens, DARK), ThemedLeaves(tokens, LIGHT);
    var i :| 0 <= i < |dark| && dark[i] == pair;
    DottedKeysAre(dark, Dotted(pair.0));
    DottedKeysAre(light, Dotted(pair.0));
    var j :| 0 <= j < |light| && Dotted(light[j].0) == Dotted(pair.0);
    other := light[j];
    assert DARK in THEMES && LIGHT in THEMES;
    DottedTellsPathsApart(other.0, pair.0);
  }

  /** Where the `var()` of an emitted path points, in the theme of an element. */
  lemma TargetIsEmitted(tokens: Node, theme: string, pair: (Path, Token))
    requires SameKeys(tokens) && KeysHoldNoDot(tokens) && VarsAreDeclared(tokens)
    requires theme in THEMES && pair in EmittedLeaves(tokens, theme) && pair.1.alpha.None? && pair.1.value.Alias?
    ensures Emitted(tokens, theme, pair.1.value.path)
  {
    var target := pair.1.value.path;
    assert Emitted(tokens, CompiledIn(pair.0, theme), target);
    if CompiledIn(pair.0, theme) != theme {
      var found :| found in EmittedLeaves(tokens, DARK) && found.0 == target;
      if found in ThemedLeaves(tokens, DARK) {
        var other := KeyIsInTheOther(tokens, found);
        assert other in EmittedLeaves(tokens, theme);
      } else {
        assert found in EmittedLeaves(tokens, theme);
      }
    }
  }

  /** The name of the path under way is not the name of any other emitted path of its trail. */
  lemma NamesStayFresh(tokens: Node, theme: string, path: Path, trail: seq<Path>, seen: set<string>)
    requires NamesTellPathsApart(tokens) && theme in THEMES
    requires IsLiteralTrail(tokens, theme, Alias(path), trail) && Emitted(tokens, theme, path)
    requires Fresh(tokens, theme, trail, seen)
    ensures trail != [] && trail[0] == path && CssName(path) !in seen
    ensures Fresh(tokens, theme, trail[1..], seen + {CssName(path)})
  {
    assert trail[0] in trail;
    forall p | p in trail[1..] && Emitted(tokens, theme, p)
      ensures CssName(p) !in seen + {CssName(path)}
    {
      var k :| 1 <= k < |trail| && trail[k] == p;
      LiteralTrailNeverRepeats(tokens, theme, Alias(path), trail, 0, k);
    }
  }

  /** A trail read one leaf at a time: what its first leaf adds to what the rest of it says. */
  lemma SaidByTheFirst(tokens: Node, theme: string, path: Path, trail: seq<Path>)
    requires IsLiteralTrail(tokens, theme, Alias(path), trail)
    ensures trail != [] && trail[0] == path && LeafAt(tokens, path, theme)
    ensures var leaf := Leaf(tokens, path, theme);
            && IsLiteralTrail(tokens, theme, leaf.value, trail[1..])
            && End(tokens, theme, Alias(path), trail) == End(tokens, theme, leaf.value, trail[1..])
            && TrailAlpha(tokens, theme, Alias(path), trail)
               == AlphaOf(leaf) * TrailAlpha(tokens, theme, leaf.value, trail[1..])
            && (leaf.alpha.None? ==>
                  SaidOn(tokens, theme, Alias(path), trail) == SaidOn(tokens, theme, leaf.value, trail[1..]))
            && (leaf.alpha.Some? ==>
                  SaidOn(tokens, theme, Alias(path), trail)
                  == WithAlpha(Shown(End(tokens, theme, leaf.value, trail[1..])),
                               TrailAlpha(tokens, theme, Alias(path), trail)))
  {
  }

  lemma TimesOne(factor: real, rest: real)
    requires rest == 1.0
    ensures factor * rest == factor
  {
  }

  /** A leaf that carries an alpha stands over a trail that carries none. */
  lemma AlphaStandsAlone(tokens: Node, theme: string, path: Path, trail: seq<Path>)
    requires CompiledIn(path, theme) == theme
    requires (IsPlain(path) || IsThemed(path)) && IsLiteralTrail(tokens, theme, Alias(path), trail)
    requires LeafAt(tokens, path, theme) && Leaf(tokens, path, theme).alpha.Some?
    requires AcceptedIn(tokens, path, Leaf(tokens, path, theme), CompiledIn(path, theme))
    ensures TrailAlpha(tokens, theme, Alias(path), trail) == Leaf(tokens, path, theme).alpha.value
    ensures var chased := Chase(tokens, Leaf(tokens, path, theme).value, CompiledIn(path, theme), [], 1.0);
            chased.Found? && chased.literal == End(tokens, theme, Alias(path), trail)
    ensures 0.0 <= TrailAlpha(tokens, theme, Alias(path), trail) <= 1.0
  {
    TailAsCompiled(tokens, theme, path, trail);
    AlphaByTheFirst(tokens, theme, path, trail);
    var leaf := Leaf(tokens, path, theme);
    assert leaf.kind.value == "color";
    TimesOne(AlphaOf(leaf), TrailAlpha(tokens, theme, leaf.value, trail[1..]));
  }

  lemma SaidTinted(tokens: Node, theme: string, path: Path, trail: seq<Path>, literal: Value, alpha: real)
    requires IsLiteralTrail(tokens, theme, Alias(path), trail) && trail != [] && Leaf(tokens, path, theme).alpha.Some?
    requires literal == End(tokens, theme, Alias(path), trail) && alpha == TrailAlpha(tokens, theme, Alias(path), trail)
    ensures SaidOn(tokens, theme, Alias(path), trail) == WithAlpha(Shown(literal), alpha)
  {
  }

  lemma CssTinted(tokens: Node, leaf: Token, theme: string, literal: Value)
    requires leaf.alpha.Some?
    requires Chase(tokens, leaf.value, theme, [], 1.0).Found?
    requires Chase(tokens, leaf.value, theme, [], 1.0).literal == literal
    ensures CssValueOf(tokens, leaf, theme) == Ok(Literal(WithAlpha(Shown(literal), leaf.alpha.value)))
  {
  }

  lemma CompiledTinted(tokens: Node, theme: string, path: Path, trail: seq<Path>)
    requires CompiledIn(path, theme) == theme
    requires (IsPlain(path) || IsThemed(path)) && IsLiteralTrail(tokens, theme, Alias(path), trail)
    requires LeafAt(tokens, path, theme) && Leaf(tokens, path, theme).alpha.Some?
    requires AcceptedIn(tokens, path, Leaf(tokens, path, theme), CompiledIn(path, theme))
    ensures CssValueOf(tokens, Leaf(tokens, path, theme), CompiledIn(path, theme))
         == Ok(Literal(SaidOn(tokens, theme, Alias(path), trail)))
    ensures 0.0 <= TrailAlpha(tokens, theme, Alias(path), trail) <= 1.0
  {
    AlphaStandsAlone(tokens, theme, path, trail);
    var literal := End(tokens, theme, Alias(path), trail);
    var leaf := Leaf(tokens, path, theme);
    SaidTinted(tokens, theme, path, trail, literal, leaf.alpha.value);
    CssTinted(tokens, leaf, CompiledIn(path, theme), literal);
  }

  lemma CompiledLiteral(tokens: Node, theme: string, path: Path, trail: seq<Path>)
    requires IsLiteralTrail(tokens, theme, Alias(path), trail)
    requires LeafAt(tokens, path, theme)
    requires Leaf(tokens, path, theme).alpha.None? && !Leaf(tokens, path, theme).value.Alias?
    ensures SaidOn(tokens, theme, Alias(path), trail) == Shown(Leaf(tokens, path, theme).value)
    ensures TrailAlpha(tokens, theme, Alias(path), trail) == 1.0
  {
    AlphaByTheFirst(tokens, theme, path, trail);
    var value := Leaf(tokens, path, theme).value;
    assert trail[1..] == [];
    assert !Tinted(tokens, theme, value, trail[1..]);
    assert !Tinted(tokens, theme, Alias(path), trail);
    EndByTheFirst(tokens, theme, path, trail);
    assert End(tokens, theme, value, trail[1..]) == value;
    UntintedIsOpaque(tokens, theme, Alias(path), trail);
  }

  /** What one leaf compiles to, against what its trail says. */
  lemma CompiledAsSaid(tokens: Node, theme: string, pair: (Path, Token), trail: seq<Path>)
    requires DistinctKeys(tokens) && Validated(tokens) && ThemesHoldThemed(tokens)
    requires theme in THEMES && CompiledIn(pair.0, theme) == theme
    requires pair in EmittedLeaves(tokens, theme) && IsLiteralTrail(tokens, theme, Alias(pair.0), trail)
    requires CssValueOf(tokens, pair.1, CompiledIn(pair.0, theme)).Ok?
    ensures trail != [] && trail[0] == pair.0 && IsLiteralTrail(tokens, theme, pair.1.value, trail[1..])
    ensures var said := SaidOn(tokens, theme, Alias(pair.0), trail);
            if pair.1.alpha.None? && pair.1.value.Alias? then
              && CssValueOf(tokens, pair.1, CompiledIn(pair.0, theme)) == Ok(Var(CssName(pair.1.value.path)))
              && said == SaidOn(tokens, theme, pair.1.value, trail[1..])
              && TrailAlpha(tokens, theme, Alias(pair.0), trail) == TrailAlpha(tokens, theme, pair.1.value, trail[1..])
            else
              && CssValueOf(tokens, pair.1, CompiledIn(pair.0, theme)) == Ok(Literal(said))
              && 0.0 <= TrailAlpha(tokens, theme, Alias(pair.0), trail) <= 1.0
  {
    EmittedIsAccepted(tokens, theme, pair);
    SaidAsCompiled(tokens, theme, pair, trail);
  }

  lemma SaidAsCompiled(tokens: Node, theme: string, pair: (Path, Token), trail: seq<Path>)
    requires CompiledIn(pair.0, theme) == theme
    requires (IsPlain(pair.0) || IsThemed(pair.0)) && IsLiteralTrail(tokens, theme, Alias(pair.0), trail)
    requires LeafAt(tokens, pair.0, theme) && Leaf(tokens, pair.0, theme) == pair.1
    requires AcceptedIn(tokens, pair.0, pair.1, CompiledIn(pair.0, theme))
    requires CssValueOf(tokens, pair.1, CompiledIn(pair.0, theme)).Ok?
    ensures trail != [] && trail[0] == pair.0 && IsLiteralTrail(tokens, theme, pair.1.value, trail[1..])
    ensures var said := SaidOn(tokens, theme, Alias(pair.0), trail);
            if pair.1.alpha.None? && pair.1.value.Alias? then
              && CssValueOf(tokens, pair.1, CompiledIn(pair.0, theme)) == Ok(Var(CssName(pair.1.value.path)))
              && said == SaidOn(tokens, theme, pair.1.value, trail[1..])
              && TrailAlpha(tokens, theme, Alias(pair.0), trail) == TrailAlpha(tokens, theme, pair.1.value, trail[1..])
            else
              && CssValueOf(tokens, pair.1, CompiledIn(pair.0, theme)) == Ok(Literal(said))
              && 0.0 <= TrailAlpha(tokens, theme, Alias(pair.0), trail) <= 1.0
  {
    if pair.1.alpha.Some? {
      CompiledTinted(tokens, theme, pair.0, trail);
    } else if !pair.1.value.Alias? {
      CompiledLiteral(tokens, theme, pair.0, trail);
    } else {
      SaidByTheFirst(tokens, theme, pair.0, trail);
      TimesOne(TrailAlpha(tokens, theme, pair.1.value, trail[1..]), 1.0);
    }
  }

  /** What one leaf compiles to, against what its trail says, in the theme it is compiled in or in
      both when the source says one thing of it. */
  lemma CompiledEverywhere(tokens: Node, theme: string, pair: (Path, Token), trail: seq<Path>)
    requires DistinctKeys(tokens) && Validated(tokens) && ThemesHoldThemed(tokens)
    requires theme in THEMES && (CompiledIn(pair.0, theme) == theme || SaysTheSame(tokens, pair.0))
    requires pair in EmittedLeaves(tokens, theme) && IsLiteralTrail(tokens, theme, Alias(pair.0), trail)
    requires CssValueOf(tokens, pair.1, CompiledIn(pair.0, theme)).Ok?
    ensures trail != [] && trail[0] == pair.0 && IsLiteralTrail(tokens, theme, pair.1.value, trail[1..])
    ensures CompilesTo(tokens, theme, pair, trail)
  {
    if CompiledIn(pair.0, theme) == theme {
      CompiledAsSaid(tokens, theme, pair, trail);
    } else {
      EmittedIsAccepted(tokens, theme, pair);
      CompiledInTheOther(tokens, pair, trail);
    }
  }

  ghost predicate CompilesTo(tokens: Node, theme: string, pair: (Path, Token), trail: seq<Path>)
    requires IsTrail(tokens, theme, Alias(pair.0), trail)
    requires trail != [] && IsTrail(tokens, theme, pair.1.value, trail[1..])
  {
    var said := SaidOn(tokens, theme, Alias(pair.0), trail);
    if pair.1.alpha.None? && pair.1.value.Alias? then
      && CssValueOf(tokens, pair.1, CompiledIn(pair.0, theme)) == Ok(Var(CssName(pair.1.value.path)))
      && said == SaidOn(tokens, theme, pair.1.value, trail[1..])
    else CssValueOf(tokens, pair.1, CompiledIn(pair.0, theme)) == Ok(Literal(said))
  }

  lemma CompiledInTheOther(tokens: Node, pair: (Path, Token), trail: seq<Path>)
    requires IsPlain(pair.0) && SaysTheSame(tokens, pair.0) && IsLiteralTrail(tokens, LIGHT, Alias(pair.0), trail)
    requires Holds(NodeAt(tokens, pair.0, DARK), pair.1) && AcceptedIn(tokens, pair.0, pair.1, DARK)
    requires CssValueOf(tokens, pair.1, DARK).Ok?
    ensures trail != [] && trail[0] == pair.0 && IsLiteralTrail(tokens, LIGHT, pair.1.value, trail[1..])
    ensures CompilesTo(tokens, LIGHT, pair, trail)
  {
    PlainIsNotThemed(pair.0);
    PlainNodeHasNoTheme(tokens, DARK, LIGHT, pair.0);
    SaidByTheFirst(tokens, LIGHT, pair.0, trail);
    if pair.1.alpha.Some? {
      var dark := TrailOfSaid(tokens, DARK, pair.0);
      CompiledTinted(tokens, DARK, pair.0, dark);
      SaidOfTrail(tokens, DARK, pair.0, dark);
      SaidOfTrail(tokens, LIGHT, pair.0, trail);
    } else if !pair.1.value.Alias? {
      CompiledLiteral(tokens, LIGHT, pair.0, trail);
    }
  }

  /** The computed value on the root. */
  lemma {:induction false} RootValue(tokens: Node, sheet: seq<Rule>, attribute: Option<string>, path: Path,
                                     trail: seq<Path>, seen: set<string>)
    requires Ready(tokens) && Sheet(tokens) == Ok(sheet)
    requires ThemeOf([attribute]) == DARK || PlainSaysTheSame(tokens)
    requires IsLiteralTrail(tokens, ThemeOf([attribute]), Alias(path), trail)
    requires Emitted(tokens, ThemeOf([attribute]), path)
    requires Fresh(tokens, ThemeOf([attribute]), trail, seen)
    ensures Computes(tokens, sheet, [attribute], path, trail, seen)
    decreases |trail|
  {
    var theme := ThemeOf([attribute]);
    var pair :| pair in EmittedLeaves(tokens, theme) && pair.0 == path;
    RootDeclares(tokens, sheet, attribute, pair);
    EmittedIsAccepted(tokens, theme, pair);
    CompiledEverywhere(tokens, theme, pair, trail);
    NamesStayFresh(tokens, theme, path, trail, seen);
    if pair.1.alpha.None? && pair.1.value.Alias? {
      TargetIsEmitted(tokens, theme, pair);
      RootValue(tokens, sheet, attribute, pair.1.value.path, trail[1..], seen + {CssName(path)});
      ValueOfVar(sheet, [attribute], CssName(path), CssName(pair.1.value.path), seen);
    } else {
      ValueOfLiteral(sheet, [attribute], CssName(path), SaidOn(tokens, theme, Alias(path), trail), seen);
    }
  }

  lemma PlainPassesDown(tokens: Node, sheet: seq<Rule>, chain: Chain, pair: (Path, Token), seen: set<string>)
    requires Ready(tokens) && Sheet(tokens) == Ok(sheet)
    requires |chain| > 1 && pair in PlainLeaves(tokens, PLAIN)
    ensures ValueAt(sheet, chain, CssName(pair.0), seen)
         == ValueAt(sheet, chain[..|chain| - 1], CssName(pair.0), {})
  {
    BelowIsSilent(tokens, sheet, chain[|chain| - 1], pair);
    ValueOfParent(sheet, chain, CssName(pair.0), seen);
  }

  /** Below the root, a plain property is the one inherited from the root. */
  lemma {:induction false} PlainIsInherited(tokens: Node, sheet: seq<Rule>, chain: Chain, pair: (Path, Token),
                                            seen: set<string>)
    requires Ready(tokens) && Sheet(tokens) == Ok(sheet)
    requires |chain| > 1 && pair in PlainLeaves(tokens, PLAIN)
    ensures ValueAt(sheet, chain, CssName(pair.0), seen) == ValueAt(sheet, chain[..1], CssName(pair.0), {})
    decreases |chain|
  {
    var parent := chain[..|chain| - 1];
    PlainPassesDown(tokens, sheet, chain, pair, seen);
    assert parent[..1] == chain[..1];
    if |parent| > 1 {
      PlainIsInherited(tokens, sheet, parent, pair, {});
    } else {
      assert parent == parent[..1];
    }
  }

  /** An emitted path below the root: a plain one is inherited from the root, a themed one from the
      nearest element that names a theme. */
  lemma {:induction false} ValueBelow(tokens: Node, sheet: seq<Rule>, chain: Chain, path: Path, trail: seq<Path>,
                                      seen: set<string>)
    requires Ready(tokens) && Sheet(tokens) == Ok(sheet)
    requires |chain| > 1 && (InOneTheme(chain) || PlainSaysTheSame(tokens))
    requires IsLiteralTrail(tokens, ThemeOf(chain), Alias(path), trail)
    requires Emitted(tokens, ThemeOf(chain), path) && Fresh(tokens, ThemeOf(chain), trail, seen)
    ensures Computes(tokens, sheet, chain, path, trail, seen)
    decreases |chain|, |trail|, 1
  {
    var attribute := chain[|chain| - 1];
    var pair :| pair in EmittedLeaves(tokens, ThemeOf(chain)) && pair.0 == path;
    if pair in PlainLeaves(tokens, PLAIN) {
      PlainBelow(tokens, sheet, chain, pair, trail, seen);
    } else if attribute.Some? && attribute.value in THEMES {
      ValueDeclaredHere(tokens, sheet, chain, pair, trail, seen);
    } else {
      ValueInherited(tokens, sheet, chain, path, trail, seen);
    }
  }

  /** What an element that names a theme makes of a leaf of that theme. */
  lemma DeclaredHere(tokens: Node, sheet: seq<Rule>, theme: string, pair: (Path, Token), trail: seq<Path>)
    requires DistinctKeys(tokens) && Validated(tokens) && ThemesHoldThemed(tokens) && NamesTellPathsApart(tokens)
    requires Sheet(tokens) == Ok(sheet) && theme in THEMES
    requires pair in ThemedLeaves(tokens, theme) && IsLiteralTrail(tokens, theme, Alias(pair.0), trail)
    ensures trail != [] && IsLiteralTrail(tokens, theme, pair.1.value, trail[1..])
    ensures var said := SaidOn(tokens, theme, Alias(pair.0), trail);
            if pair.1.alpha.None? && pair.1.value.Alias? then
              && LastOf(Applied(sheet, false, Some(theme)), CssName(pair.0)) == Some(Var(CssName(pair.1.value.path)))
              && said == SaidOn(tokens, theme, pair.1.value, trail[1..])
            else LastOf(Applied(sheet, false, Some(theme)), CssName(pair.0)) == Some(Literal(said))
  {
    ThemedIsAccepted(tokens, theme, pair);
    BelowDeclares(tokens, sheet, theme, pair);
    CompiledAsSaid(tokens, theme, pair, trail);
  }

  lemma {:induction false} ValueDeclaredHere(tokens: Node, sheet: seq<Rule>, chain: Chain, pair: (Path, Token),
                                             trail: seq<Path>, seen: set<string>)
    requires Ready(tokens) && Sheet(tokens) == Ok(sheet)
    requires |chain| > 1 && (InOneTheme(chain) || PlainSaysTheSame(tokens))
    requires chain[|chain| - 1] == Some(ThemeOf(chain)) && ThemeOf(chain) in THEMES
    requires IsLiteralTrail(tokens, ThemeOf(chain), Alias(pair.0), trail)
    requires pair in ThemedLeaves(tokens, ThemeOf(chain)) && Fresh(tokens, ThemeOf(chain), trail, seen)
    ensures Computes(tokens, sheet, chain, pair.0, trail, seen)
    decreases |chain|, |trail|, 0
  {
    var theme, name := ThemeOf(chain), CssName(pair.0);
    DeclaredHere(tokens, sheet, theme, pair, trail);
    if pair.1.alpha.None? && pair.1.value.Alias? {
      assert pair in EmittedLeaves(tokens, theme) && Emitted(tokens, theme, pair.0);
      NamesStayFresh(tokens, theme, pair.0, trail, seen);
      TargetIsEmitted(tokens, theme, pair);
      ValueBelow(tokens, sheet, chain, pair.1.value.path, trail[1..], seen + {name});
      ValueOfVar(sheet, chain, name, CssName(pair.1.value.path), seen);
    } else {
      ValueOfLiteral(sheet, chain, name, SaidOn(tokens, theme, Alias(pair.0), trail), seen);
    }
  }

  lemma ValueOfVar(sheet: seq<Rule>, chain: Chain, name: string, target: string, seen: set<string>)
    requires chain != [] && name !in seen
    requires LastOf(Applied(sheet, |chain| == 1, chain[|chain| - 1]), name) == Some(Var(target))
    ensures ValueAt(sheet, chain, name, seen) == ValueAt(sheet, chain, target, seen + {name})
  {
  }

  lemma ValueOfParent(sheet: seq<Rule>, chain: Chain, name: string, seen: set<string>)
    requires chain != [] && LastOf(Applied(sheet, |chain| == 1, chain[|chain| - 1]), name).None?
    ensures ValueAt(sheet, chain, name, seen) == ValueAt(sheet, chain[..|chain| - 1], name, {})
  {
  }

  lemma ValueOfLiteral(sheet: seq<Rule>, chain: Chain, name: string, text: string, seen: set<string>)
    requires chain != []
    requires LastOf(Applied(sheet, |chain| == 1, chain[|chain| - 1]), name) == Some(Literal(text))
    ensures ValueAt(sheet, chain, name, seen) == Some(text)
  {
  }

  lemma {:induction false} ValueInherited(tokens: Node, sheet: seq<Rule>, chain: Chain, path: Path, trail: seq<Path>,
                                          seen: set<string>)
    requires Ready(tokens) && Sheet(tokens) == Ok(sheet)
    requires |chain| > 1 && (InOneTheme(chain) || PlainSaysTheSame(tokens))
    requires chain[|chain| - 1].Some? ==> chain[|chain| - 1].value !in THEMES
    requires IsLiteralTrail(tokens, ThemeOf(chain), Alias(path), trail)
    requires Emitted(tokens, ThemeOf(chain), path)
    ensures Computes(tokens, sheet, chain, path, trail, seen)
    decreases |chain|, |trail|, 0
  {
    var parent := chain[..|chain| - 1];
    BelowIs(tokens, sheet, chain[|chain| - 1]);
    assert ThemeOf(parent) == ThemeOf(chain);
    ValueOfParent(sheet, chain, CssName(path), seen);
    if |parent| == 1 {
      assert parent == [parent[0]] == chain[..1];
      RootValue(tokens, sheet, parent[0], path, trail, {});
    } else {
      assert parent[..1] == chain[..1];
      ValueBelow(tokens, sheet, parent, path, trail, {});
    }
  }

  lemma PlainBelow(tokens: Node, sheet: seq<Rule>, chain: Chain, pair: (Path, Token), trail: seq<Path>,
                   seen: set<string>)
    requires Ready(tokens) && Sheet(tokens) == Ok(sheet)
    requires |chain| > 1 && (InOneTheme(chain) || PlainSaysTheSame(tokens))
    requires IsLiteralTrail(tokens, ThemeOf(chain), Alias(pair.0), trail)
    requires pair in PlainLeaves(tokens, PLAIN)
    ensures Computes(tokens, sheet, chain, pair.0, trail, seen)
  {
    var root := ThemeOf(chain[..1]);
    PlainIsInherited(tokens, sheet, chain, pair, seen);
    SaidOfTrail(tokens, ThemeOf(chain), pair.0, trail);
    PlainAtTheRoot(tokens, sheet, chain[0], pair, ThemeOf(chain));
    assert chain[..1] == [chain[0]];
  }

  /** On the root a plain property is what the source says of it in a theme, if that is the theme of
      the root or the source says the same in both. */
  lemma PlainAtTheRoot(tokens: Node, sheet: seq<Rule>, attribute: Option<string>, pair: (Path, Token), theme: string)
    requires Ready(tokens) && Sheet(tokens) == Ok(sheet) && theme in THEMES
    requires (ThemeOf([attribute]) == DARK && theme == DARK) || PlainSaysTheSame(tokens)
    requires pair in PlainLeaves(tokens, PLAIN) && Said(tokens, theme, pair.0).Some?
    ensures ValueAt(sheet, [attribute], CssName(pair.0), {}) == Said(tokens, theme, pair.0)
  {
    var root := ThemeOf([attribute]);
    if root != theme {
      assert SaysTheSame(tokens, pair.0);
    }
    var there := TrailOfSaid(tokens, root, pair.0);
    SaidOfTrail(tokens, root, pair.0, there);
    assert pair in EmittedLeaves(tokens, root) && Emitted(tokens, root, pair.0);
    RootValue(tokens, sheet, attribute, pair.0, there, {});
  }
}
