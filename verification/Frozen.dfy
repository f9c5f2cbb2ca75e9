/**
 Files outside the theorem of compilation: a plain token that aliases a themed one keeps the
 default theme's value in an element of the other theme.
 */
module Frozen {
  import opened Options
  import opened Tokens
  import opened Stylesheet
  import opened Rendering
  import opened Meaning

  const DARK_INK := Token(Text("#000000"), Some("color"), None)
  const LIGHT_INK := Token(Text("#FFFFFF"), Some("color"), None)
  const INK: Path := ["color", "ink"]
  const MARK: Path := ["glow", "mark"]
  const MARK_TOKEN := Token(Alias(INK), Some("color"), None)

  function Theme(token: Token): Node {
    Node(None, [Entry("color", Node(None, [Entry("ink", Node(Some(token), []))]))])
  }

  function Glow(): Node {
    Node(None, [Entry("mark", Node(Some(MARK_TOKEN), []))])
  }

  /** `glow.mark` is `{color.ink}`, black in the default theme and white in the other. */
  function Example(): Node {
    Node(None, [Entry(DARK, Theme(DARK_INK)), Entry(LIGHT, Theme(LIGHT_INK)), Entry("glow", Glow())])
  }

  lemma ThemeLeaves(token: Token, path: Path)
    requires path == [] || path[0] in THEMES
    ensures Leaves(Theme(token), path) == [(path + INK, token)]
  {
    var inner := Node(None, [Entry("ink", Node(Some(token), []))]);
    assert path !in RECORDS && path + ["color"] !in RECORDS by {
      assert path != [] ==> path[0] != "contrast" && (path + ["color"])[0] != "contrast";
      assert path == [] ==> (path + ["color"])[0] != "contrast";
    }
    assert path + ["color"] + ["ink"] == path + INK;
    assert inner.entries[1..] == [];
    assert LeavesIn(inner.entries, path + ["color"]) == [(path + INK, token)] + LeavesIn([], path + ["color"]);
    assert Theme(token).entries[1..] == [];
    assert LeavesIn(Theme(token).entries, path) == Leaves(inner, path + ["color"]) + LeavesIn([], path);
  }

  lemma GlowLeaves()
    ensures Leaves(Glow(), ["glow"]) == [(MARK, MARK_TOKEN)]
  {
    assert ["glow"] + ["mark"] == MARK;
  }

  lemma ExampleThemed()
    ensures ThemedLeaves(Example(), DARK) == [(INK, DARK_INK)] && ThemedLeaves(Example(), LIGHT) == [(INK, LIGHT_INK)]
  {
    var none: Path := [];
    ThemeLeaves(DARK_INK, none);
    ThemeLeaves(LIGHT_INK, none);
    assert none + INK == INK;
  }

  lemma {:induction false} ExamplePlain(groups: seq<string>)
    requires forall i :: 0 <= i < |groups| ==> groups[i] !in THEMES
    requires forall i, j :: 0 <= i < j < |groups| ==> groups[i] != "glow" || groups[j] != "glow"
    ensures PlainLeaves(Example(), groups) == if "glow" in groups then [(MARK, MARK_TOKEN)] else []
  {
    if groups != [] {
      var before, last := groups[..|groups| - 1], groups[|groups| - 1];
      assert groups == before + [last];
      ExamplePlain(before);
      GroupOfTheExample(last);
    }
  }

  lemma NoOtherGroup(group: string)
    requires group !in THEMES && group != "glow"
    ensures Child(Example().entries, group).None?
  {
    var entries := Example().entries;
    assert entries[1..] == [Entry(LIGHT, Theme(LIGHT_INK)), Entry("glow", Glow())];
    assert entries[1..][1..] == [Entry("glow", Glow())] && entries[1..][1..][1..] == [];
    assert Child(entries[1..][1..], group).None?;
  }

  lemma GlowIsAGroup()
    ensures Child(Example().entries, "glow") == Some(Glow())
  {
    var entries := Example().entries;
    assert entries[1..][1..] == [Entry("glow", Glow())];
    assert "glow" != DARK && "glow" != LIGHT;
  }

  lemma MarkIsNotSkipped()
    ensures !Skipped(MARK)
  {
    forall skipped | skipped in NOT_EMITTED
      ensures !(skipped <= MARK)
    {
      assert skipped[0] != "glow";
    }
  }

  lemma GroupOfTheExample(group: string)
    requires group !in THEMES
    ensures Kept(GroupLeaves(Example(), group)) == if group == "glow" then [(MARK, MARK_TOKEN)] else []
  {
    if group == "glow" {
      GlowLeaves();
      GlowIsAGroup();
      MarkIsNotSkipped();
      var pairs := [(MARK, MARK_TOKEN)];
      assert pairs[..0] == [];
      assert Kept(pairs) == Kept([]) + [(MARK, MARK_TOKEN)];
    } else {
      NoOtherGroup(group);
    }
  }

  lemma ExampleListed()
    ensures Listed(Example()) == [([DARK] + INK, DARK_INK), ([LIGHT] + INK, LIGHT_INK), (MARK, MARK_TOKEN)]
  {
    var none: Path := [];
    ThemeLeaves(DARK_INK, [DARK]);
    ThemeLeaves(LIGHT_INK, [LIGHT]);
    GlowLeaves();
    assert none + [DARK] == [DARK] && none + [LIGHT] == [LIGHT] && none + ["glow"] == ["glow"];
    var entries := Example().entries;
    assert entries[1..][1..] == [Entry("glow", Glow())] && entries[1..][1..][1..] == [];
    assert LeavesIn(entries[1..][1..], none) == [(MARK, MARK_TOKEN)];
    assert LeavesIn(entries[1..], none) == [([LIGHT] + INK, LIGHT_INK)] + LeavesIn(entries[1..][1..], none);
  }

  lemma ExampleKeysAreDistinct()
    ensures DistinctKeys(Example())
    ensures Child(Example().entries, DARK).Some? && Child(Example().entries, LIGHT).Some?
  {
    var entries := Example().entries;
    assert entries[1..] == [Entry(LIGHT, Theme(LIGHT_INK)), Entry("glow", Glow())];
    assert entries[1..][1..] == [Entry("glow", Glow())] && entries[1..][1..][1..] == [];
    assert DARK[0] != LIGHT[0] && DARK[0] != "glow"[0] && LIGHT[0] != "glow"[0];
    ThemeKeysAreDistinct(DARK_INK);
    ThemeKeysAreDistinct(LIGHT_INK);
    OneKeyIsDistinct("mark", Node(Some(MARK_TOKEN), []));
    OneKeyIsDistinct("glow", Glow());
  }

  lemma OneKeyIsDistinct(key: string, node: Node)
    requires DistinctKeys(node)
    ensures DistinctIn([Entry(key, node)])
  {
    assert [Entry(key, node)][1..] == [];
  }

  lemma ThemeKeysAreDistinct(token: Token)
    ensures DistinctKeys(Theme(token))
  {
    var leaf := Node(Some(token), []);
    OneKeyIsDistinct("ink", leaf);
    OneKeyIsDistinct("color", Node(None, [Entry("ink", leaf)]));
  }

  /** What stands at the two paths, in each theme. */
  predicate IsMarked(tokens: Node) {
    && LeafAt(tokens, MARK, DARK) && Leaf(tokens, MARK, DARK) == MARK_TOKEN
    && LeafAt(tokens, MARK, LIGHT) && Leaf(tokens, MARK, LIGHT) == MARK_TOKEN
    && LeafAt(tokens, INK, DARK) && Leaf(tokens, INK, DARK) == DARK_INK
    && LeafAt(tokens, INK, LIGHT) && Leaf(tokens, INK, LIGHT) == LIGHT_INK
  }

  /** All there is to know of the example. */
  ghost predicate IsTheExample(tokens: Node) {
    && DistinctKeys(tokens) && Child(tokens.entries, DARK).Some? && Child(tokens.entries, LIGHT).Some?
    && Listed(tokens) == [([DARK] + INK, DARK_INK), ([LIGHT] + INK, LIGHT_INK), (MARK, MARK_TOKEN)]
    && ThemedLeaves(tokens, DARK) == [(INK, DARK_INK)] && ThemedLeaves(tokens, LIGHT) == [(INK, LIGHT_INK)]
    && PlainLeaves(tokens, PLAIN) == [(MARK, MARK_TOKEN)] && IsMarked(tokens)
  }

  lemma PlainHoldsGlowOnce()
    ensures forall i :: 0 <= i < |PLAIN| ==> (PLAIN[i] == "glow" <==> i == 8)
    ensures forall i :: 0 <= i < |PLAIN| ==> PLAIN[i] !in THEMES
  {
    forall i | 0 <= i < |PLAIN|
      ensures (PLAIN[i] == "glow" <==> i == 8) && PLAIN[i] !in THEMES
    {
      assert PLAIN[i][0] != 'd' && PLAIN[i][0] == 'l' ==> PLAIN[i][1] == 'a';
      assert PLAIN[i][0] == 'g' ==> i == 8;
    }
  }

  lemma PlainOfTheExample()
    ensures PlainLeaves(Example(), PLAIN) == [(MARK, MARK_TOKEN)]
  {
    PlainHoldsGlowOnce();
    assert PLAIN[8] == "glow";
    ExamplePlain(PLAIN);
  }

  lemma ExampleIsOne()
    ensures IsTheExample(Example())
  {
    ExampleKeysAreDistinct();
    ExampleListed();
    ExampleThemed();
    PlainOfTheExample();
    ExampleNodes();
  }

  lemma ExampleNodes()
    ensures IsMarked(Example())
  {
    GlowIsAGroup();
    MarkIsInGlow();
    InkIsInItsTheme(DARK_INK);
    InkIsInItsTheme(LIGHT_INK);
    ThemesAreGroups();
  }

  lemma MarkIsInGlow()
    ensures Walk(Glow(), MARK[1..]) == Some(Node(Some(MARK_TOKEN), []))
  {
    assert MARK[1..] == ["mark"] && MARK[1..][1..] == [];
  }

  lemma InkIsInItsTheme(token: Token)
    ensures Walk(Theme(token), INK) == Some(Node(Some(token), []))
  {
    assert INK[1..] == ["ink"] && INK[1..][1..] == [];
  }

  lemma ThemesAreGroups()
    ensures Child(Example().entries, DARK) == Some(Theme(DARK_INK))
    ensures Child(Example().entries, LIGHT) == Some(Theme(LIGHT_INK))
  {
    assert Example().entries[1..][0] == Entry(LIGHT, Theme(LIGHT_INK)) && DARK[0] != LIGHT[0];
  }

  lemma ExampleNames()
    ensures CssName(MARK) == "--ela-glow-mark" && CssName(INK) == "--ela-color-ink"
  {
  }

  lemma InkIsAccepted(tokens: Node, path: Path, token: Token)
    requires token == DARK_INK || token == LIGHT_INK
    ensures LeafAccepted(tokens, path, token)
  {
    assert "color" in TYPES;
    assert Opaque("#000000") && Opaque("#FFFFFF");
  }

  /** The aliases of the mark, followed. */
  lemma TrailsOfTheMark(tokens: Node, theme: string)
    requires IsMarked(tokens) && theme in THEMES
    ensures IsLiteralTrail(tokens, theme, Alias(MARK), [MARK, INK])
    ensures IsLiteralTrail(tokens, theme, Alias(INK), [INK])
    ensures End(tokens, theme, Alias(MARK), [MARK, INK]) == Text(if theme == DARK then "#000000" else "#FFFFFF")
    ensures !Tinted(tokens, theme, Alias(MARK), [MARK, INK])
  {
    var trail, rest := [MARK, INK], [INK];
    assert theme == DARK || theme == LIGHT;
    assert LeafAt(tokens, MARK, theme) && Leaf(tokens, MARK, theme) == MARK_TOKEN;
    assert LeafAt(tokens, INK, theme) && !Leaf(tokens, INK, theme).value.Alias?;
    assert trail[0] == MARK && trail[1..] == rest && rest[0] == INK && rest[1..] == [];
    var ink := Leaf(tokens, INK, theme).value;
    assert IsTrail(tokens, theme, Alias(INK), rest);
    assert End(tokens, theme, Alias(INK), rest) == End(tokens, theme, ink, []) == ink;
    assert IsTrail(tokens, theme, Alias(MARK), trail);
    assert End(tokens, theme, Alias(MARK), trail) == End(tokens, theme, Alias(INK), rest);
    assert !Tinted(tokens, theme, ink, []);
    assert !Tinted(tokens, theme, Alias(INK), rest);
  }

  lemma MarkIsAccepted(tokens: Node)
    requires IsTheExample(tokens)
    ensures LeafAccepted(tokens, MARK, MARK_TOKEN)
    ensures CssValueOf(tokens, MARK_TOKEN, DARK) == Ok(Var(CssName(INK)))
  {
    TrailsOfTheMark(tokens, DARK);
    ChaseOfTrail(tokens, DARK, Alias(INK), [INK]);
    assert MARK[0] != DARK && MARK[0] != LIGHT;
    assert "color" in TYPES;
    assert Opaque("#000000");
  }

  lemma OneKey(ink: Token)
    ensures DottedKeys([(INK, ink)]) == multiset{Dotted(INK)}
  {
    assert DottedKeys([(INK, ink)][1..]) == multiset{};
  }

  lemma ExampleIsValidated(tokens: Node)
    requires IsTheExample(tokens)
    ensures Validated(tokens)
  {
    InkIsAccepted(tokens, [DARK] + INK, DARK_INK);
    InkIsAccepted(tokens, [LIGHT] + INK, LIGHT_INK);
    MarkIsAccepted(tokens);
    OneKey(DARK_INK);
    OneKey(LIGHT_INK);
  }

  lemma ExampleEmits(tokens: Node, theme: string, pair: (Path, Token))
    requires IsTheExample(tokens) && theme in THEMES
    ensures pair in EmittedLeaves(tokens, theme)
       <==> pair == (MARK, MARK_TOKEN) || pair == (INK, if theme == DARK then DARK_INK else LIGHT_INK)
  {
  }

  lemma EmittedIsMarkOrInk(tokens: Node, theme: string, path: Path)
    requires IsTheExample(tokens) && theme in THEMES && Emitted(tokens, theme, path)
    ensures path == MARK || path == INK
  {
    var pair :| pair in EmittedLeaves(tokens, theme) && pair.0 == path;
    ExampleEmits(tokens, theme, pair);
  }

  lemma ExampleNamesAreApart(tokens: Node)
    requires IsTheExample(tokens)
    ensures NamesTellPathsApart(tokens)
  {
    forall p, q, s, t | s in THEMES && t in THEMES && Emitted(tokens, s, p) && Emitted(tokens, t, q)
                        && CssName(p) == CssName(q)
      ensures p == q
    {
      EmittedIsMarkOrInk(tokens, s, p);
      EmittedIsMarkOrInk(tokens, t, q);
      ExampleNames();
      assert "--ela-glow-mark"[6] != "--ela-color-ink"[6];
    }
  }

  lemma ExampleVarsAreDeclared(tokens: Node)
    requires IsTheExample(tokens)
    ensures VarsAreDeclared(tokens) && ThemesHoldThemed(tokens)
  {
    forall theme, pair | theme in THEMES && pair in EmittedLeaves(tokens, theme)
                         && pair.1.alpha.None? && pair.1.value.Alias?
      ensures Emitted(tokens, CompiledIn(pair.0, theme), pair.1.value.path)
    {
      ExampleEmits(tokens, theme, pair);
      ExampleEmits(tokens, CompiledIn(pair.0, theme), (INK, DARK_INK));
      assert !IsThemed(MARK);
      assert (INK, DARK_INK) in EmittedLeaves(tokens, DARK);
    }
    assert IsThemed(INK);
  }

  lemma OneDeclares(tokens: Node, theme: string, pair: (Path, Token))
    requires CssValueOf(tokens, pair.1, theme).Ok?
    ensures Declared(tokens, theme, [pair]).Ok?
  {
    var pairs := [pair];
    assert pairs[..0] == [];
  }

  lemma ExampleSheet(tokens: Node) returns (sheet: seq<Rule>)
    requires IsTheExample(tokens)
    ensures Sheet(tokens) == Ok(sheet)
  {
    MarkIsAccepted(tokens);
    OneDeclares(tokens, DARK, (MARK, MARK_TOKEN));
    OneDeclares(tokens, DARK, (INK, DARK_INK));
    OneDeclares(tokens, LIGHT, (INK, LIGHT_INK));
    sheet := Sheet(tokens).value;
  }

  lemma ExampleIsReady(tokens: Node)
    requires IsTheExample(tokens)
    ensures Ready(tokens)
  {
    ExampleIsValidated(tokens);
    ExampleNamesAreApart(tokens);
    ExampleVarsAreDeclared(tokens);
    ExampleKeysHoldNoDot(tokens);
  }

  lemma ExampleKeysHoldNoDot(tokens: Node)
    requires IsTheExample(tokens)
    ensures KeysHoldNoDot(tokens)
  {
    assert '.' !in INK[0] && '.' !in INK[1];
  }

  // ------------------------------------------------------------------------------------------
  // Every file that holds the mark
  // ------------------------------------------------------------------------------------------

  /** A file, whatever else is in it, in which `glow.mark` aliases `color.ink`, black in the default theme
      and white in the other. */
  predicate HoldsTheMark(tokens: Node) {
    && (MARK, MARK_TOKEN) in PlainLeaves(tokens, PLAIN)
    && (INK, DARK_INK) in ThemedLeaves(tokens, DARK)
    && (INK, LIGHT_INK) in ThemedLeaves(tokens, LIGHT)
  }

  lemma HoldingMarks(tokens: Node)
    requires Ready(tokens) && HoldsTheMark(tokens)
    ensures IsMarked(tokens)
  {
    PlainIsAccepted(tokens, (MARK, MARK_TOKEN));
    PlainIsNotThemed(MARK);
    ThemedIsAccepted(tokens, DARK, (INK, DARK_INK));
    ThemedIsAccepted(tokens, LIGHT, (INK, LIGHT_INK));
  }

  lemma MarkIsSaid(tokens: Node)
    requires IsMarked(tokens)
    ensures Said(tokens, DARK, MARK) == Some("#000000") && Said(tokens, LIGHT, MARK) == Some("#FFFFFF")
    ensures !SaysTheSame(tokens, MARK)
  {
    TrailsOfTheMark(tokens, DARK);
    TrailsOfTheMark(tokens, LIGHT);
    SaidOfTrail(tokens, DARK, MARK, [MARK, INK]);
    SaidOfTrail(tokens, LIGHT, MARK, [MARK, INK]);
    assert "#000000"[1] != "#FFFFFF"[1];
  }

  /** In every such file that is in order and compiles, the property of the mark is the default theme's
      black on a light element under a default root, where the source says white. */
  lemma MarkStaysBlack(tokens: Node, sheet: seq<Rule>)
    requires Ready(tokens) && Sheet(tokens) == Ok(sheet) && HoldsTheMark(tokens)
    ensures ValueAt(sheet, [None, Some(LIGHT)], CssName(MARK), {}) == Some("#000000")
    ensures Said(tokens, LIGHT, MARK) == Some("#FFFFFF") && !PlainSaysTheSame(tokens)
  {
    HoldingMarks(tokens);
    MarkIsSaid(tokens);
    MarkIsInherited(tokens, sheet);
  }

  lemma MarkIsInherited(tokens: Node, sheet: seq<Rule>)
    requires Ready(tokens) && Sheet(tokens) == Ok(sheet) && HoldsTheMark(tokens)
    requires Said(tokens, DARK, MARK).Some?
    ensures ValueAt(sheet, [None, Some(LIGHT)], CssName(MARK), {}) == Said(tokens, DARK, MARK)
  {
    var chain: Chain := [None, Some(LIGHT)];
    assert chain[..1] == [None];
    PlainIsInherited(tokens, sheet, chain, (MARK, MARK_TOKEN), {});
    PlainAtTheRoot(tokens, sheet, None, (MARK, MARK_TOKEN), DARK);
  }

  /** There is such a file. */
  lemma TheExampleHoldsTheMark()
    ensures Ready(Example()) && Sheet(Example()).Ok? && HoldsTheMark(Example())
  {
    ExampleIsOne();
    ExampleIsReady(Example());
    var sheet := ExampleSheet(Example());
  }
}
