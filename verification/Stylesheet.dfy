/**
 The derived stylesheet (scripts/generate_design_system.py, "tokens.css") and what it means.

 The tokens compile to three rules of custom properties. The rules are read with the substitution
 of section 3 of CSS Custom Properties for Cascading Variables Module Level 1: a `var()` is
 replaced on the element that declares it, and what a descendant inherits is the computed value.
 */
module Stylesheet {
  import opened Options
  import opened Numerals
  import opened Tokens

  const PREFIX := "--ela-"
  const PLAIN: seq<string> := [
    "palette", "typography", "space", "radius", "border", "opacity", "layer", "material",
    "glow", "frame", "motion", "icon", "wordmark", "control", "presence"]
  const NOT_EMITTED: set<Path> := {["motion", "pattern"], ["presence", "rest"], ["presence", "core", "kind"]}
  const TYPES: set<string> := {
    "angle", "boolean", "color", "core", "dimension", "duration", "easing", "fontFamily",
    "fontWeight", "keyframes", "keyword", "light", "number", "pattern", "shadow"}
  const GROUPS: set<string> := {"core", "light", "pattern"}

  // ------------------------------------------------------------------------------------------
  // Names and values
  // ------------------------------------------------------------------------------------------

  function LowerChar(c: char): char {
    if 'A' <= c <= 'Z' then (c as int - 'A' as int + 'a' as int) as char else c
  }

  function UpperChar(c: char): char {
    if 'a' <= c <= 'z' then (c as int - 'a' as int + 'A' as int) as char else c
  }

  function Upper(text: string): (u: string)
    ensures |u| == |text|
    ensures forall i :: 0 <= i < |u| ==>
              if 'a' <= text[i] <= 'z' then u[i] as int == text[i] as int - 32 else u[i] == text[i]
  {
    seq(|text|, i requires 0 <= i < |text| => UpperChar(text[i]))
  }

  function NormalisedChar(c: char): char {
    if c == ' ' || c == '_' then '-' else LowerChar(c)
  }

  function Normalised(part: string): string {
    seq(|part|, i requires 0 <= i < |part| => NormalisedChar(part[i]))
  }

  function Hyphenated(path: Path): string {
    if path == [] then ""
    else if |path| == 1 then Normalised(path[0])
    else Normalised(path[0]) + "-" + Hyphenated(path[1..])
  }

  function CssName(path: Path): string {
    PREFIX + Hyphenated(path)
  }

  /** How a character of a key stands in a name: lower case, and a hyphen for a space or an underscore. */
  predicate IsWrittenAs(c: char, d: char) {
    if c == ' ' || c == '_' then d == '-'
    else if 'A' <= c <= 'Z' then d as int == c as int + 32
    else d == c
  }

  /** A name of one key is `--ela-` and the key, character by character. */
  lemma NameOfOneKey(key: string)
    ensures |CssName([key])| == 6 + |key| && CssName([key])[..6] == "--ela-"
    ensures forall i :: 0 <= i < |key| ==> IsWrittenAs(key[i], CssName([key])[6 + i])
  {
    assert CssName([key]) == "--ela-" + Normalised(key);
    forall i | 0 <= i < |key|
      ensures IsWrittenAs(key[i], CssName([key])[6 + i])
    {
      OneCharacter(key[i]);
      assert CssName([key])[6 + i] == Normalised(key)[i];
    }
  }

  lemma OneCharacter(c: char)
    ensures IsWrittenAs(c, NormalisedChar(c))
  {
  }

  /** Each key more comes at the end of the name, after a hyphen. */
  lemma OneKeyMore(path: Path, key: string)
    requires path != []
    ensures CssName(path + [key]) == CssName(path) + "-" + CssName([key])[6..]
  {
    HyphenatedMore(path, key);
    assert CssName([key])[6..] == Normalised(key);
    AddedInTurn(PREFIX, Hyphenated(path), "-" + Normalised(key));
    AddedInTurn(PREFIX + Hyphenated(path), "-", Normalised(key));
  }

  lemma {:induction false} HyphenatedMore(path: Path, key: string)
    requires path != []
    ensures Hyphenated(path + [key]) == Hyphenated(path) + ("-" + Normalised(key))
  {
    assert (path + [key])[1..] == path[1..] + [key];
    if |path| == 1 {
      assert path[1..] + [key] == [key];
      AddedInTurn(Normalised(path[0]), "-", Normalised(key));
    } else {
      HyphenatedMore(path[1..], key);
      AddedInTurn(Normalised(path[0]) + "-", Hyphenated(path[1..]), "-" + Normalised(key));
    }
  }

  lemma AddedInTurn(a: string, b: string, c: string)
    ensures a + (b + c) == a + b + c
  {
  }

  lemma ANameOfThreeKeys()
    ensures CssName(["color", "text", "primary"]) == "--ela-color-text-primary"
  {
    var keys := ["color", "text", "primary"];
    assert keys[1..] == ["text", "primary"] && keys[1..][1..] == ["primary"];
    AsItIs("color");
    AsItIs("text");
    AsItIs("primary");
    assert Hyphenated(keys) == "color" + "-" + ("text" + "-" + "primary");
  }

  lemma AsItIs(key: string)
    requires forall i :: 0 <= i < |key| ==> 'a' <= key[i] <= 'z'
    ensures Normalised(key) == key
  {
  }

  function Dotted(path: Path): string {
    if path == [] then ""
    else if |path| == 1 then path[0]
    else path[0] + "." + Dotted(path[1..])
  }

  /** The dotted name of a path is its keys in order. */
  lemma {:induction false} OneDotMore(path: Path, key: string)
    requires path != []
    ensures Dotted(path + [key]) == Dotted(path) + ("." + key) && Dotted([key]) == key
  {
    assert (path + [key])[1..] == path[1..] + [key];
    if |path| == 1 {
      assert path[1..] + [key] == [key];
      AddedInTurn(path[0], ".", key);
    } else {
      OneDotMore(path[1..], key);
      AddedInTurn(path[0] + ".", Dotted(path[1..]), "." + key);
    }
  }

  /** Python's `str` of a value. */
  function Shown(value: Value): string {
    match value
    case Alias(path) => "{" + Dotted(path) + "}"
    case Text(text) => text
    case Number(shown) => shown
    case Flag(on) => if on then "True" else "False"
  }

  /** `with_alpha`: the characters of the colour in upper case, then the alpha as a byte. */
  function WithAlpha(colour: string, alpha: real): string {
    if colour == "" then PaddedHex(Round(alpha * 255.0))
    else [UpperChar(colour[0])] + WithAlpha(colour[1..], alpha)
  }

  lemma {:induction false} WithAlphaIs(colour: string, alpha: real)
    ensures WithAlpha(colour, alpha) == Upper(colour) + PaddedHex(Round(alpha * 255.0))
  {
    if colour != "" {
      WithAlphaIs(colour[1..], alpha);
      assert Upper(colour) == [UpperChar(colour[0])] + Upper(colour[1..]);
    }
  }

  /** The value of a custom property: a text, or `var()` of another property. */
  datatype CssValue = Literal(text: string) | Var(name: string)

  datatype Refusal = Unresolved(why: Chased) | ABoolean

  /** `css_value`: an alias stays an alias, but a colour that carries `$alpha` is composed here. */
  function CssValueOf(tokens: Node, leaf: Token, theme: string): Result<CssValue, Refusal>
  {
    var value := leaf.value;
    var chased := Chase(tokens, value, theme, [], 1.0);
    if leaf.alpha.Some? then
      if chased.Found? then Ok(Literal(WithAlpha(Shown(chased.literal), leaf.alpha.value)))
      else Err(Unresolved(chased))
    else if value.Alias? then
      if chased.Found? then Ok(Var(CssName(value.path))) else Err(Unresolved(chased))
    else if value.Flag? then Err(ABoolean)
    else Ok(Literal(Shown(value)))
  }

  // ------------------------------------------------------------------------------------------
  // Validation, where it concerns a single leaf
  // ------------------------------------------------------------------------------------------

  predicate IsHex(c: char) {
    DigitValue(c).Some?
  }

  /** `#RRGGBB`. */
  predicate Opaque(text: string) {
    |text| == 7 && text[0] == '#' && forall i :: 1 <= i < 7 ==> IsHex(text[i])
  }

  function ThemeOfPath(path: Path): string {
    if path != [] && path[0] in THEMES then path[0] else DARK
  }

  /** `validate_colour` refuses nothing. */
  predicate ColourAccepted(tokens: Node, path: Path, leaf: Token)
  {
    var chased := Chase(tokens, leaf.value, ThemeOfPath(path), [], 1.0);
    && chased.Found?
    && Opaque(Shown(chased.literal))
    && (leaf.alpha.Some? ==>
          && !(path != [] && path[0] == "palette")
          && 0.0 <= leaf.alpha.value <= 1.0
          && chased.alpha == 1.0)
  }

  /** The loop over the leaves in `validate` refuses nothing at this one. */
  predicate LeafAccepted(tokens: Node, path: Path, leaf: Token)
  {
    && leaf.kind.Some? && leaf.kind.value in TYPES
    && (if leaf.kind.value == "color" then ColourAccepted(tokens, path, leaf)
        else
          && leaf.alpha.None?
          && (leaf.kind.value !in GROUPS ==> Chase(tokens, leaf.value, ThemeOfPath(path), [], 1.0).Found?))
  }

  /** The leaves `validate` walks: those under every key of the file that is not hidden. */
  function Listed(tokens: Node): seq<(Path, Token)> {
    LeavesIn(tokens.entries, [])
  }

  function ThemedLeaves(tokens: Node, theme: string): seq<(Path, Token)> {
    match Child(tokens.entries, theme)
    case None => []
    case Some(node) => Leaves(node, [])
  }

  function DottedKeys(pairs: seq<(Path, Token)>): multiset<string> {
    if pairs == [] then multiset{} else multiset{Dotted(pairs[0].0)} + DottedKeys(pairs[1..])
  }

  lemma {:induction false} DottedKeysAre(pairs: seq<(Path, Token)>, key: string)
    ensures key in DottedKeys(pairs) <==> exists i :: 0 <= i < |pairs| && Dotted(pairs[i].0) == key
  {
    if pairs != [] {
      DottedKeysAre(pairs[1..], key);
      if i :| 0 <= i < |pairs| && Dotted(pairs[i].0) == key {
        assert i > 0 ==> pairs[1..][i - 1] == pairs[i];
      }
      if i :| 0 <= i < |pairs[1..]| && Dotted(pairs[1..][i].0) == key {
        assert pairs[i + 1] == pairs[1..][i];
      }
    }
  }

  /** The themes have the same keys, each as often: so their sorted lists of dotted names are equal. */
  predicate SameKeys(tokens: Node) {
    DottedKeys(ThemedLeaves(tokens, DARK)) == DottedKeys(ThemedLeaves(tokens, LIGHT))
  }

  predicate Validated(tokens: Node) {
    && (forall theme :: theme in THEMES ==> Child(tokens.entries, theme).Some?)
    && SameKeys(tokens)
    && (forall pair :: pair in Listed(tokens) ==> LeafAccepted(tokens, pair.0, pair.1))
  }

  // ------------------------------------------------------------------------------------------
  // Declarations
  // ------------------------------------------------------------------------------------------

  datatype Declaration = Declaration(name: string, value: CssValue)

  predicate Skipped(path: Path) {
    exists skipped :: skipped in NOT_EMITTED && skipped <= path
  }

  function Kept(pairs: seq<(Path, Token)>): seq<(Path, Token)> {
    if pairs == [] then []
    else
      var last := pairs[|pairs| - 1];
      Kept(pairs[..|pairs| - 1]) + (if Skipped(last.0) then [] else [last])
  }

  lemma KeptExactly(pairs: seq<(Path, Token)>, pair: (Path, Token))
    ensures pair in Kept(pairs) <==> pair in pairs && !Skipped(pair.0)
  {
    if pairs != [] {
      KeptExactly(pairs[..|pairs| - 1], pair);
      assert pairs == pairs[..|pairs| - 1] + [pairs[|pairs| - 1]];
    }
  }

  /** What is never emitted, written out. */
  lemma SkippedExactly(path: Path)
    ensures Skipped(path) <==> || ["motion", "pattern"] <= path || ["presence", "rest"] <= path
                               || ["presence", "core", "kind"] <= path
  {
    assert ["motion", "pattern"] in NOT_EMITTED && ["presence", "rest"] in NOT_EMITTED;
    assert ["presence", "core", "kind"] in NOT_EMITTED;
  }

  /** The declarations of some leaves: one for each, in order, by the name of its path. */
  lemma {:induction false} DeclaredInOrder(tokens: Node, theme: string, pairs: seq<(Path, Token)>)
    requires Declared(tokens, theme, pairs).Ok?
    ensures var found := Declared(tokens, theme, pairs).value;
            && |found| == |pairs|
            && forall i :: 0 <= i < |pairs| ==>
                 && found[i].name == CssName(pairs[i].0)
                 && CssValueOf(tokens, pairs[i].1, theme) == Ok(found[i].value)
  {
    if pairs != [] {
      var before := pairs[..|pairs| - 1];
      assert Declared(tokens, theme, before).Ok?;
      DeclaredInOrder(tokens, theme, before);
      assert forall i :: 0 <= i < |before| ==> before[i] == pairs[i];
    }
  }

  function GroupLeaves(tokens: Node, group: string): seq<(Path, Token)> {
    match Child(tokens.entries, group)
    case None => []
    case Some(node) => Leaves(node, [group])
  }

  /** The leaves of the plain groups that become custom properties. */
  function PlainLeaves(tokens: Node, groups: seq<string>): seq<(Path, Token)> {
    if groups == [] then []
    else PlainLeaves(tokens, groups[..|groups| - 1]) + Kept(GroupLeaves(tokens, groups[|groups| - 1]))
  }

  /** The declaration of one leaf more. */
  function DeclaredAfter(tokens: Node, theme: string, before: Result<seq<Declaration>, Refusal>, pair: (Path, Token))
    : Result<seq<Declaration>, Refusal>
  {
    match before
    case Err(refusal) => Err(refusal)
    case Ok(found) =>
      match CssValueOf(tokens, pair.1, theme)
      case Err(refusal) => Err(refusal)
      case Ok(value) => Ok(found + [Declaration(CssName(pair.0), value)])
  }

  /** One declaration a leaf, in order; the first leaf refused refuses them all. */
  function Declared(tokens: Node, theme: string, pairs: seq<(Path, Token)>): Result<seq<Declaration>, Refusal> {
    if pairs == [] then Ok([])
    else DeclaredAfter(tokens, theme, Declared(tokens, theme, pairs[..|pairs| - 1]), pairs[|pairs| - 1])
  }

  /** A refusal among the first leaves is the refusal of all of them. */
  lemma RefusedEarly(tokens: Node, theme: string, first: seq<(Path, Token)>, rest: seq<(Path, Token)>)
    requires Declared(tokens, theme, first).Err?
    ensures Declared(tokens, theme, first + rest) == Declared(tokens, theme, first)
  {
    if rest == [] {
      assert first + rest == first;
    } else {
      var shorter := first + rest[..|rest| - 1];
      assert (first + rest)[..|first + rest| - 1] == shorter;
      RefusedEarly(tokens, theme, first, rest[..|rest| - 1]);
    }
  }

  /** `plain_declarations`: the loop over the groups and the leaves of each. */
  method PlainDeclarations(tokens: Node) returns (r: Result<seq<Declaration>, Refusal>)
    ensures r == Declared(tokens, DARK, PlainLeaves(tokens, PLAIN))
  {
    r := DeclarationsOf(tokens, PLAIN);
  }

  method DeclarationsOf(tokens: Node, groups: seq<string>) returns (r: Result<seq<Declaration>, Refusal>)
    ensures r == Declared(tokens, DARK, PlainLeaves(tokens, groups))
  {
    var found: seq<Declaration> := [];
    for g := 0 to |groups|
      invariant Declared(tokens, DARK, PlainLeaves(tokens, groups[..g])) == Ok(found)
    {
      var more := GroupDeclarations(tokens, PlainLeaves(tokens, groups[..g]), GroupLeaves(tokens, groups[g]), found);
      PlainLeavesStep(tokens, groups, g);
      if more.Err? {
        RefusedGroup(tokens, groups, g);
        return more;
      }
      found := more.value;
    }
    assert groups[..|groups|] == groups;
    r := Ok(found);
  }

  /** The loop over the leaves of one group, after the groups before it. */
  method GroupDeclarations(tokens: Node, ghost before: seq<(Path, Token)>, pairs: seq<(Path, Token)>,
                           soFar: seq<Declaration>)
    returns (r: Result<seq<Declaration>, Refusal>)
    requires Declared(tokens, DARK, before) == Ok(soFar)
    ensures r == Declared(tokens, DARK, before + Kept(pairs))
  {
    var found := soFar;
    assert before + Kept(pairs[..0]) == before;
    for i := 0 to |pairs|
      invariant Declared(tokens, DARK, before + Kept(pairs[..i])) == Ok(found)
    {
      var (path, leaf) := pairs[i];
      OneLeafMore(tokens, before, pairs, i);
      if !Skipped(path) {
        var value := CssValueOf(tokens, leaf, DARK);
        if value.Err? {
          RefusedLeaf(tokens, before, pairs, i + 1);
          return Err(value.error);
        }
        found := found + [Declaration(CssName(path), value.value)];
      }
    }
    assert pairs[..|pairs|] == pairs;
    r := Ok(found);
  }

  lemma OneLeafMore(tokens: Node, before: seq<(Path, Token)>, pairs: seq<(Path, Token)>, i: nat)
    requires i < |pairs|
    ensures Declared(tokens, DARK, before + Kept(pairs[..i + 1]))
         == if Skipped(pairs[i].0) then Declared(tokens, DARK, before + Kept(pairs[..i]))
            else DeclaredAfter(tokens, DARK, Declared(tokens, DARK, before + Kept(pairs[..i])), pairs[i])
  {
    KeptStep(pairs, i);
    if Skipped(pairs[i].0) {
      assert Kept(pairs[..i + 1]) == Kept(pairs[..i]);
    } else {
      assert before + Kept(pairs[..i + 1]) == before + Kept(pairs[..i]) + [pairs[i]];
      DeclaredStep(tokens, DARK, before + Kept(pairs[..i]), pairs[i]);
    }
  }

  lemma KeptStep(pairs: seq<(Path, Token)>, i: nat)
    requires i < |pairs|
    ensures Kept(pairs[..i + 1]) == Kept(pairs[..i]) + (if Skipped(pairs[i].0) then [] else [pairs[i]])
  {
    assert pairs[..i + 1][..i] == pairs[..i];
  }

  lemma DeclaredStep(tokens: Node, theme: string, pairs: seq<(Path, Token)>, last: (Path, Token))
    ensures Declared(tokens, theme, pairs + [last])
         == DeclaredAfter(tokens, theme, Declared(tokens, theme, pairs), last)
  {
    assert (pairs + [last])[..|pairs|] == pairs;
  }

  lemma KeptGrows(pairs: seq<(Path, Token)>, n: nat)
    requires n <= |pairs|
    ensures Kept(pairs[..n]) <= Kept(pairs)
  {
    if n == |pairs| {
      assert pairs[..n] == pairs;
    } else {
      assert pairs[..|pairs| - 1][..n] == pairs[..n];
      KeptGrows(pairs[..|pairs| - 1], n);
    }
  }

  lemma PlainLeavesGrow(tokens: Node, groups: seq<string>, n: nat)
    requires n <= |groups|
    ensures PlainLeaves(tokens, groups[..n]) <= PlainLeaves(tokens, groups)
    decreases |groups| - n
  {
    if n == |groups| {
      assert groups[..n] == groups;
    } else {
      assert groups[..n + 1][..n] == groups[..n];
      PlainLeavesGrow(tokens, groups, n + 1);
    }
  }

  lemma PlainLeavesStep(tokens: Node, groups: seq<string>, g: nat)
    requires g < |groups|
    ensures PlainLeaves(tokens, groups[..g + 1])
         == PlainLeaves(tokens, groups[..g]) + Kept(GroupLeaves(tokens, groups[g]))
  {
    assert groups[..g + 1][..g] == groups[..g];
  }

  lemma RefusedPrefix(tokens: Node, theme: string, first: seq<(Path, Token)>, all: seq<(Path, Token)>)
    requires first <= all && Declared(tokens, theme, first).Err?
    ensures Declared(tokens, theme, all) == Declared(tokens, theme, first)
  {
    assert all == first + all[|first|..];
    RefusedEarly(tokens, theme, first, all[|first|..]);
  }

  /** A leaf refused refuses its group with the same words. */
  lemma RefusedLeaf(tokens: Node, before: seq<(Path, Token)>, pairs: seq<(Path, Token)>, i: nat)
    requires i <= |pairs| && Declared(tokens, DARK, before + Kept(pairs[..i])).Err?
    ensures Declared(tokens, DARK, before + Kept(pairs)) == Declared(tokens, DARK, before + Kept(pairs[..i]))
  {
    KeptGrows(pairs, i);
    RefusedPrefix(tokens, DARK, before + Kept(pairs[..i]), before + Kept(pairs));
  }

  /** A group refused refuses the whole stylesheet with the same words. */
  lemma RefusedGroup(tokens: Node, groups: seq<string>, g: nat)
    requires g < |groups| && Declared(tokens, DARK, PlainLeaves(tokens, groups[..g + 1])).Err?
    ensures Declared(tokens, DARK, PlainLeaves(tokens, groups))
         == Declared(tokens, DARK, PlainLeaves(tokens, groups[..g + 1]))
  {
    PlainLeavesGrow(tokens, groups, g + 1);
    RefusedPrefix(tokens, DARK, PlainLeaves(tokens, groups[..g + 1]), PlainLeaves(tokens, groups));
  }

  /** `themed_declarations`: the color scheme, then one declaration per leaf of the theme. */
  function Themed(tokens: Node, theme: string): Result<seq<Declaration>, Refusal> {
    match Declared(tokens, theme, ThemedLeaves(tokens, theme))
    case Err(refusal) => Err(refusal)
    case Ok(found) => Ok([Declaration("color-scheme", Literal(theme))] + found)
  }

  method ThemedDeclarations(tokens: Node, theme: string) returns (r: Result<seq<Declaration>, Refusal>)
    ensures r == Themed(tokens, theme)
  {
    var found := [Declaration("color-scheme", Literal(theme))];
    var pairs := ThemedLeaves(tokens, theme);
    for i := 0 to |pairs|
      invariant Declared(tokens, theme, pairs[..i]).Ok?
      invariant found == [Declaration("color-scheme", Literal(theme))] + Declared(tokens, theme, pairs[..i]).value
    {
      var (path, leaf) := pairs[i];
      var value := CssValueOf(tokens, leaf, theme);
      assert pairs[..i + 1][..i] == pairs[..i];
      if value.Err? {
        assert pairs == pairs[..i + 1] + pairs[i + 1..];
        RefusedEarly(tokens, theme, pairs[..i + 1], pairs[i + 1..]);
        return Err(value.error);
      }
      found := found + [Declaration(CssName(path), value.value)];
    }
    assert pairs[..|pairs|] == pairs;
    r := Ok(found);
  }

  // ------------------------------------------------------------------------------------------
  // The stylesheet, and what CSS computes from it
  // ------------------------------------------------------------------------------------------

  datatype Selector = Root | RootOrTheme(theme: string) | OfTheme(theme: string)
  datatype Rule = Rule(selector: Selector, declarations: seq<Declaration>)

  /** The rules of tokens.css that carry the tokens, in their order. */
  function Sheet(tokens: Node): Result<seq<Rule>, Refusal> {
    match Declared(tokens, DARK, PlainLeaves(tokens, PLAIN))
    case Err(refusal) => Err(refusal)
    case Ok(plain) =>
      match Themed(tokens, DARK)
      case Err(refusal) => Err(refusal)
      case Ok(dark) =>
        match Themed(tokens, LIGHT)
        case Err(refusal) => Err(refusal)
        case Ok(light) => Ok([Rule(Root, plain), Rule(RootOrTheme(DARK), dark), Rule(OfTheme(LIGHT), light)])
  }

  /** An element as the stylesheet sees it: its `data-theme` attribute. A chain runs from the root
      of the document to the element in question. */
  type Chain = seq<Option<string>>

  predicate Matches(selector: Selector, isRoot: bool, attribute: Option<string>) {
    match selector
    case Root => isRoot
    case RootOrTheme(theme) => isRoot || attribute == Some(theme)
    case OfTheme(theme) => attribute == Some(theme)
  }

  /** The declarations that apply to an element. The selectors weigh the same, so the last wins. */
  function Applied(sheet: seq<Rule>, isRoot: bool, attribute: Option<string>): seq<Declaration> {
    if sheet == [] then []
    else (if Matches(sheet[0].selector, isRoot, attribute) then sheet[0].declarations else [])
         + Applied(sheet[1..], isRoot, attribute)
  }

  function LastOf(declarations: seq<Declaration>, name: string): Option<CssValue> {
    if declarations == [] then None
    else
      var last := declarations[|declarations| - 1];
      if last.name == name then Some(last.value) else LastOf(declarations[..|declarations| - 1], name)
  }

  function Names(declarations: seq<Declaration>): set<string> {
    set d | d in declarations :: d.name
  }

  lemma LastOfIsNamed(declarations: seq<Declaration>, name: string)
    ensures LastOf(declarations, name).Some? <==> name in Names(declarations)
  {
    if declarations != [] {
      var last := declarations[|declarations| - 1];
      LastOfIsNamed(declarations[..|declarations| - 1], name);
      assert declarations == declarations[..|declarations| - 1] + [last];
      assert last in declarations;
    }
  }

  /** The computed value of a custom property on the last element of the chain, or `None` when it is
      invalid. `seen` are the properties of this element whose substitution is under way. */
  function ValueAt(sheet: seq<Rule>, chain: Chain, name: string, seen: set<string>): Option<string>
    decreases |chain|, (if chain == [] then {} else Names(Applied(sheet, |chain| == 1, chain[|chain| - 1]))) - seen
  {
    if chain == [] then None
    else
      var declarations := Applied(sheet, |chain| == 1, chain[|chain| - 1]);
      LastOfIsNamed(declarations, name);
      match LastOf(declarations, name)
      case None => ValueAt(sheet, chain[..|chain| - 1], name, {})
      case Some(Literal(text)) => Some(text)
      case Some(Var(other)) =>
        if name in seen then None
        else
          assert name in Names(declarations) - seen;
          assert name !in Names(declarations) - (seen + {name});
          ValueAt(sheet, chain, other, seen + {name})
  }

  /** The theme an element is in: the nearest attribute that names one, or the default. */
  function ThemeOf(chain: Chain): (theme: string)
    ensures theme in THEMES
  {
    if chain == [] then DARK
    else
      match chain[|chain| - 1]
      case Some(theme) => if theme in THEMES then theme else ThemeOf(chain[..|chain| - 1])
      case None => ThemeOf(chain[..|chain| - 1])
  }

  // ------------------------------------------------------------------------------------------
  // What the source says
  // ------------------------------------------------------------------------------------------

  /** Whether some leaf on the trail carries `$alpha`. */
  predicate Tinted(tokens: Node, theme: string, value: Value, trail: seq<Path>)
    requires IsTrail(tokens, theme, value, trail)
    decreases |trail|
  {
    trail != [] &&
    var leaf := Leaf(tokens, trail[0], theme);
    leaf.alpha.Some? || Tinted(tokens, theme, leaf.value, trail[1..])
  }

  /** The alpha of the first leaf on a trail that carries one, and 1 if none does. */
  function FirstAlpha(tokens: Node, theme: string, value: Value, trail: seq<Path>): real
    requires IsTrail(tokens, theme, value, trail)
    decreases |trail|
  {
    if trail == [] then 1.0
    else
      var leaf := Leaf(tokens, trail[0], theme);
      if leaf.alpha.Some? then leaf.alpha.value else FirstAlpha(tokens, theme, leaf.value, trail[1..])
  }

  /** The literal at the end of a trail, thinned out by every alpha on it. */
  function SaidOn(tokens: Node, theme: string, value: Value, trail: seq<Path>): string
    requires IsTrail(tokens, theme, value, trail)
  {
    var literal := Shown(End(tokens, theme, value, trail));
    if Tinted(tokens, theme, value, trail) then WithAlpha(literal, TrailAlpha(tokens, theme, value, trail))
    else literal
  }

  /** Whether a leaf met by the chase carries `$alpha`. */
  predicate Tints(tokens: Node, value: Value, theme: string, seen: seq<Path>)
    decreases Universe(tokens, theme) - Elements(seen)
  {
    value.Alias? && value.path !in seen && LeafAt(tokens, value.path, theme) &&
    (Leaf(tokens, value.path, theme).alpha.Some? ||
     (NodesAreInTheUniverse(tokens, value.path, theme);
      assert value.path in Universe(tokens, theme) - Elements(seen);
      assert value.path !in Universe(tokens, theme) - Elements(seen + [value.path]);
      assert Universe(tokens, theme) - Elements(seen + [value.path]) <= Universe(tokens, theme) - Elements(seen);
      Tints(tokens, Leaf(tokens, value.path, theme).value, theme, seen + [value.path])))
  }

  /** What the source says of a path in a theme: the literal its aliases reach, thinned out by the
      alphas on the way; nothing when they reach none. */
  function Said(tokens: Node, theme: string, path: Path): Option<string> {
    match Chase(tokens, Alias(path), theme, [], 1.0)
    case Found(literal, alpha) =>
      Some(if Tints(tokens, Alias(path), theme, []) then WithAlpha(Shown(literal), alpha) else Shown(literal))
    case _ => None
  }

  lemma {:induction false} TintsOfTrail(tokens: Node, theme: string, value: Value, trail: seq<Path>, seen: seq<Path>)
    requires IsLiteralTrail(tokens, theme, value, trail)
    requires forall p :: p in trail ==> p !in seen
    ensures Tints(tokens, value, theme, seen) <==> Tinted(tokens, theme, value, trail)
    decreases |trail|
  {
    if trail != [] {
      forall p | p in trail[1..]
        ensures p !in seen + [trail[0]]
      {
        var k :| 1 <= k < |trail| && trail[k] == p;
        LiteralTrailNeverRepeats(tokens, theme, value, trail, 0, k);
      }
      assert trail[0] in trail;
      TintsOfTrail(tokens, theme, Leaf(tokens, trail[0], theme).value, trail[1..], seen + [trail[0]]);
    }
  }

  lemma SaidOfTrail(tokens: Node, theme: string, path: Path, trail: seq<Path>)
    requires IsLiteralTrail(tokens, theme, Alias(path), trail)
    ensures Said(tokens, theme, path) == Some(SaidOn(tokens, theme, Alias(path), trail))
  {
    TintsOfTrail(tokens, theme, Alias(path), trail, []);
    ChaseSucceedsExactly(tokens, Alias(path), theme, End(tokens, theme, Alias(path), trail),
                         TrailAlpha(tokens, theme, Alias(path), trail));
  }

  lemma TrailOfSaid(tokens: Node, theme: string, path: Path) returns (trail: seq<Path>)
    requires Said(tokens, theme, path).Some?
    ensures IsLiteralTrail(tokens, theme, Alias(path), trail)
  {
    trail := ChaseFollowsATrail(tokens, Alias(path), theme, [], 1.0);
  }

  /** The source says one thing of a path, whatever the theme. */
  predicate SaysTheSame(tokens: Node, path: Path) {
    Said(tokens, DARK, path).Some? && Said(tokens, DARK, path) == Said(tokens, LIGHT, path)
  }

  /** Of every plain token that becomes a property the source says one thing, whatever the theme. */
  predicate PlainSaysTheSame(tokens: Node) {
    forall pair :: pair in PlainLeaves(tokens, PLAIN) ==> SaysTheSame(tokens, pair.0)
  }

  predicate IsPlain(path: Path) {
    path != [] && path[0] in PLAIN
  }

  predicate IsThemed(path: Path) {
    path != [] && path[0] in THEMED
  }

  /** The path and leaf pairs that become a custom property in a theme. */
  function EmittedLeaves(tokens: Node, theme: string): seq<(Path, Token)> {
    PlainLeaves(tokens, PLAIN) + ThemedLeaves(tokens, theme)
  }

  predicate Emitted(tokens: Node, theme: string, path: Path) {
    exists pair :: pair in EmittedLeaves(tokens, theme) && pair.0 == path
  }

  /** The theme a path's own value is compiled in. */
  function CompiledIn(path: Path, theme: string): string {
    if IsThemed(path) then theme else DARK
  }

  /** Two emitted paths never share a name: `css_name` forgets case, and what separates words. */
  ghost predicate NamesTellPathsApart(tokens: Node) {
    forall p, q, s, t :: (s in THEMES && t in THEMES && Emitted(tokens, s, p) && Emitted(tokens, t, q)
                          && CssName(p) == CssName(q)) ==> p == q
  }

  /** Every `var()` of the stylesheet names a property the stylesheet declares. */
  ghost predicate VarsAreDeclared(tokens: Node) {
    forall theme, pair :: (theme in THEMES && pair in EmittedLeaves(tokens, theme)
                           && pair.1.alpha.None? && pair.1.value.Alias?)
      ==> Emitted(tokens, CompiledIn(pair.0, theme), pair.1.value.path)
  }

  /** The themes hold the themed groups and nothing else. */
  ghost predicate ThemesHoldThemed(tokens: Node) {
    forall theme, pair :: theme in THEMES && pair in ThemedLeaves(tokens, theme) ==> IsThemed(pair.0)
  }

  /** A path each of whose keys an alias can name, and a dotted name keeps apart from the next. */
  predicate IsDotless(path: Path) {
    path != [] && forall part :: part in path ==> '.' !in part
  }

  ghost predicate KeysHoldNoDot(tokens: Node) {
    forall theme, pair :: theme in THEMES && pair in ThemedLeaves(tokens, theme) ==> IsDotless(pair.0)
  }

  /** A file `validate` accepts, whose names and references are in order. */
  ghost predicate Ready(tokens: Node) {
    && DistinctKeys(tokens)
    && Validated(tokens)
    && ThemesHoldThemed(tokens)
    && KeysHoldNoDot(tokens)
    && NamesTellPathsApart(tokens)
    && VarsAreDeclared(tokens)
  }

  /** The plain groups alias one another and nothing else: they say the same in every theme. */
  ghost predicate PlainIsClosed(tokens: Node) {
    forall path {:trigger LeafAt(tokens, path, DARK)} ::
      IsPlain(path) && LeafAt(tokens, path, DARK) && Leaf(tokens, path, DARK).value.Alias?
      ==> IsPlain(Leaf(tokens, path, DARK).value.path)
  }
}
