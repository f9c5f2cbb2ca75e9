/**
 The tree of design tokens and the chase of an alias to its literal
 (scripts/generate_design_system.py, "Reading the tree").

 A token file is a tree of objects. An object that carries a `$value` is a leaf; every other one is
 a group. A value is either an alias `{a.b.c}`, which names a path of the tree, or a literal.
 */
module Tokens {
  import opened Options

  type Path = seq<string>

  /** What `$value` holds. The regular expression that recognises an alias is outside the model. */
  datatype Value =
    | Alias(path: Path)
    | Text(text: string)
    | Number(shown: string)
    | Flag(on: bool)

  /** What a leaf carries: its `$value`, `$type` and `$alpha`. */
  datatype Token = Token(value: Value, kind: Option<string>, alpha: Option<real>)

  /** An object of the file: a leaf when it has a `$value`, and its keys that do not begin with `$`
      or hold objects. */
  datatype Node = Node(token: Option<Token>, entries: seq<Entry>)

  datatype Entry = Entry(key: string, node: Node)

  const DARK := "dark"
  const LIGHT := "light"
  const THEMES := [DARK, LIGHT]
  const THEMED: set<string> := {"color", "shadow", "tone"}
  const RECORDS: set<Path> := {["contrast", "pairs"]}

  predicate IsLeaf(node: Node) {
    node.token.Some?
  }

  predicate Hidden(key: string) {
    key != "" && key[0] == '$'
  }

  function Child(entries: seq<Entry>, key: string): Option<Node> {
    if entries == [] then None
    else if entries[0].key == key then Some(entries[0].node)
    else Child(entries[1..], key)
  }

  /** The walk of `node_at`: one key of an object per part of the path. */
  function Walk(node: Node, path: Path): Option<Node>
    decreases |path|
  {
    if path == [] then Some(node)
    else
      match Child(node.entries, path[0])
      case None => None
      case Some(child) => Walk(child, path[1..])
  }

  /** A themed path is looked up inside its theme, every other path from the top of the file. */
  function NodeAt(tokens: Node, path: Path, theme: string): Option<Node> {
    if path != [] && path[0] in THEMED then
      match Child(tokens.entries, theme)
      case None => None
      case Some(top) => Walk(top, path)
    else
      Walk(tokens, path)
  }

  /** An object of the file holds a key once. */
  predicate DistinctKeys(node: Node) {
    DistinctIn(node.entries)
  }

  predicate DistinctIn(entries: seq<Entry>) {
    entries == [] ||
    (Child(entries[1..], entries[0].key).None? && DistinctKeys(entries[0].node) && DistinctIn(entries[1..]))
  }

  // ------------------------------------------------------------------------------------------
  // The leaves of a tree
  // ------------------------------------------------------------------------------------------

  /** Every leaf under `node` with its path, in the order of the file. */
  function Leaves(node: Node, path: Path): seq<(Path, Token)> {
    if IsLeaf(node) then [(path, node.token.value)]
    else if path in RECORDS then []
    else LeavesIn(node.entries, path)
  }

  function LeavesIn(entries: seq<Entry>, path: Path): seq<(Path, Token)> {
    if entries == [] then []
    else
      (if Hidden(entries[0].key) then [] else Leaves(entries[0].node, path + [entries[0].key]))
      + LeavesIn(entries[1..], path)
  }

  /** `below` leads from `node`, found at `path`, to a leaf without crossing another leaf, a record
      or a hidden key. */
  predicate Reached(node: Node, path: Path, below: Path)
    decreases |below|
  {
    if below == [] then IsLeaf(node)
    else
      && !IsLeaf(node)
      && path !in RECORDS
      && !Hidden(below[0])
      && Child(node.entries, below[0]).Some?
      && Reached(Child(node.entries, below[0]).value, path + [below[0]], below[1..])
  }

  predicate Holds(node: Option<Node>, token: Token) {
    node.Some? && node.value.token == Some(token)
  }

  /** `Leaves` lists exactly the leaves a walk reaches: each at its own path, none left out. */
  lemma {:induction false} LeavesExact(node: Node, path: Path, at: Path, token: Token)
    requires DistinctKeys(node)
    ensures (at, token) in Leaves(node, path)
       <==> path <= at && Reached(node, path, at[|path|..]) && Holds(Walk(node, at[|path|..]), token)
    decreases node
  {
    if IsLeaf(node) {
      if path <= at && Reached(node, path, at[|path|..]) {
        assert at == path + at[|path|..] == path;
      }
    } else if path !in RECORDS {
      LeavesInExact(node.entries, path, at, token);
    }
  }

  lemma {:induction false} LeavesInExact(entries: seq<Entry>, path: Path, at: Path, token: Token)
    requires DistinctIn(entries)
    ensures (at, token) in LeavesIn(entries, path)
       <==> && path < at && !Hidden(at[|path|])
            && Child(entries, at[|path|]).Some?
            && Reached(Child(entries, at[|path|]).value, path + [at[|path|]], at[|path| + 1..])
            && Holds(Walk(Child(entries, at[|path|]).value, at[|path| + 1..]), token)
    decreases entries
  {
    if entries != [] {
      var key := entries[0].key;
      LeavesExact(entries[0].node, path + [key], at, token);
      LeavesInExact(entries[1..], path, at, token);
      if path < at && at[|path|] == key {
        assert path + [key] <= at;
      }
    }
  }

  // ------------------------------------------------------------------------------------------
  // Chasing an alias
  // ------------------------------------------------------------------------------------------

  /** What the chase of an alias ends in: a literal and the alpha gathered, or a refusal. */
  datatype Chased =
    | Found(literal: Value, alpha: real)
    | Cycle(path: Path)
    | NamesNothing(path: Path)
    | NamesAGroup(path: Path)

  function AlphaOf(leaf: Token): real {
    match leaf.alpha
    case None => 1.0
    case Some(alpha) => alpha
  }

  /** The alpha gathered once `leaf` has been passed. */
  function Through(alpha: real, leaf: Token): real {
    alpha * AlphaOf(leaf)
  }

  ghost function Elements(paths: seq<Path>): set<Path> {
    set p | p in paths
  }

  /** Every path a walk from `node` can take: the measure of the chase. */
  ghost function Places(node: Node): set<Path> {
    {[]} + PlacesIn(node.entries)
  }

  ghost function PlacesIn(entries: seq<Entry>): set<Path> {
    if entries == [] then {}
    else (set below | below in Places(entries[0].node) :: [entries[0].key] + below) + PlacesIn(entries[1..])
  }

  ghost function Universe(tokens: Node, theme: string): set<Path> {
    Places(tokens) + (match Child(tokens.entries, theme) case None => {} case Some(top) => Places(top))
  }

  lemma {:induction false} WalkStaysInPlaces(node: Node, path: Path)
    requires Walk(node, path).Some?
    ensures path in Places(node)
    decreases path, 1, 0
  {
    if path != [] {
      ChildStaysInPlaces(node.entries, path);
    }
  }

  lemma {:induction false} ChildStaysInPlaces(entries: seq<Entry>, path: Path)
    requires path != [] && Child(entries, path[0]).Some?
    requires Walk(Child(entries, path[0]).value, path[1..]).Some?
    ensures path in PlacesIn(entries)
    decreases path, 0, entries
  {
    if entries[0].key == path[0] {
      WalkStaysInPlaces(entries[0].node, path[1..]);
      assert path == [entries[0].key] + path[1..];
    } else {
      ChildStaysInPlaces(entries[1..], path);
    }
  }

  lemma NodesAreInTheUniverse(tokens: Node, path: Path, theme: string)
    requires NodeAt(tokens, path, theme).Some?
    ensures path in Universe(tokens, theme)
  {
    if path != [] && path[0] in THEMED {
      WalkStaysInPlaces(Child(tokens.entries, theme).value, path);
    } else {
      WalkStaysInPlaces(tokens, path);
    }
  }

  /** `colour_of` from a value, the paths already followed and the alpha gathered so far. */
  function Chase(tokens: Node, value: Value, theme: string, seen: seq<Path>, alpha: real): Chased
    decreases Universe(tokens, theme) - Elements(seen)
  {
    if !value.Alias? then Found(value, alpha)
    else if value.path in seen then Cycle(value.path)
    else
      match NodeAt(tokens, value.path, theme)
      case None => NamesNothing(value.path)
      case Some(node) =>
        if !IsLeaf(node) then NamesAGroup(value.path)
        else
          NodesAreInTheUniverse(tokens, value.path, theme);
          assert value.path in Universe(tokens, theme) - Elements(seen);
          assert value.path !in Universe(tokens, theme) - Elements(seen + [value.path]);
          assert Universe(tokens, theme) - Elements(seen + [value.path]) <= Universe(tokens, theme) - Elements(seen);
          Chase(tokens, node.token.value.value, theme, seen + [value.path], Through(alpha, node.token.value))
  }

  /** `colour_of`: the loop over `seen`, `alpha` and `value`. */
  method ColourOf(tokens: Node, start: Value, theme: string) returns (r: Chased)
    ensures r == Chase(tokens, start, theme, [], 1.0)
  {
    var seen: seq<Path>, alpha, value := [], 1.0, start;
    while value.Alias?
      invariant Chase(tokens, value, theme, seen, alpha) == Chase(tokens, start, theme, [], 1.0)
      decreases Universe(tokens, theme) - Elements(seen)
    {
      var path := value.path;
      if path in seen {
        return Cycle(path);
      }
      var node := NodeAt(tokens, path, theme);
      if node.None? {
        return NamesNothing(path);
      }
      if !IsLeaf(node.value) {
        return NamesAGroup(path);
      }
      NodesAreInTheUniverse(tokens, path, theme);
      assert path in Universe(tokens, theme) - Elements(seen);
      assert path !in Universe(tokens, theme) - Elements(seen + [path]);
      var leaf := node.value.token.value;
      seen, alpha, value := seen + [path], Through(alpha, leaf), leaf.value;
    }
    r := Found(value, alpha);
  }

  // ------------------------------------------------------------------------------------------
  // Trails: what a chain of aliases is, with no loop and no list of what was seen
  // ------------------------------------------------------------------------------------------

  predicate LeafAt(tokens: Node, path: Path, theme: string) {
    NodeAt(tokens, path, theme).Some? && IsLeaf(NodeAt(tokens, path, theme).value)
  }

  function Leaf(tokens: Node, path: Path, theme: string): Token
    requires LeafAt(tokens, path, theme)
  {
    NodeAt(tokens, path, theme).value.token.value
  }

  /** The paths of `trail` are leaves, the first named by `value` and each by the one before it. */
  predicate IsTrail(tokens: Node, theme: string, value: Value, trail: seq<Path>)
    decreases |trail|
  {
    trail == [] ||
    (value == Alias(trail[0]) && LeafAt(tokens, trail[0], theme) &&
     IsTrail(tokens, theme, Leaf(tokens, trail[0], theme).value, trail[1..]))
  }

  /** The value a trail leads to. */
  function End(tokens: Node, theme: string, value: Value, trail: seq<Path>): Value
    requires IsTrail(tokens, theme, value, trail)
    decreases |trail|
  {
    if trail == [] then value else End(tokens, theme, Leaf(tokens, trail[0], theme).value, trail[1..])
  }

  /** The alphas of the leaves on a trail, 1 where a leaf carries none. */
  function Alphas(tokens: Node, theme: string, value: Value, trail: seq<Path>): seq<real>
    requires IsTrail(tokens, theme, value, trail)
    decreases |trail|
  {
    if trail == [] then []
    else
      var leaf := Leaf(tokens, trail[0], theme);
      [AlphaOf(leaf)] + Alphas(tokens, theme, leaf.value, trail[1..])
  }

  function Product(factors: seq<real>): real {
    if factors == [] then 1.0 else factors[0] * Product(factors[1..])
  }

  /** The product of the alphas on a trail. */
  function TrailAlpha(tokens: Node, theme: string, value: Value, trail: seq<Path>): real
    requires IsTrail(tokens, theme, value, trail)
  {
    Product(Alphas(tokens, theme, value, trail))
  }

  predicate IsLiteralTrail(tokens: Node, theme: string, value: Value, trail: seq<Path>) {
    IsTrail(tokens, theme, value, trail) && !End(tokens, theme, value, trail).Alias?
  }

  /** The first `n` paths of a trail are a trail, and the others are one from where it leads. */
  lemma {:induction false} TrailSplits(tokens: Node, theme: string, value: Value, trail: seq<Path>, n: nat)
    requires IsTrail(tokens, theme, value, trail) && n <= |trail|
    ensures IsTrail(tokens, theme, value, trail[..n])
    ensures IsTrail(tokens, theme, End(tokens, theme, value, trail[..n]), trail[n..])
    ensures End(tokens, theme, End(tokens, theme, value, trail[..n]), trail[n..]) == End(tokens, theme, value, trail)
    ensures n < |trail| ==> End(tokens, theme, value, trail[..n]) == Alias(trail[n])
    decreases n
  {
    if n == 0 {
      assert trail[0..] == trail;
    } else {
      TrailSplits(tokens, theme, Leaf(tokens, trail[0], theme).value, trail[1..], n - 1);
      assert trail[..n][1..] == trail[1..][..n - 1];
      assert trail[n..] == trail[1..][n - 1..];
    }
  }

  /** From one value at most one trail reaches a literal: a token names one thing. */
  lemma {:induction false} LiteralTrailIsUnique(tokens: Node, theme: string, value: Value, a: seq<Path>, b: seq<Path>)
    requires IsLiteralTrail(tokens, theme, value, a) && IsLiteralTrail(tokens, theme, value, b)
    ensures a == b
    decreases |a|
  {
    if a != [] && b != [] {
      LiteralTrailIsUnique(tokens, theme, Leaf(tokens, a[0], theme).value, a[1..], b[1..]);
      assert a == [a[0]] + a[1..] && b == [b[0]] + b[1..];
    }
  }

  /** A trail that reaches a literal never repeats a path, so refusing a repeat refuses no literal. */
  lemma LiteralTrailNeverRepeats(tokens: Node, theme: string, value: Value, trail: seq<Path>, i: nat, j: nat)
    requires IsLiteralTrail(tokens, theme, value, trail)
    requires i < j < |trail|
    ensures trail[i] != trail[j]
  {
    if trail[i] == trail[j] {
      TrailSplits(tokens, theme, value, trail, i);
      TrailSplits(tokens, theme, value, trail, j);
      LiteralTrailIsUnique(tokens, theme, Alias(trail[i]), trail[i..], trail[j..]);
      assert false;
    }
  }

  /** `chased` is what there is at the end of `trail`, `seen` and `alpha` being what came before it. */
  predicate Accounts(tokens: Node, theme: string, value: Value, trail: seq<Path>, seen: seq<Path>, alpha: real,
                     chased: Chased)
    requires IsTrail(tokens, theme, value, trail)
  {
    var end := End(tokens, theme, value, trail);
    match chased
    case Found(literal, gathered) =>
      end == literal && !literal.Alias? && gathered == alpha * TrailAlpha(tokens, theme, value, trail)
    case Cycle(again) => end == Alias(again) && again in seen + trail
    case NamesNothing(name) => end == Alias(name) && NodeAt(tokens, name, theme).None?
    case NamesAGroup(name) =>
      end == Alias(name) && NodeAt(tokens, name, theme).Some? && !LeafAt(tokens, name, theme)
  }

  /** What the chase did: the trail it followed, and what it met at the end of it. */
  lemma {:induction false} ChaseFollowsATrail(tokens: Node, value: Value, theme: string, seen: seq<Path>, alpha: real)
    returns (trail: seq<Path>)
    ensures IsTrail(tokens, theme, value, trail)
    ensures Accounts(tokens, theme, value, trail, seen, alpha, Chase(tokens, value, theme, seen, alpha))
    decreases Universe(tokens, theme) - Elements(seen)
  {
    if !value.Alias? || value.path in seen || !LeafAt(tokens, value.path, theme) {
      trail := [];
    } else {
      var leaf := Leaf(tokens, value.path, theme);
      NodesAreInTheUniverse(tokens, value.path, theme);
      assert value.path in Universe(tokens, theme) - Elements(seen);
      assert value.path !in Universe(tokens, theme) - Elements(seen + [value.path]);
      var rest := ChaseFollowsATrail(tokens, leaf.value, theme, seen + [value.path], Through(alpha, leaf));
      trail := [value.path] + rest;
      assert trail[1..] == rest;
      assert seen + trail == seen + [value.path] + rest;
      var tail := TrailAlpha(tokens, theme, leaf.value, rest);
      var alphas := Alphas(tokens, theme, value, trail);
      assert alphas[1..] == Alphas(tokens, theme, leaf.value, rest);
      assert Through(alpha, leaf) * tail == alpha * (AlphaOf(leaf) * tail);
    }
  }

  /** No alias leads on from `value`: it is a literal, or names nothing, or names a group. */
  predicate Stopped(tokens: Node, theme: string, value: Value) {
    !(value.Alias? && LeafAt(tokens, value.path, theme))
  }

  /** Every trail from a value is the beginning of one that cannot go on. */
  lemma {:induction false} TrailIsAPrefix(tokens: Node, theme: string, value: Value, trail: seq<Path>, whole: seq<Path>)
    requires IsTrail(tokens, theme, value, trail) && IsTrail(tokens, theme, value, whole)
    requires Stopped(tokens, theme, End(tokens, theme, value, whole))
    ensures trail <= whole
    decreases |trail|
  {
    if trail != [] {
      assert whole != [];
      TrailIsAPrefix(tokens, theme, Leaf(tokens, trail[0], theme).value, trail[1..], whole[1..]);
      assert whole == [whole[0]] + whole[1..] && trail == [trail[0]] + trail[1..];
    }
  }

  /** The chase succeeds exactly when a chain of aliases reaches a literal; then it returns that
      literal and the product of the alphas on the chain. */
  lemma ChaseSucceedsExactly(tokens: Node, value: Value, theme: string, literal: Value, alpha: real)
    ensures Chase(tokens, value, theme, [], 1.0) == Found(literal, alpha)
       <==> exists trail ::
              && IsLiteralTrail(tokens, theme, value, trail)
              && End(tokens, theme, value, trail) == literal
              && TrailAlpha(tokens, theme, value, trail) == alpha
  {
    var followed := ChaseFollowsATrail(tokens, value, theme, [], 1.0);
    if Chase(tokens, value, theme, [], 1.0) == Found(literal, alpha) {
      assert IsLiteralTrail(tokens, theme, value, followed);
    }
    forall trail | IsLiteralTrail(tokens, theme, value, trail)
      ensures Chase(tokens, value, theme, [], 1.0)
           == Found(End(tokens, theme, value, trail), TrailAlpha(tokens, theme, value, trail))
    {
      ChaseReachesTheLiteral(tokens, value, theme, trail, followed);
    }
  }

  lemma ChaseReachesTheLiteral(tokens: Node, value: Value, theme: string, trail: seq<Path>, followed: seq<Path>)
    requires IsLiteralTrail(tokens, theme, value, trail)
    requires IsTrail(tokens, theme, value, followed)
    requires Accounts(tokens, theme, value, followed, [], 1.0, Chase(tokens, value, theme, [], 1.0))
    ensures Chase(tokens, value, theme, [], 1.0)
         == Found(End(tokens, theme, value, trail), TrailAlpha(tokens, theme, value, trail))
  {
    TrailIsAPrefix(tokens, theme, value, followed, trail);
    TrailSplits(tokens, theme, value, trail, |followed|);
    assert trail[..|followed|] == followed;
    if Chase(tokens, value, theme, [], 1.0).Found? {
      LiteralTrailIsUnique(tokens, theme, value, followed, trail);
    } else {
      // The chain goes on after what the chase met: its next path is a leaf not met before.
      assert |followed| < |trail|;
      var next := trail[|followed|];
      assert LeafAt(tokens, next, theme);
      var i :| 0 <= i < |followed| && followed[i] == next;
      LiteralTrailNeverRepeats(tokens, theme, value, trail, i, |followed|);
      assert false;
    }
  }

  /** The chase says "cycle" exactly when the chain of aliases comes back to a path it passed. */
  lemma CycleIsSaidExactly(tokens: Node, value: Value, theme: string)
    ensures Chase(tokens, value, theme, [], 1.0).Cycle?
       <==> exists trail :: IsLasso(tokens, theme, value, trail)
  {
    var followed := ChaseFollowsATrail(tokens, value, theme, [], 1.0);
    if Chase(tokens, value, theme, [], 1.0).Cycle? {
      assert IsLasso(tokens, theme, value, followed);
    } else if trail :| IsLasso(tokens, theme, value, trail) {
      var longer := LassoNeverEnds(tokens, theme, value, trail, |followed| + 1);
      TrailIsAPrefix(tokens, theme, value, longer, followed);
      assert false;
    }
  }

  /** A trail that leads back to a path it passed. */
  predicate IsLasso(tokens: Node, theme: string, value: Value, trail: seq<Path>) {
    && IsTrail(tokens, theme, value, trail)
    && End(tokens, theme, value, trail).Alias?
    && End(tokens, theme, value, trail).path in trail
  }

  lemma {:induction false} LassoNeverEnds(tokens: Node, theme: string, value: Value, trail: seq<Path>, n: nat)
    returns (longer: seq<Path>)
    requires IsLasso(tokens, theme, value, trail)
    ensures IsTrail(tokens, theme, value, longer) && |longer| >= n
    decreases n - |trail|
  {
    if n <= |trail| {
      longer := trail;
    } else {
      var next := End(tokens, theme, value, trail).path;
      var i :| 0 <= i < |trail| && trail[i] == next;
      TrailSplits(tokens, theme, value, trail, i);
      TrailExtends(tokens, theme, value, trail, next);
      TrailSplits(tokens, theme, value, trail, i + 1);
      var start, tail := End(tokens, theme, value, trail[..i]), trail[i..];
      assert tail[..1] == [next] && tail[1..] == trail[i + 1..];
      assert End(tokens, theme, start, tail)
          == End(tokens, theme, Leaf(tokens, next, theme).value, tail[1..]);
      if i + 1 < |trail| {
        assert Leaf(tokens, next, theme).value == Alias(trail[i + 1]);
      } else {
        assert tail[1..] == [];
      }
      longer := LassoNeverEnds(tokens, theme, value, trail + [next], n);
    }
  }

  /** A trail goes on through the leaf it leads to. */
  lemma {:induction false} TrailExtends(tokens: Node, theme: string, value: Value, trail: seq<Path>, next: Path)
    requires IsTrail(tokens, theme, value, trail) && End(tokens, theme, value, trail) == Alias(next)
    requires LeafAt(tokens, next, theme)
    ensures IsTrail(tokens, theme, value, trail + [next])
    ensures End(tokens, theme, value, trail + [next]) == Leaf(tokens, next, theme).value
    decreases |trail|
  {
    if trail == [] {
      assert trail + [next] == [next];
    } else {
      TrailExtends(tokens, theme, Leaf(tokens, trail[0], theme).value, trail[1..], next);
      assert (trail + [next])[1..] == trail[1..] + [next];
    }
  }
}
