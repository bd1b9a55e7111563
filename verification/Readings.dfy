/**
 What a rule makes of the input, without a run in sight: a relation between positions and
 shapes of trees, one clause for each combinator. It says which lexemes are held, under which
 kind and in which order, and which nodes there are around them.
 */
module Readings {
  import opened Languages
  import opened Grammars
  import opened TokenStreams
  import opened Sources
  import opened Rules
  import opened Engine
  import ListRule

  // -------------------------------------------------------------------------- shapes

  /** A tree without its ids. */
  datatype Shape = Shape(kind: Kind, tokens: seq<Lexeme>, children: seq<Shape>)

  /** What a rule hands to its caller: nothing, a node, or nodes without one around them. */
  datatype Yield = Nothing | One(shape: Shape) | Several(shapes: seq<Shape>)

  /** As children of a node that takes the result apart. */
  function Parts(y: Yield): seq<Shape> {
    match y
    case Nothing => []
    case One(x) => [x]
    case Several(xs) => xs
  }

  /** As children of a node that takes the result as it is; nodes without one around them get a container. */
  function Whole(y: Yield): seq<Shape> {
    match y
    case Nothing => []
    case One(x) => [x]
    case Several(xs) => [Shape(NO_KIND, [], xs)]
  }

  function Grouped(kind: Option<Kind>, xs: seq<Shape>): Yield {
    if kind.None? then Several(xs) else One(Shape(kind.value, [], xs))
  }

  function Leaves(kind: Kind, ls: seq<Lexeme>): seq<Shape> {
    seq(|ls|, i requires 0 <= i < |ls| => Shape(kind, [ls[i]], []))
  }

  function ShapeOf(t: Tree): Shape
    decreases t, 1
  {
    Shape(t.kind, t.tokens, ShapesOf(t.children))
  }

  function ShapesOf(ts: seq<Tree>): (xs: seq<Shape>)
    ensures |xs| == |ts| && forall i :: 0 <= i < |ts| ==> xs[i] == ShapeOf(ts[i])
    decreases ts, 0
  {
    if ts == [] then [] else [ShapeOf(ts[0])] + ShapesOf(ts[1..])
  }

  function YieldOf(r: Result): Yield
    requires r.Success?
  {
    if r.node.None? then Nothing
    else if r.isFragment then Several(ShapesOf(r.node.value.children))
    else One(ShapeOf(r.node.value))
  }

  // ------------------------------------------------------------------------ readings

  /** The next token shown at c is t, and d is just past it. */
  predicate Taking(src: Source, c: Position, d: Position, t: Token) {
    Within(src, c) && PeekAt(src, c, 0).token == t && d == Advance(src, c)
  }

  /** From c to d a list of the given kind is written, with these element lexemes. */
  ghost predicate ListRead(src: Source, c: Position, d: Position, spec: ListRule.ListSpec, ls: seq<Lexeme>) {
    Within(src, c) && exists w :: ListRule.IsList(spec, w) && Reads(src, c, w, d) && ls == ListRule.ElementsRead(src, c, w, spec)
  }

  /** The rule reads the input from c to d and makes y of it; references nest at most h deep. */
  ghost predicate Builds(m: Setup, h: nat, rule: Rule, c: Position, d: Position, y: Yield)
    decreases h, rule, 0, 0
  {
    match rule.body
    case Expect(tokens, kind) =>
      && Within(m.src, c) && PeekAt(m.src, c, 0).token in tokens && d == Advance(m.src, c)
      && y == if kind.None? then Nothing else One(Shape(kind.value, [PeekAt(m.src, c, 0)], []))
    case ListOf(spec, listKind, elementKind) =>
      exists ls :: ListRead(m.src, c, d, spec, ls) && y == One(Shape(listKind, [], Leaves(elementKind, ls)))
    case Sequence(kind, rules) => exists xs :: BuildsAll(m, h, rules, c, d, xs) && y == Grouped(kind, xs)
    case Wrap(kind, inner) => exists z :: Builds(m, h, inner, c, d, z) && y == One(Shape(kind, [], Parts(z)))
    case Root(kind, rules) => exists xs :: BuildsAll(m, h, rules, c, d, xs) && y == One(Shape(kind, [], xs))
    case Choice(rules) => exists i :: 0 <= i < |rules| && Builds(m, h, rules[i], c, d, y)
    case Optional(inner) => (c == d && y == Nothing) || Builds(m, h, inner, c, d, y)
    case OptionalWhen(_, inner) => (c == d && y == Nothing) || Builds(m, h, inner, c, d, y)
    case Predict(_, inner) => Builds(m, h, inner, c, d, y)
    case Required(inner) => Builds(m, h, inner, c, d, y)
    case RecoverSync(inner) => Builds(m, h, inner, c, d, y)
    case OptionalSuffix(kind, inner, suffix) =>
      || Builds(m, h, inner, c, d, y)
      || (exists e: nat, z :: Builds(m, h, inner, c, e, z) && Taking(m.src, e, d, suffix)
                              && y == One(Shape(kind, [PeekAt(m.src, e, 0)], Whole(z))))
    case Repetition(kind, min, inner) =>
      exists n: nat, xs :: n >= min && BuildsRounds(m, h, inner, n, c, d, xs) && y == Grouped(kind, xs)
    case BoundedRepetition(kind, min, max, inner) =>
      exists n: nat, xs :: n >= min && (max.Some? ==> n <= max.value) && BuildsRounds(m, h, inner, n, c, d, xs) && y == Grouped(kind, xs)
    case Nest(kind, open, close, inner) =>
      exists e: nat, f: nat, z ::
        && Taking(m.src, c, e, open) && Builds(m, h, inner, e, f, z) && Taking(m.src, f, d, close)
        && y == if kind.None? then z else One(Shape(kind.value, [], Parts(z)))
    case Prefixed(prefix, inner) => exists e: nat :: Taking(m.src, c, e, prefix) && Builds(m, h, inner, e, d, y)
    case Reference(target) => target in m.registry && h > 0 && Builds(m, h - 1, m.registry[target], c, d, y)
  }

  /** The rules one after the other; what they make is lined up. */
  ghost predicate BuildsAll(m: Setup, h: nat, rules: seq<Rule>, c: Position, d: Position, xs: seq<Shape>)
    decreases h, rules, 0, 0
  {
    if rules == [] then c == d && xs == []
    else exists e: nat, y, more :: Builds(m, h, rules[0], c, e, y) && BuildsAll(m, h, rules[1..], e, d, more) && xs == Parts(y) + more
  }

  /** The rule n times. */
  ghost predicate BuildsRounds(m: Setup, h: nat, rule: Rule, n: nat, c: Position, d: Position, xs: seq<Shape>)
    decreases h, rule, 1, n
  {
    if n == 0 then c == d && xs == []
    else exists e: nat, y, more :: Builds(m, h, rule, c, e, y) && BuildsRounds(m, h, rule, n - 1, e, d, more) && xs == Parts(y) + more
  }

  // --------------------------------------------------------- more nesting, same reading

  lemma {:induction false} BuildsHigher(m: Setup, h: nat, rule: Rule, c: Position, d: Position, y: Yield)
    requires Builds(m, h, rule, c, d, y)
    ensures Builds(m, h + 1, rule, c, d, y)
    decreases h, rule, 0, 0
  {
    if AroundOne(rule.body) {
      OneHigher(m, h, rule, c, d, y);
    } else if rule.body.Repetition? || rule.body.BoundedRepetition? {
      LoopHigher(m, h, rule, c, d, y);
    } else {
      match rule.body
      case Expect(_, _) =>
      case ListOf(_, _, _) =>
      case Sequence(kind, rules) =>
        var xs :| BuildsAll(m, h, rules, c, d, xs) && y == Grouped(kind, xs);
        AllHigher(m, h, rules, c, d, xs);
      case Root(kind, rules) =>
        var xs :| BuildsAll(m, h, rules, c, d, xs) && y == One(Shape(kind, [], xs));
        AllHigher(m, h, rules, c, d, xs);
      case Choice(rules) =>
        var i :| 0 <= i < |rules| && Builds(m, h, rules[i], c, d, y);
        BuildsHigher(m, h, rules[i], c, d, y);
      case Reference(target) => BuildsHigher(m, h - 1, m.registry[target], c, d, y);
    }
  }

  lemma {:induction false} LoopHigher(m: Setup, h: nat, rule: Rule, c: Position, d: Position, y: Yield)
    requires Builds(m, h, rule, c, d, y) && (rule.body.Repetition? || rule.body.BoundedRepetition?)
    ensures Builds(m, h + 1, rule, c, d, y)
    decreases h, rule.body.inner, 2, 0
  {
    var inner, min := rule.body.inner, rule.body.min;
    var max := if rule.body.Repetition? then None else rule.body.max;
    var n: nat, xs :| n >= min && (max.Some? ==> n <= max.value) && BuildsRounds(m, h, inner, n, c, d, xs) && y == Grouped(rule.body.repeatKind, xs);
    RoundsHigher(m, h, inner, n, c, d, xs);
  }

  predicate AroundOne(b: Body) {
    b.Wrap? || b.Optional? || b.OptionalWhen? || b.Predict? || b.Required? || b.RecoverSync? || b.OptionalSuffix? || b.Nest? || b.Prefixed?
  }

  lemma {:induction false} OneHigher(m: Setup, h: nat, rule: Rule, c: Position, d: Position, y: Yield)
    requires Builds(m, h, rule, c, d, y) && AroundOne(rule.body)
    ensures Builds(m, h + 1, rule, c, d, y)
    decreases h, rule.body.inner, 2, 0
  {
    var inner := rule.body.inner;
    match rule.body
    case OptionalSuffix(kind, _, suffix) =>
      if Builds(m, h, inner, c, d, y) {
        BuildsHigher(m, h, inner, c, d, y);
      } else {
        var e: nat, z :| Builds(m, h, inner, c, e, z) && Taking(m.src, e, d, suffix)
                         && y == One(Shape(kind, [PeekAt(m.src, e, 0)], Whole(z)));
        BuildsHigher(m, h, inner, c, e, z);
      }
    case Nest(kind, open, close, _) =>
      var e: nat, f: nat, z :| && Taking(m.src, c, e, open) && Builds(m, h, inner, e, f, z) && Taking(m.src, f, d, close)
                               && y == if kind.None? then z else One(Shape(kind.value, [], Parts(z)));
      BuildsHigher(m, h, inner, e, f, z);
    case Wrap(kind, _) =>
      var z :| Builds(m, h, inner, c, d, z) && y == One(Shape(kind, [], Parts(z)));
      BuildsHigher(m, h, inner, c, d, z);
    case Prefixed(prefix, _) =>
      var e: nat :| Taking(m.src, c, e, prefix) && Builds(m, h, inner, e, d, y);
      BuildsHigher(m, h, inner, e, d, y);
    case Optional(_) =>
      if Builds(m, h, inner, c, d, y) {
        BuildsHigher(m, h, inner, c, d, y);
      }
    case OptionalWhen(_, _) =>
      if Builds(m, h, inner, c, d, y) {
        BuildsHigher(m, h, inner, c, d, y);
      }
    case Predict(_, _) => BuildsHigher(m, h, inner, c, d, y);
    case Required(_) => BuildsHigher(m, h, inner, c, d, y);
    case RecoverSync(_) => BuildsHigher(m, h, inner, c, d, y);
  }

  lemma {:induction false} AllHigher(m: Setup, h: nat, rules: seq<Rule>, c: Position, d: Position, xs: seq<Shape>)
    requires BuildsAll(m, h, rules, c, d, xs)
    ensures BuildsAll(m, h + 1, rules, c, d, xs)
    decreases h, rules, 0, 0
  {
    if rules != [] {
      var e: nat, y, more :| Builds(m, h, rules[0], c, e, y) && BuildsAll(m, h, rules[1..], e, d, more) && xs == Parts(y) + more;
      BuildsHigher(m, h, rules[0], c, e, y);
      AllHigher(m, h, rules[1..], e, d, more);
    }
  }

  lemma {:induction false} RoundsHigher(m: Setup, h: nat, rule: Rule, n: nat, c: Position, d: Position, xs: seq<Shape>)
    requires BuildsRounds(m, h, rule, n, c, d, xs)
    ensures BuildsRounds(m, h + 1, rule, n, c, d, xs)
    decreases h, rule, 1, n
  {
    if n > 0 {
      var e: nat, y, more :| Builds(m, h, rule, c, e, y) && BuildsRounds(m, h, rule, n - 1, e, d, more) && xs == Parts(y) + more;
      BuildsHigher(m, h, rule, c, e, y);
      RoundsHigher(m, h, rule, n - 1, e, d, more);
    }
  }

  // ------------------------------------------------------------- readings at any depth

  ghost predicate Built(m: Setup, rule: Rule, c: Position, d: Position, y: Yield) {
    exists h: nat :: Builds(m, h, rule, c, d, y)
  }

  ghost predicate BuiltAll(m: Setup, rules: seq<Rule>, c: Position, d: Position, xs: seq<Shape>) {
    exists h: nat :: BuildsAll(m, h, rules, c, d, xs)
  }

  ghost predicate BuiltRounds(m: Setup, rule: Rule, n: nat, c: Position, d: Position, xs: seq<Shape>) {
    exists h: nat :: BuildsRounds(m, h, rule, n, c, d, xs)
  }

  lemma {:induction false} BuildsUpTo(m: Setup, h: nat, k: nat, rule: Rule, c: Position, d: Position, y: Yield)
    requires Builds(m, h, rule, c, d, y) && h <= k
    ensures Builds(m, k, rule, c, d, y)
    decreases k - h
  {
    if h < k {
      BuildsHigher(m, h, rule, c, d, y);
      BuildsUpTo(m, h + 1, k, rule, c, d, y);
    }
  }

  lemma {:induction false} AllUpTo(m: Setup, h: nat, k: nat, rules: seq<Rule>, c: Position, d: Position, xs: seq<Shape>)
    requires BuildsAll(m, h, rules, c, d, xs) && h <= k
    ensures BuildsAll(m, k, rules, c, d, xs)
    decreases k - h
  {
    if h < k {
      AllHigher(m, h, rules, c, d, xs);
      AllUpTo(m, h + 1, k, rules, c, d, xs);
    }
  }

  lemma {:induction false} RoundsUpTo(m: Setup, h: nat, k: nat, rule: Rule, n: nat, c: Position, d: Position, xs: seq<Shape>)
    requires BuildsRounds(m, h, rule, n, c, d, xs) && h <= k
    ensures BuildsRounds(m, k, rule, n, c, d, xs)
    decreases k - h
  {
    if h < k {
      RoundsHigher(m, h, rule, n, c, d, xs);
      RoundsUpTo(m, h + 1, k, rule, n, c, d, xs);
    }
  }

  lemma {:induction false} BuiltThenAll(m: Setup, rules: seq<Rule>, c: Position, e: Position, d: Position, y: Yield, more: seq<Shape>)
    requires rules != [] && Built(m, rules[0], c, e, y) && BuiltAll(m, rules[1..], e, d, more)
    ensures BuiltAll(m, rules, c, d, Parts(y) + more)
  {
    var h: nat :| Builds(m, h, rules[0], c, e, y);
    var k: nat :| BuildsAll(m, k, rules[1..], e, d, more);
    var top := if h < k then k else h;
    BuildsUpTo(m, h, top, rules[0], c, e, y);
    AllUpTo(m, k, top, rules[1..], e, d, more);
    assert BuildsAll(m, top, rules, c, d, Parts(y) + more);
  }

  lemma {:induction false} BuiltThenRounds(m: Setup, rule: Rule, n: nat, c: Position, e: Position, d: Position, y: Yield, more: seq<Shape>)
    requires Built(m, rule, c, e, y) && BuiltRounds(m, rule, n, e, d, more)
    ensures BuiltRounds(m, rule, n + 1, c, d, Parts(y) + more)
  {
    var h: nat :| Builds(m, h, rule, c, e, y);
    var k: nat :| BuildsRounds(m, k, rule, n, e, d, more);
    var top := if h < k then k else h;
    BuildsUpTo(m, h, top, rule, c, e, y);
    RoundsUpTo(m, k, top, rule, n, e, d, more);
    assert BuildsRounds(m, top, rule, n + 1, c, d, Parts(y) + more);
  }

  lemma BuildsNone(m: Setup, c: Position)
    ensures BuiltAll(m, [], c, c, [])
  {
    assert BuildsAll(m, 0, [], c, c, []);
  }

  lemma RoundsNone(m: Setup, rule: Rule, c: Position)
    ensures BuiltRounds(m, rule, 0, c, c, [])
  {
    assert BuildsRounds(m, 0, rule, 0, c, c, []);
  }
}
