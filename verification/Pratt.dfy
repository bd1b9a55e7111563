/**
 Pratt expression parsing over the visible tokens: a recursive loop driven by binding
 powers. An operator is taken when its left power reaches the current minimum, and its
 right side is parsed at its right power.
 */
module Pratt {
  import opened Languages
  import opened Grammars

  /** Client-defined node kind. */
  type Kind = int

  datatype PrefixInfo = PrefixInfo(rightBP: int, kind: Kind)
  datatype InfixInfo = InfixInfo(leftBP: int, rightBP: int, kind: Kind)
  datatype PostfixInfo = PostfixInfo(leftBP: int, kind: Kind)

  /**
   The resolved operator tables. primary says how many tokens the primary rule takes from
   the front of the input, if it matches; predict holds the tokens that may start an
   operand.
   */
  datatype Config = Config(
    eof: Token,
    primary: Word -> Option<nat>,
    prefixMap: map<Token, PrefixInfo>,
    infixMap: map<Token, InfixInfo>,
    postfixMap: map<Token, PostfixInfo>,
    implicitOp: Option<InfixInfo>,
    predict: set<Token>)

  datatype Tree =
    | Primary(tokens: Word)
    | Prefix(kind: Kind, op: Token, operand: Tree)
    | Postfix(kind: Kind, operand: Tree, op: Token)
    | Infix(kind: Kind, left: Tree, op: Token, right: Tree)
    | Implicit(kind: Kind, left: Tree, right: Tree)

  /** The tokens of a tree, in order. */
  function Tokens(t: Tree): Word {
    match t
    case Primary(tokens) => tokens
    case Prefix(_, op, operand) => [op] + Tokens(operand)
    case Postfix(_, operand, op) => Tokens(operand) + [op]
    case Infix(_, left, op, right) => Tokens(left) + [op] + Tokens(right)
    case Implicit(_, left, right) => Tokens(left) + Tokens(right)
  }

  datatype Outcome = Parsed(tree: Tree, rest: Word) | Failed

  // -------------------------------------------------------------- the algorithm

  function Peek(cfg: Config, s: Word): Token {
    if s == [] then cfg.eof else s[0]
  }

  function TakesPrefix(cfg: Config, s: Word): bool {
    s != [] && s[0] in cfg.prefixMap
  }

  function TakesPostfix(cfg: Config, s: Word, minBP: int): bool {
    s != [] && s[0] in cfg.postfixMap && cfg.postfixMap[s[0]].leftBP >= minBP
  }

  function TakesInfix(cfg: Config, s: Word, minBP: int): bool {
    s != [] && s[0] in cfg.infixMap && cfg.infixMap[s[0]].leftBP >= minBP
  }

  function TakesImplicit(cfg: Config, s: Word, minBP: int): bool {
    cfg.implicitOp.Some? && cfg.implicitOp.value.leftBP >= minBP && s != [] && s[0] in cfg.predict
  }

  function ParsePrimary(cfg: Config, s: Word): Outcome {
    match cfg.primary(s)
    case Some(n) => if 1 <= n <= |s| then Parsed(Primary(s[..n]), s[n..]) else Failed
    case None => Failed
  }

  /** parsePrattPrefix. */
  function ParsePrefix(cfg: Config, s: Word): (r: Outcome)
    ensures r.Parsed? ==> |r.rest| < |s|
    decreases |s|, 0
  {
    if TakesPrefix(cfg, s) then
      var info := cfg.prefixMap[s[0]];
      match ParseExpr(cfg, s[1..], info.rightBP)
      case Parsed(operand, rest) => Parsed(Prefix(info.kind, s[0], operand), rest)
      case Failed => Failed
    else ParsePrimary(cfg, s)
  }

  /** runPrattExpression. */
  function ParseExpr(cfg: Config, s: Word, minBP: int): (r: Outcome)
    ensures r.Parsed? ==> |r.rest| < |s|
    decreases |s|, 1
  {
    match ParsePrefix(cfg, s)
    case Parsed(left, rest) => ParseLoop(cfg, left, rest, minBP)
    case Failed => Failed
  }

  /** The loop of runPrattExpression. */
  function ParseLoop(cfg: Config, left: Tree, s: Word, minBP: int): (r: Outcome)
    ensures r.Parsed? ==> |r.rest| <= |s|
    decreases |s|, 2
  {
    if TakesPostfix(cfg, s, minBP) then
      ParseLoop(cfg, Postfix(cfg.postfixMap[s[0]].kind, left, s[0]), s[1..], minBP)
    else if TakesInfix(cfg, s, minBP) then
      var info := cfg.infixMap[s[0]];
      match ParseExpr(cfg, s[1..], info.rightBP)
      case Parsed(right, rest) => ParseLoop(cfg, Infix(info.kind, left, s[0], right), rest, minBP)
      case Failed => Failed
    else if TakesImplicit(cfg, s, minBP) then
      var info := cfg.implicitOp.value;
      match ParseExpr(cfg, s, info.rightBP)
      case Parsed(right, rest) => ParseLoop(cfg, Implicit(info.kind, left, right), rest, minBP)
      case Failed => Failed
    else Parsed(left, s)
  }

  // ------------------------------------------------------------- configurations

  /** What follows a primary does not change how much of s it takes. */
  ghost predicate Settled(cfg: Config, s: Word, rest: Word) {
    cfg.primary(s) == Some(|s|) <==> cfg.primary(s + rest) == Some(|s|)
  }

  /** An implicit operator is only tried on tokens that can start a primary. */
  ghost predicate Predicted(cfg: Config, s: Word) {
    s != [] && cfg.primary(s).Some? ==> s[0] in cfg.predict
  }

  ghost predicate PrimaryOk(cfg: Config) {
    && (forall s, rest :: Settled(cfg, s, rest))
    && (cfg.implicitOp.Some? ==> forall s :: Predicted(cfg, s))
  }

  /** The tables are unambiguous: no token can continue an expression in two ways. */
  ghost predicate TablesOk(cfg: Config) {
    && cfg.eof !in cfg.prefixMap && cfg.eof !in cfg.infixMap && cfg.eof !in cfg.postfixMap && cfg.eof !in cfg.predict
    && cfg.infixMap.Keys !! cfg.postfixMap.Keys
    && (cfg.implicitOp.Some? ==>
          && cfg.predict !! cfg.infixMap.Keys && cfg.predict !! cfg.postfixMap.Keys
          && cfg.prefixMap.Keys <= cfg.predict)
  }

  ghost predicate ConfigOk(cfg: Config) {
    PrimaryOk(cfg) && TablesOk(cfg)
  }

  // ------------------------------------------------------------ binding powers

  /** Some operator takes the next token at this minimum. */
  predicate Accepts(cfg: Config, s: Word, minBP: int) {
    TakesPostfix(cfg, s, minBP) || TakesInfix(cfg, s, minBP) || TakesImplicit(cfg, s, minBP)
  }

  /** The right powers of the operators whose right operand ends where the tree ends. */
  function RightEdge(cfg: Config, t: Tree): set<int> {
    match t
    case Primary(_) => {}
    case Postfix(_, _, _) => {}
    case Prefix(_, op, operand) =>
      (if op in cfg.prefixMap then {cfg.prefixMap[op].rightBP} else {}) + RightEdge(cfg, operand)
    case Infix(_, _, op, right) =>
      (if op in cfg.infixMap then {cfg.infixMap[op].rightBP} else {}) + RightEdge(cfg, right)
    case Implicit(_, _, right) =>
      (if cfg.implicitOp.Some? then {cfg.implicitOp.value.rightBP} else {}) + RightEdge(cfg, right)
  }

  /** A left operand must not be able to swallow the operator applied to it. */
  ghost predicate EdgeAbove(cfg: Config, t: Tree, leftBP: int) {
    forall p :: p in RightEdge(cfg, t) ==> leftBP < p
  }

  /** The binding-power conditions of a tree parsed at minBP. */
  ghost predicate Fits(cfg: Config, t: Tree, minBP: int) {
    match t
    case Primary(tokens) => cfg.primary(tokens) == Some(|tokens|) && tokens != [] && tokens[0] !in cfg.prefixMap
    case Prefix(kind, op, operand) =>
      && op in cfg.prefixMap && kind == cfg.prefixMap[op].kind
      && Fits(cfg, operand, cfg.prefixMap[op].rightBP)
    case Postfix(kind, operand, op) =>
      && op in cfg.postfixMap && kind == cfg.postfixMap[op].kind && cfg.postfixMap[op].leftBP >= minBP
      && Fits(cfg, operand, minBP) && EdgeAbove(cfg, operand, cfg.postfixMap[op].leftBP)
    case Infix(kind, left, op, right) =>
      && op in cfg.infixMap && kind == cfg.infixMap[op].kind && cfg.infixMap[op].leftBP >= minBP
      && Fits(cfg, left, minBP) && EdgeAbove(cfg, left, cfg.infixMap[op].leftBP)
      && Fits(cfg, right, cfg.infixMap[op].rightBP)
    case Implicit(kind, left, right) =>
      && cfg.implicitOp.Some? && kind == cfg.implicitOp.value.kind && cfg.implicitOp.value.leftBP >= minBP
      && Fits(cfg, left, minBP) && EdgeAbove(cfg, left, cfg.implicitOp.value.leftBP)
      && Fits(cfg, right, cfg.implicitOp.value.rightBP)
  }

  /** No operator waiting on the right edge would take the next token. */
  ghost predicate EdgeStops(cfg: Config, t: Tree, s: Word) {
    forall p :: p in RightEdge(cfg, t) ==> !Accepts(cfg, s, p)
  }

  /** What a successful run at minBP over s returns. */
  ghost predicate Decomposition(cfg: Config, s: Word, minBP: int, t: Tree, rest: Word) {
    && s == Tokens(t) + rest
    && Fits(cfg, t, minBP)
    && EdgeStops(cfg, t, rest)
    && !Accepts(cfg, rest, minBP)
  }

  /** An operand starts with a token from the predict set. */
  lemma {:induction false} StartsPredicted(cfg: Config, t: Tree, minBP: int)
    requires ConfigOk(cfg) && cfg.implicitOp.Some? && Fits(cfg, t, minBP)
    ensures Tokens(t) != [] && Tokens(t)[0] in cfg.predict
  {
    match t
    case Primary(tokens) => assert Predicted(cfg, tokens);
    case Prefix(_, _, _) =>
    case Postfix(_, operand, _) => StartsPredicted(cfg, operand, minBP);
    case Infix(_, left, _, _) => StartsPredicted(cfg, left, minBP);
    case Implicit(_, left, _) => StartsPredicted(cfg, left, minBP);
  }

  /** A left operand's edge stops before an operator whose left power lies below it. */
  lemma EdgeStopsBefore(cfg: Config, t: Tree, s: Word, leftBP: int)
    requires TablesOk(cfg) && EdgeAbove(cfg, t, leftBP) && s != []
    requires || (s[0] in cfg.postfixMap && cfg.postfixMap[s[0]].leftBP == leftBP)
             || (s[0] in cfg.infixMap && cfg.infixMap[s[0]].leftBP == leftBP)
             || (cfg.implicitOp.Some? && s[0] in cfg.predict && cfg.implicitOp.value.leftBP == leftBP)
    ensures EdgeStops(cfg, t, s)
  {
  }

  // ----------------------------------------------------------------- round trip

  /** The loop, with a finished right operand, wraps the left one and goes on. */
  lemma {:induction false} LoopTakesInfix(cfg: Config, left: Tree, op: Token, right: Tree, rest: Word, minBP: int)
    requires TablesOk(cfg) && op in cfg.infixMap && cfg.infixMap[op].leftBP >= minBP
    requires ParseExpr(cfg, Tokens(right) + rest, cfg.infixMap[op].rightBP) == Parsed(right, rest)
    ensures ParseLoop(cfg, left, [op] + (Tokens(right) + rest), minBP) ==
            ParseLoop(cfg, Infix(cfg.infixMap[op].kind, left, op, right), rest, minBP)
  {
    var s := [op] + (Tokens(right) + rest);
    assert s[0] == op && s[1..] == Tokens(right) + rest;
    assert !TakesPostfix(cfg, s, minBP);
  }

  lemma {:induction false} LoopTakesImplicit(cfg: Config, left: Tree, right: Tree, rest: Word, minBP: int)
    requires TablesOk(cfg) && cfg.implicitOp.Some? && cfg.implicitOp.value.leftBP >= minBP
    requires Tokens(right) != [] && Tokens(right)[0] in cfg.predict
    requires ParseExpr(cfg, Tokens(right) + rest, cfg.implicitOp.value.rightBP) == Parsed(right, rest)
    ensures ParseLoop(cfg, left, Tokens(right) + rest, minBP) ==
            ParseLoop(cfg, Implicit(cfg.implicitOp.value.kind, left, right), rest, minBP)
  {
    var s := Tokens(right) + rest;
    assert s[0] in cfg.predict;
    assert !TakesPostfix(cfg, s, minBP) && !TakesInfix(cfg, s, minBP);
  }

  lemma {:induction false} LoopStops(cfg: Config, t: Tree, rest: Word, minBP: int)
    requires !Accepts(cfg, rest, minBP)
    ensures ParseLoop(cfg, t, rest, minBP) == Parsed(t, rest)
  {
  }

  lemma {:induction false} ParsesPrimary(cfg: Config, tokens: Word, rest: Word, minBP: int)
    requires ConfigOk(cfg) && Fits(cfg, Primary(tokens), minBP)
    ensures ParseExpr(cfg, tokens + rest, minBP) == ParseLoop(cfg, Primary(tokens), rest, minBP)
  {
    var s := tokens + rest;
    assert Settled(cfg, tokens, rest);
    assert s[0] == tokens[0] && s[..|tokens|] == tokens && s[|tokens|..] == rest;
  }

  /** Parsing a tree's tokens brings the loop to that tree, with the rest still to read. */
  lemma {:induction false} ParseReachesTree(cfg: Config, t: Tree, rest: Word, minBP: int)
    requires ConfigOk(cfg) && Fits(cfg, t, minBP) && EdgeStops(cfg, t, rest)
    ensures ParseExpr(cfg, Tokens(t) + rest, minBP) == ParseLoop(cfg, t, rest, minBP)
    decreases t
  {
    match t {
      case Primary(tokens) =>
        ParsesPrimary(cfg, tokens, rest, minBP);
      case Prefix(_, op, operand) =>
        var bp := cfg.prefixMap[op].rightBP;
        assert bp in RightEdge(cfg, t);
        assert ([op] + Tokens(operand) + rest)[1..] == Tokens(operand) + rest;
        ParseReachesTree(cfg, operand, rest, bp);
      case Postfix(_, operand, op) =>
        var s := [op] + rest;
        assert Tokens(t) + rest == Tokens(operand) + s;
        assert s[1..] == rest;
        EdgeStopsBefore(cfg, operand, s, cfg.postfixMap[op].leftBP);
        ParseReachesTree(cfg, operand, s, minBP);
      case Infix(_, _, _, _) =>
        ParseReachesInfix(cfg, t, rest, minBP);
      case Implicit(_, _, _) =>
        ParseReachesImplicit(cfg, t, rest, minBP);
    }
  }

  /** The edges of an infix tree stop before what follows each of its operands. */
  lemma {:induction false} InfixEdges(cfg: Config, t: Tree, rest: Word, minBP: int)
    requires TablesOk(cfg) && t.Infix? && Fits(cfg, t, minBP) && EdgeStops(cfg, t, rest)
    ensures EdgeStops(cfg, t.left, [t.op] + (Tokens(t.right) + rest))
    ensures EdgeStops(cfg, t.right, rest) && !Accepts(cfg, rest, cfg.infixMap[t.op].rightBP)
  {
    assert cfg.infixMap[t.op].rightBP in RightEdge(cfg, t);
    EdgeStopsBefore(cfg, t.left, [t.op] + (Tokens(t.right) + rest), cfg.infixMap[t.op].leftBP);
  }

  lemma {:induction false} ParseReachesInfix(cfg: Config, t: Tree, rest: Word, minBP: int)
    requires ConfigOk(cfg) && t.Infix? && Fits(cfg, t, minBP) && EdgeStops(cfg, t, rest)
    ensures ParseExpr(cfg, Tokens(t) + rest, minBP) == ParseLoop(cfg, t, rest, minBP)
    decreases t, 0
  {
    var info := cfg.infixMap[t.op];
    var s := [t.op] + (Tokens(t.right) + rest);
    InfixEdges(cfg, t, rest, minBP);
    ParseReachesTree(cfg, t.left, s, minBP);
    ParseReachesTree(cfg, t.right, rest, info.rightBP);
    LoopStops(cfg, t.right, rest, info.rightBP);
    LoopTakesInfix(cfg, t.left, t.op, t.right, rest, minBP);
    assert Tokens(t) + rest == Tokens(t.left) + s;
  }

  lemma {:induction false} ParseReachesImplicit(cfg: Config, t: Tree, rest: Word, minBP: int)
    requires ConfigOk(cfg) && t.Implicit? && Fits(cfg, t, minBP) && EdgeStops(cfg, t, rest)
    ensures ParseExpr(cfg, Tokens(t) + rest, minBP) == ParseLoop(cfg, t, rest, minBP)
    decreases t, 0
  {
    var info := cfg.implicitOp.value;
    var s := Tokens(t.right) + rest;
    assert Tokens(t) + rest == Tokens(t.left) + s;
    assert info.rightBP in RightEdge(cfg, t);
    StartsPredicted(cfg, t.right, info.rightBP);
    assert s[0] == Tokens(t.right)[0];
    EdgeStopsBefore(cfg, t.left, s, info.leftBP);
    ParseReachesTree(cfg, t.left, s, minBP);
    ParseReachesTree(cfg, t.right, rest, info.rightBP);
    LoopStops(cfg, t.right, rest, info.rightBP);
    LoopTakesImplicit(cfg, t.left, t.right, rest, minBP);
  }

  /**
   Round trip: printing a tree that obeys the binding powers and parsing it back, before
   anything its operators would not take, returns exactly that tree and stops there.
   */
  lemma {:induction false} RoundTrip(cfg: Config, t: Tree, rest: Word, minBP: int)
    requires ConfigOk(cfg) && Decomposition(cfg, Tokens(t) + rest, minBP, t, rest)
    ensures ParseExpr(cfg, Tokens(t) + rest, minBP) == Parsed(t, rest)
  {
    ParseReachesTree(cfg, t, rest, minBP);
  }

  // ------------------------------------------------------------------ soundness

  lemma {:induction false} ExprSound(cfg: Config, s: Word, minBP: int)
    requires ConfigOk(cfg)
    ensures var r := ParseExpr(cfg, s, minBP); r.Parsed? ==> Decomposition(cfg, s, minBP, r.tree, r.rest)
    decreases |s|, 0
  {
    var r := ParsePrefix(cfg, s);
    if r.Parsed? {
      if TakesPrefix(cfg, s) {
        var bp := cfg.prefixMap[s[0]].rightBP;
        ExprSound(cfg, s[1..], bp);
        assert s == [s[0]] + s[1..];
      } else {
        var n := cfg.primary(s).value;
        assert s == s[..n] + s[n..];
        assert Settled(cfg, s[..n], s[n..]);
      }
      LoopSound(cfg, r.tree, r.rest, minBP);
    }
  }

  /** Having stopped at a power, taking the next operator puts its left power below it. */
  lemma StoppedMeansBelow(cfg: Config, left: Tree, s: Word, leftBP: int)
    requires EdgeStops(cfg, left, s) && s != []
    requires || (s[0] in cfg.postfixMap && cfg.postfixMap[s[0]].leftBP == leftBP)
             || (s[0] in cfg.infixMap && cfg.infixMap[s[0]].leftBP == leftBP)
             || (cfg.implicitOp.Some? && s[0] in cfg.predict && cfg.implicitOp.value.leftBP == leftBP)
    ensures EdgeAbove(cfg, left, leftBP)
  {
    forall p | p in RightEdge(cfg, left) ensures leftBP < p {
      assert !Accepts(cfg, s, p);
    }
  }

  lemma {:induction false} LoopSound(cfg: Config, left: Tree, s: Word, minBP: int)
    requires ConfigOk(cfg) && Fits(cfg, left, minBP) && EdgeStops(cfg, left, s)
    ensures var r := ParseLoop(cfg, left, s, minBP);
            r.Parsed? ==> Decomposition(cfg, Tokens(left) + s, minBP, r.tree, r.rest)
    decreases |s|, 2
  {
    if TakesPostfix(cfg, s, minBP) {
      var next := Postfix(cfg.postfixMap[s[0]].kind, left, s[0]);
      assert Tokens(next) + s[1..] == Tokens(left) + s;
      StoppedMeansBelow(cfg, left, s, cfg.postfixMap[s[0]].leftBP);
      LoopSound(cfg, next, s[1..], minBP);
    } else if TakesInfix(cfg, s, minBP) {
      InfixSound(cfg, left, s, minBP);
    } else if TakesImplicit(cfg, s, minBP) {
      ImplicitSound(cfg, left, s, minBP);
    }
  }

  lemma {:induction false} InfixTokens(left: Tree, kind: Kind, s: Word, right: Tree, rest: Word)
    requires s != [] && s[1..] == Tokens(right) + rest
    ensures Tokens(Infix(kind, left, s[0], right)) + rest == Tokens(left) + s
  {
    assert s == [s[0]] + s[1..];
    assert Tokens(left) + [s[0]] + Tokens(right) + rest == Tokens(left) + ([s[0]] + (Tokens(right) + rest));
  }

  lemma {:induction false} InfixNext(cfg: Config, left: Tree, s: Word, minBP: int, right: Tree, rest: Word)
    requires Fits(cfg, left, minBP) && EdgeStops(cfg, left, s) && TakesInfix(cfg, s, minBP)
    requires Decomposition(cfg, s[1..], cfg.infixMap[s[0]].rightBP, right, rest)
    ensures var next := Infix(cfg.infixMap[s[0]].kind, left, s[0], right);
            Fits(cfg, next, minBP) && EdgeStops(cfg, next, rest)
  {
    StoppedMeansBelow(cfg, left, s, cfg.infixMap[s[0]].leftBP);
  }

  lemma {:induction false} InfixSound(cfg: Config, left: Tree, s: Word, minBP: int)
    requires ConfigOk(cfg) && Fits(cfg, left, minBP) && EdgeStops(cfg, left, s)
    requires !TakesPostfix(cfg, s, minBP) && TakesInfix(cfg, s, minBP)
    ensures var r := ParseLoop(cfg, left, s, minBP);
            r.Parsed? ==> Decomposition(cfg, Tokens(left) + s, minBP, r.tree, r.rest)
    decreases |s|, 1
  {
    var info := cfg.infixMap[s[0]];
    ExprSound(cfg, s[1..], info.rightBP);
    var r := ParseExpr(cfg, s[1..], info.rightBP);
    if r.Parsed? {
      InfixNext(cfg, left, s, minBP, r.tree, r.rest);
      InfixTokens(left, info.kind, s, r.tree, r.rest);
      LoopSound(cfg, Infix(info.kind, left, s[0], r.tree), r.rest, minBP);
    }
  }

  lemma {:induction false} ImplicitNext(cfg: Config, left: Tree, s: Word, minBP: int, right: Tree, rest: Word)
    requires Fits(cfg, left, minBP) && EdgeStops(cfg, left, s) && TakesImplicit(cfg, s, minBP)
    requires Decomposition(cfg, s, cfg.implicitOp.value.rightBP, right, rest)
    ensures var next := Implicit(cfg.implicitOp.value.kind, left, right);
            Fits(cfg, next, minBP) && EdgeStops(cfg, next, rest) && Tokens(next) + rest == Tokens(left) + s
  {
    StoppedMeansBelow(cfg, left, s, cfg.implicitOp.value.leftBP);
  }

  lemma {:induction false} ImplicitSound(cfg: Config, left: Tree, s: Word, minBP: int)
    requires ConfigOk(cfg) && Fits(cfg, left, minBP) && EdgeStops(cfg, left, s)
    requires !TakesPostfix(cfg, s, minBP) && !TakesInfix(cfg, s, minBP) && TakesImplicit(cfg, s, minBP)
    ensures var r := ParseLoop(cfg, left, s, minBP);
            r.Parsed? ==> Decomposition(cfg, Tokens(left) + s, minBP, r.tree, r.rest)
    decreases |s|, 1, 1
  {
    var info := cfg.implicitOp.value;
    ExprSound(cfg, s, info.rightBP);
    var r := ParseExpr(cfg, s, info.rightBP);
    if r.Parsed? {
      ImplicitNext(cfg, left, s, minBP, r.tree, r.rest);
      LoopSound(cfg, Implicit(info.kind, left, r.tree), r.rest, minBP);
    }
  }

  /**
   The parser is characterised exactly: a run returns a tree and a rest iff they split the
   input, the tree obeys the binding powers, and no operator still in play takes the next
   token. A run fails iff no such split exists.
   */
  lemma {:induction false} PrattExact(cfg: Config, s: Word, minBP: int)
    requires ConfigOk(cfg)
    ensures forall t, rest :: ParseExpr(cfg, s, minBP) == Parsed(t, rest) <==> Decomposition(cfg, s, minBP, t, rest)
    ensures ParseExpr(cfg, s, minBP).Failed? <==> !exists t, rest :: Decomposition(cfg, s, minBP, t, rest)
  {
    ExprSound(cfg, s, minBP);
    forall t, rest | Decomposition(cfg, s, minBP, t, rest)
      ensures ParseExpr(cfg, s, minBP) == Parsed(t, rest)
    {
      RoundTrip(cfg, t, rest, minBP);
    }
  }

  /** At most one tree, and one stopping point, obeys the binding powers of an input. */
  lemma TreeUnique(cfg: Config, s: Word, minBP: int, t: Tree, rest: Word, u: Tree, rest': Word)
    requires ConfigOk(cfg)
    requires Decomposition(cfg, s, minBP, t, rest) && Decomposition(cfg, s, minBP, u, rest')
    ensures t == u && rest == rest'
  {
    PrattExact(cfg, s, minBP);
  }

  // --------------------------------------------------------------- associativity

  /** A single-token operand. */
  ghost predicate Atom(cfg: Config, a: Token) {
    cfg.primary([a]) == Some(1) && a !in cfg.prefixMap
  }

  /**
   A chain of one infix operator associates to the left exactly when its right power
   exceeds its left power, and to the right otherwise.
   */
  lemma {:induction false} Associativity(cfg: Config, op: Token, a: Token, b: Token, c: Token, minBP: int)
    requires ConfigOk(cfg) && op in cfg.infixMap && Atom(cfg, a) && Atom(cfg, b) && Atom(cfg, c)
    requires minBP <= cfg.infixMap[op].leftBP
    ensures var info := cfg.infixMap[op];
            ParseExpr(cfg, [a, op, b, op, c], minBP) ==
            Parsed(if info.rightBP > info.leftBP then LeftNested(info.kind, op, a, b, c) else RightNested(info.kind, op, a, b, c), [])
  {
    var info := cfg.infixMap[op];
    var l, r := LeftNested(info.kind, op, a, b, c), RightNested(info.kind, op, a, b, c);
    assert Fits(cfg, Primary([a]), minBP) && Fits(cfg, Primary([b]), minBP) && Fits(cfg, Primary([c]), info.rightBP);
    if info.rightBP > info.leftBP {
      assert RightEdge(cfg, l.left) == {info.rightBP};
      assert Tokens(l) + [] == [a, op, b, op, c];
      RoundTrip(cfg, l, [], minBP);
    } else {
      assert Tokens(r) + [] == [a, op, b, op, c];
      RoundTrip(cfg, r, [], minBP);
    }
  }

  function LeftNested(kind: Kind, op: Token, a: Token, b: Token, c: Token): (t: Tree)
    ensures Tokens(t) == [a, op, b, op, c]
  {
    var inner := Infix(kind, Primary([a]), op, Primary([b]));
    assert Tokens(inner) == [a, op, b];
    Infix(kind, inner, op, Primary([c]))
  }

  function RightNested(kind: Kind, op: Token, a: Token, b: Token, c: Token): (t: Tree)
    ensures Tokens(t) == [a, op, b, op, c]
  {
    var inner := Infix(kind, Primary([b]), op, Primary([c]));
    assert Tokens(inner) == [b, op, c];
    Infix(kind, Primary([a]), op, inner)
  }

  // -------------------------------------------------------------- the running parser

  /** The rule as it runs: a shared cursor over the visible tokens and a growing left operand. */
  class PrattParser {
    const cfg: Config
    const input: Word
    var pos: nat

    constructor (cfg: Config, input: Word)
      ensures this.cfg == cfg && this.input == input && pos == 0
    {
      this.cfg, this.input, pos := cfg, input, 0;
    }

    ghost predicate Valid()
      reads this
    {
      pos <= |input|
    }

    ghost function Rest(): Word
      reads this
      requires Valid()
    {
      input[pos..]
    }

    method PeekToken() returns (t: Token)
      requires Valid()
      ensures t == Peek(cfg, Rest())
    {
      if pos == |input| { return cfg.eof; }
      return input[pos];
    }

    method Consume() returns (t: Token)
      requires Valid() && pos < |input|
      modifies this
      ensures Valid() && t == old(Rest())[0] && Rest() == old(Rest())[1..] && pos == old(pos) + 1
    {
      t := input[pos];
      pos := pos + 1;
    }

    ghost predicate Agrees(ok: bool, tree: Tree, spec: Outcome)
      reads this
      requires Valid()
    {
      if ok then spec == Parsed(tree, Rest()) else spec.Failed?
    }

    /** parsePrattPrefix: a prefix operator with its operand, or a primary. */
    method RunPrefix() returns (ok: bool, tree: Tree)
      requires Valid() && TablesOk(cfg)
      modifies this
      ensures Valid() && old(pos) <= pos && Agrees(ok, tree, ParsePrefix(cfg, old(Rest())))
      decreases |input| - pos, 0
    {
      var peek := PeekToken();
      if peek in cfg.prefixMap {
        var info := cfg.prefixMap[peek];
        var op := Consume();
        ok, tree := RunExpression(info.rightBP);
        tree := Prefix(info.kind, op, tree);
        return;
      }
      var taken := cfg.primary(input[pos..]);
      if taken.None? || taken.value < 1 || taken.value > |input| - pos {
        return false, Primary([]);
      }
      ghost var before := Rest();
      tree := Primary(input[pos..pos + taken.value]);
      assert input[pos..pos + taken.value] == before[..taken.value];
      pos := pos + taken.value;
      assert Rest() == before[taken.value..];
      return true, tree;
    }

    /** runPrattExpression: takes operators while their left power reaches minBP. */
    method RunExpression(minBP: int) returns (ok: bool, left: Tree)
      requires Valid() && TablesOk(cfg)
      modifies this
      ensures Valid() && old(pos) <= pos && Agrees(ok, left, ParseExpr(cfg, old(Rest()), minBP))
      decreases |input| - pos, 1
    {
      ok, left := RunPrefix();
      if !ok { return; }
      ghost var goal := ParseExpr(cfg, old(Rest()), minBP);
      assert old(pos) < pos by {
        assert |Rest()| < |old(Rest())|;
      }
      while true
        invariant Valid() && old(pos) < pos
        invariant ParseLoop(cfg, left, Rest(), minBP) == goal
        decreases |input| - pos
      {
        var peek := PeekToken();
        if peek in cfg.postfixMap && cfg.postfixMap[peek].leftBP >= minBP {
          var op := Consume();
          left := Postfix(cfg.postfixMap[peek].kind, left, op);
          continue;
        }
        if peek in cfg.infixMap && cfg.infixMap[peek].leftBP >= minBP {
          var info := cfg.infixMap[peek];
          var op := Consume();
          var okRight, right := RunExpression(info.rightBP);
          if !okRight { return false, right; }
          left := Infix(info.kind, left, op, right);
          continue;
        }
        if cfg.implicitOp.Some? && cfg.implicitOp.value.leftBP >= minBP && peek in cfg.predict {
          var info := cfg.implicitOp.value;
          ghost var before := Rest();
          var okRight, right := RunExpression(info.rightBP);
          if !okRight { return false, right; }
          assert |Rest()| < |before|;
          left := Implicit(info.kind, left, right);
          continue;
        }
        return true, left;
      }
    }
  }
}
