/**
 The language of the Pratt parser. With no negative left power the parser, started at
 minimum 0, accepts exactly the flat words: operands joined by operators, whatever the
 powers.
 */
module PrattLanguage {
  import opened Languages
  import opened Grammars
  import opened Pratt

  // ----------------------------------------------------------------- flat words

  /** Any number of prefix operators, then a primary. */
  ghost predicate Operand(cfg: Config, w: Word) {
    w != [] && if w[0] in cfg.prefixMap then Operand(cfg, w[1..]) else cfg.primary(w) == Some(|w|)
  }

  datatype Suffix = SPost(op: Token) | SInfix(op: Token, operand: Word) | SImplicit(operand: Word)

  ghost predicate FlatSuffix(cfg: Config, x: Suffix) {
    match x
    case SPost(op) => op in cfg.postfixMap
    case SInfix(op, operand) => op in cfg.infixMap && Operand(cfg, operand)
    case SImplicit(operand) => cfg.implicitOp.Some? && Operand(cfg, operand)
  }

  ghost predicate FlatTail(cfg: Config, tail: seq<Suffix>) {
    forall x :: x in tail ==> FlatSuffix(cfg, x)
  }

  function SuffixText(x: Suffix): Word {
    match x
    case SPost(op) => [op]
    case SInfix(op, operand) => [op] + operand
    case SImplicit(operand) => operand
  }

  function Text(tail: seq<Suffix>): Word {
    if tail == [] then [] else SuffixText(tail[0]) + Text(tail[1..])
  }

  ghost predicate FlatAs(cfg: Config, w: Word, o: Word, tail: seq<Suffix>) {
    Operand(cfg, o) && FlatTail(cfg, tail) && w == o + Text(tail)
  }

  /** An operand followed by postfix operators and by further operands behind an infix or implicit operator. */
  ghost predicate Flat(cfg: Config, w: Word) {
    exists o, tail :: FlatAs(cfg, w, o, tail)
  }

  ghost function FlatLang(cfg: Config): Language {
    iset w: Word | Flat(cfg, w)
  }

  ghost predicate NonNegative(cfg: Config) {
    && (forall t :: t in cfg.postfixMap ==> cfg.postfixMap[t].leftBP >= 0)
    && (forall t :: t in cfg.infixMap ==> cfg.infixMap[t].leftBP >= 0)
    && (cfg.implicitOp.Some? ==> cfg.implicitOp.value.leftBP >= 0)
  }

  lemma RejectedEverywhere(cfg: Config, rest: Word, minBP: int)
    requires NonNegative(cfg) && !Accepts(cfg, rest, 0)
    ensures !Accepts(cfg, rest, minBP)
  {
    if rest != [] {
      var t := rest[0];
      assert t !in cfg.postfixMap && t !in cfg.infixMap;
    }
  }

  lemma {:induction false} OperandStart(cfg: Config, o: Word)
    requires ConfigOk(cfg) && cfg.implicitOp.Some? && Operand(cfg, o)
    ensures o[0] in cfg.predict && o[0] !in cfg.infixMap && o[0] !in cfg.postfixMap
  {
    assert Predicted(cfg, o);
  }

  /** Whether the loop may take the first suffix of a tail. */
  ghost function SuffixPower(cfg: Config, x: Suffix): int
    requires FlatSuffix(cfg, x)
  {
    match x
    case SPost(op) => cfg.postfixMap[op].leftBP
    case SInfix(op, _) => cfg.infixMap[op].leftBP
    case SImplicit(_) => cfg.implicitOp.value.leftBP
  }

  lemma SuffixAccepted(cfg: Config, x: Suffix, more: Word, minBP: int)
    requires ConfigOk(cfg) && FlatSuffix(cfg, x)
    ensures SuffixText(x) != []
    ensures Accepts(cfg, SuffixText(x) + more, minBP) <==> SuffixPower(cfg, x) >= minBP
  {
    if x.SImplicit? {
      OperandStart(cfg, x.operand);
    }
    assert (SuffixText(x) + more)[0] == SuffixText(x)[0];
  }

  // ---------------------------------------------- the parser reads flat words

  /** The parser, at any minimum, stops between two suffixes: at the end, or before one it rejects. */
  ghost predicate StopsAt(cfg: Config, r: Outcome, tail: seq<Suffix>, k: nat, rest: Word, minBP: int) {
    && k <= |tail| && r.Parsed? && r.rest == Text(tail[k..]) + rest
    && (k == |tail| || !Accepts(cfg, r.rest, minBP))
  }

  lemma {:induction false} FlatExpr(cfg: Config, o: Word, tail: seq<Suffix>, rest: Word, minBP: int) returns (k: nat)
    requires ConfigOk(cfg) && NonNegative(cfg) && !Accepts(cfg, rest, 0)
    requires Operand(cfg, o) && FlatTail(cfg, tail)
    ensures StopsAt(cfg, ParseExpr(cfg, o + (Text(tail) + rest), minBP), tail, k, rest, minBP)
    decreases |tail|, |o| + 1
  {
    var after := Text(tail) + rest;
    var s := o + after;
    k := 0;
    if o[0] in cfg.prefixMap {
      assert s[1..] == o[1..] + after;
      k := FlatExpr(cfg, o[1..], tail, rest, cfg.prefixMap[o[0]].rightBP);
    } else {
      assert Settled(cfg, o, after);
      assert s[..|o|] == o && s[|o|..] == after;
      assert tail[0..] == tail;
    }
    var r := ParsePrefix(cfg, s);
    var j := FlatLoop(cfg, r.tree, tail[k..], rest, minBP);
    assert tail[k..][j..] == tail[k + j..];
    k := k + j;
  }

  lemma {:induction false} FlatLoop(cfg: Config, left: Tree, tail: seq<Suffix>, rest: Word, minBP: int) returns (k: nat)
    requires ConfigOk(cfg) && NonNegative(cfg) && !Accepts(cfg, rest, 0)
    requires FlatTail(cfg, tail)
    ensures StopsAt(cfg, ParseLoop(cfg, left, Text(tail) + rest, minBP), tail, k, rest, minBP)
    decreases |tail|, 0, 1
  {
    var s := Text(tail) + rest;
    k := 0;
    if tail == [] {
      RejectedEverywhere(cfg, rest, minBP);
      assert s == rest;
    } else {
      var more := Text(tail[1..]) + rest;
      assert s == SuffixText(tail[0]) + more;
      SuffixAccepted(cfg, tail[0], more, minBP);
      if SuffixPower(cfg, tail[0]) >= minBP {
        k := FlatLoopTakes(cfg, left, tail, rest, minBP);
      }
    }
  }

  /** Continuing after the first k suffixes and then j more. */
  lemma StopsLater(cfg: Config, r: Outcome, tail: seq<Suffix>, k: nat, j: nat, rest: Word, minBP: int)
    requires k <= |tail| && StopsAt(cfg, r, tail[k..], j, rest, minBP)
    ensures StopsAt(cfg, r, tail, k + j, rest, minBP)
  {
    assert tail[k..][j..] == tail[k + j..];
  }

  lemma {:induction false} FlatLoopTakes(cfg: Config, left: Tree, tail: seq<Suffix>, rest: Word, minBP: int) returns (k: nat)
    requires ConfigOk(cfg) && NonNegative(cfg) && !Accepts(cfg, rest, 0)
    requires FlatTail(cfg, tail) && tail != [] && SuffixPower(cfg, tail[0]) >= minBP
    ensures StopsAt(cfg, ParseLoop(cfg, left, Text(tail) + rest, minBP), tail, k, rest, minBP)
    decreases |tail|, 0, 0
  {
    assert FlatSuffix(cfg, tail[0]);
    var next, i := left, 0;
    match tail[0] {
      case SPost(op) => next, i := TakesPost(cfg, left, op, tail, rest, minBP);
      case SInfix(op, operand) => next, i := TakesIn(cfg, left, op, operand, tail, rest, minBP);
      case SImplicit(operand) => next, i := TakesImp(cfg, left, operand, tail, rest, minBP);
    }
    k := FlatLoop(cfg, next, tail[i..], rest, minBP);
    StopsLater(cfg, ParseLoop(cfg, left, Text(tail) + rest, minBP), tail, i, k, rest, minBP);
    k := i + k;
  }

  /** One turn of the loop over the first suffix, which takes i suffixes in all. */
  ghost predicate Continues(cfg: Config, left: Tree, tail: seq<Suffix>, rest: Word, minBP: int, next: Tree, i: nat) {
    && 1 <= i <= |tail|
    && ParseLoop(cfg, left, Text(tail) + rest, minBP) == ParseLoop(cfg, next, Text(tail[i..]) + rest, minBP)
  }

  lemma TakesPost(cfg: Config, left: Tree, op: Token, tail: seq<Suffix>, rest: Word, minBP: int)
    returns (next: Tree, i: nat)
    requires tail != [] && tail[0] == SPost(op) && op in cfg.postfixMap && cfg.postfixMap[op].leftBP >= minBP
    ensures Continues(cfg, left, tail, rest, minBP, next, i)
  {
    next, i := Postfix(cfg.postfixMap[op].kind, left, op), 1;
    var more := Text(tail[1..]) + rest;
    assert Text(tail) + rest == [op] + more;
    assert ([op] + more)[1..] == more;
  }

  lemma {:induction false} InfixText(op: Token, operand: Word, tail: seq<Suffix>, rest: Word)
    requires tail != [] && tail[0] == SInfix(op, operand)
    ensures Text(tail) + rest == [op] + (operand + (Text(tail[1..]) + rest))
  {
    ConcatAssoc(operand, Text(tail[1..]), rest);
    ConcatAssoc([op], operand + Text(tail[1..]), rest);
    ConcatAssoc([op], operand, Text(tail[1..]));
  }

  lemma {:induction false} LoopTakesIn(cfg: Config, left: Tree, op: Token, more: Word, r: Outcome, minBP: int)
    requires TablesOk(cfg) && op in cfg.infixMap && cfg.infixMap[op].leftBP >= minBP
    requires r == ParseExpr(cfg, more, cfg.infixMap[op].rightBP) && r.Parsed?
    ensures ParseLoop(cfg, left, [op] + more, minBP) ==
            ParseLoop(cfg, Infix(cfg.infixMap[op].kind, left, op, r.tree), r.rest, minBP)
  {
    var s := [op] + more;
    assert s[0] == op && s[1..] == more;
    assert !TakesPostfix(cfg, s, minBP);
  }

  lemma {:induction false} LoopTakesImp(cfg: Config, left: Tree, operand: Word, more: Word, r: Outcome, minBP: int)
    requires ConfigOk(cfg) && cfg.implicitOp.Some? && cfg.implicitOp.value.leftBP >= minBP && Operand(cfg, operand)
    requires r == ParseExpr(cfg, operand + more, cfg.implicitOp.value.rightBP) && r.Parsed?
    ensures ParseLoop(cfg, left, operand + more, minBP) ==
            ParseLoop(cfg, Implicit(cfg.implicitOp.value.kind, left, r.tree), r.rest, minBP)
  {
    OperandStart(cfg, operand);
    var s := operand + more;
    assert s[0] == operand[0];
    assert !TakesPostfix(cfg, s, minBP) && !TakesInfix(cfg, s, minBP);
  }

  lemma {:induction false} TakesIn(cfg: Config, left: Tree, op: Token, operand: Word, tail: seq<Suffix>, rest: Word, minBP: int)
    returns (next: Tree, i: nat)
    requires ConfigOk(cfg) && NonNegative(cfg) && !Accepts(cfg, rest, 0)
    requires FlatTail(cfg, tail) && tail != [] && tail[0] == SInfix(op, operand)
    requires op in cfg.infixMap && Operand(cfg, operand) && cfg.infixMap[op].leftBP >= minBP
    ensures Continues(cfg, left, tail, rest, minBP, next, i)
    decreases |tail|, 0, 0, 0
  {
    var operands := operand + (Text(tail[1..]) + rest);
    var j := FlatExpr(cfg, operand, tail[1..], rest, cfg.infixMap[op].rightBP);
    var r := ParseExpr(cfg, operands, cfg.infixMap[op].rightBP);
    LoopTakesIn(cfg, left, op, operands, r, minBP);
    InfixText(op, operand, tail, rest);
    assert tail[1..][j..] == tail[1 + j..];
    next, i := Infix(cfg.infixMap[op].kind, left, op, r.tree), 1 + j;
  }

  lemma {:induction false} TakesImp(cfg: Config, left: Tree, operand: Word, tail: seq<Suffix>, rest: Word, minBP: int)
    returns (next: Tree, i: nat)
    requires ConfigOk(cfg) && NonNegative(cfg) && !Accepts(cfg, rest, 0)
    requires FlatTail(cfg, tail) && tail != [] && tail[0] == SImplicit(operand)
    requires cfg.implicitOp.Some? && Operand(cfg, operand) && cfg.implicitOp.value.leftBP >= minBP
    ensures Continues(cfg, left, tail, rest, minBP, next, i)
    decreases |tail|, 0, 0, 0
  {
    var more := Text(tail[1..]) + rest;
    var j := FlatExpr(cfg, operand, tail[1..], rest, cfg.implicitOp.value.rightBP);
    var r := ParseExpr(cfg, operand + more, cfg.implicitOp.value.rightBP);
    LoopTakesImp(cfg, left, operand, more, r, minBP);
    ConcatAssoc(operand, Text(tail[1..]), rest);
    assert tail[1..][j..] == tail[1 + j..];
    next, i := Implicit(cfg.implicitOp.value.kind, left, r.tree), 1 + j;
  }

  /** At minimum 0 nothing of a flat word is left over. */
  lemma {:induction false} FlatConsumed(cfg: Config, w: Word, rest: Word)
    requires ConfigOk(cfg) && NonNegative(cfg) && !Accepts(cfg, rest, 0) && Flat(cfg, w)
    ensures ParseExpr(cfg, w + rest, 0).Parsed? && ParseExpr(cfg, w + rest, 0).rest == rest
  {
    var o, tail :| FlatAs(cfg, w, o, tail);
    assert w + rest == o + (Text(tail) + rest);
    var k := FlatExpr(cfg, o, tail, rest, 0);
    if k < |tail| {
      TailAccepted(cfg, tail[k..], rest);
    }
    assert Text(tail[|tail|..]) + rest == rest;
  }

  lemma {:induction false} TailAccepted(cfg: Config, tail: seq<Suffix>, rest: Word)
    requires ConfigOk(cfg) && NonNegative(cfg) && FlatTail(cfg, tail) && tail != []
    ensures Accepts(cfg, Text(tail) + rest, 0)
  {
    var more := Text(tail[1..]) + rest;
    assert Text(tail) + rest == SuffixText(tail[0]) + more;
    assert FlatSuffix(cfg, tail[0]);
    SuffixAccepted(cfg, tail[0], more, 0);
  }

  // ----------------------------------------------------- flat words are closed

  lemma ConcatAssoc(a: Word, b: Word, c: Word)
    ensures a + (b + c) == (a + b) + c
  {
  }

  lemma {:induction false} TextAppend(x: seq<Suffix>, y: seq<Suffix>)
    ensures Text(x + y) == Text(x) + Text(y)
  {
    if x == [] {
      assert x + y == y;
    } else {
      TextAppend(x[1..], y);
      assert (x + y)[1..] == x[1..] + y;
      ConcatAssoc(SuffixText(x[0]), Text(x[1..]), Text(y));
    }
  }

  lemma FlatPrefix(cfg: Config, op: Token, w: Word)
    requires op in cfg.prefixMap && Flat(cfg, w)
    ensures Flat(cfg, [op] + w)
  {
    var o, tail :| FlatAs(cfg, w, o, tail);
    assert ([op] + o)[1..] == o;
    assert FlatAs(cfg, [op] + w, [op] + o, tail);
  }

  lemma {:induction false} FlatJoin(cfg: Config, w: Word, x: Suffix, tail: seq<Suffix>)
    requires Flat(cfg, w) && FlatSuffix(cfg, x) && FlatTail(cfg, tail)
    ensures Flat(cfg, w + (SuffixText(x) + Text(tail)))
  {
    var o, t :| FlatAs(cfg, w, o, t);
    var more := [x] + tail;
    assert Text(more) == SuffixText(x) + Text(tail) by { assert more[1..] == tail; }
    FlatMore(cfg, w, o, t, more);
  }

  lemma {:induction false} FlatMore(cfg: Config, w: Word, o: Word, tail: seq<Suffix>, more: seq<Suffix>)
    requires FlatAs(cfg, w, o, tail) && FlatTail(cfg, more)
    ensures Flat(cfg, w + Text(more))
  {
    var whole := tail + more;
    TextAppend(tail, more);
    ConcatAssoc(o, Text(tail), Text(more));
    assert w + Text(more) == o + Text(whole);
    FlatTails(cfg, tail, more);
    assert FlatAs(cfg, w + Text(more), o, whole);
  }

  lemma FlatTails(cfg: Config, tail: seq<Suffix>, more: seq<Suffix>)
    requires FlatTail(cfg, tail) && FlatTail(cfg, more)
    ensures FlatTail(cfg, tail + more)
  {
  }

  lemma FlatPostfix(cfg: Config, w: Word, op: Token)
    requires op in cfg.postfixMap && Flat(cfg, w)
    ensures Flat(cfg, w + [op])
  {
    FlatJoin(cfg, w, SPost(op), []);
    assert [op] + Text([]) == [op];
  }

  lemma FlatInfix(cfg: Config, w: Word, op: Token, v: Word)
    requires op in cfg.infixMap && Flat(cfg, w) && Flat(cfg, v)
    ensures Flat(cfg, w + ([op] + v))
  {
    var o, t :| FlatAs(cfg, v, o, t);
    FlatJoin(cfg, w, SInfix(op, o), t);
    assert [op] + o + Text(t) == [op] + v;
  }

  lemma FlatImplicit(cfg: Config, w: Word, v: Word)
    requires cfg.implicitOp.Some? && Flat(cfg, w) && Flat(cfg, v)
    ensures Flat(cfg, w + v)
  {
    var o, t :| FlatAs(cfg, v, o, t);
    FlatJoin(cfg, w, SImplicit(o), t);
  }

  lemma {:induction false} TreeIsFlat(cfg: Config, t: Tree, minBP: int)
    requires Fits(cfg, t, minBP)
    ensures Flat(cfg, Tokens(t))
    decreases t
  {
    match t {
      case Primary(tokens) =>
        assert tokens == tokens + Text([]);
        assert FlatAs(cfg, tokens, tokens, []);
      case Prefix(_, op, operand) =>
        TreeIsFlat(cfg, operand, cfg.prefixMap[op].rightBP);
        FlatPrefix(cfg, op, Tokens(operand));
      case Postfix(_, operand, op) =>
        TreeIsFlat(cfg, operand, minBP);
        FlatPostfix(cfg, Tokens(operand), op);
      case Infix(_, left, op, right) =>
        TreeIsFlat(cfg, left, minBP);
        TreeIsFlat(cfg, right, cfg.infixMap[op].rightBP);
        FlatInfix(cfg, Tokens(left), op, Tokens(right));
        assert Tokens(t) == Tokens(left) + ([op] + Tokens(right));
      case Implicit(_, left, right) =>
        TreeIsFlat(cfg, left, minBP);
        TreeIsFlat(cfg, right, cfg.implicitOp.value.rightBP);
        FlatImplicit(cfg, Tokens(left), Tokens(right));
    }
  }

  /**
   Binding powers shape the tree but not the language: started at minimum 0, the parser
   accepts a whole input iff it is operands joined by operators.
   */
  lemma {:induction false} FlatAcceptance(cfg: Config, w: Word)
    requires ConfigOk(cfg) && NonNegative(cfg)
    ensures (ParseExpr(cfg, w, 0).Parsed? && ParseExpr(cfg, w, 0).rest == []) <==> Flat(cfg, w)
  {
    var r := ParseExpr(cfg, w, 0);
    if Flat(cfg, w) {
      FlatConsumed(cfg, w, []);
      assert w + [] == w;
    }
    if r.Parsed? && r.rest == [] {
      ExprSound(cfg, w, 0);
      TreeIsFlat(cfg, r.tree, 0);
      assert w == Tokens(r.tree);
    }
  }
}
