/**
 The words of the level grammar, told from their operators' powers alone, and when they are
 all that the parser consumes.
 */
module PrattGrammarExact {
  import opened Languages
  import opened Grammars
  import opened Semantics
  import opened Orders
  import opened Pratt
  import opened PrattLanguage
  import opened PrattGrammar
  import opened PrattGrammarMeaning

  // -------------------------------------------------------- one way to read a flat word

  lemma {:induction false} OperandUnique(cfg: Config, o: Word, x: Word, p: Word, y: Word)
    requires ConfigOk(cfg) && Operand(cfg, o) && Operand(cfg, p) && o + x == p + y
    ensures o == p && x == y
    decreases |o|
  {
    var w := o + x;
    assert w[0] == o[0] == p[0];
    if o[0] in cfg.prefixMap {
      assert o[1..] + x == w[1..] == p[1..] + y;
      OperandUnique(cfg, o[1..], x, p[1..], y);
      assert o == [o[0]] + o[1..] && p == [p[0]] + p[1..];
    } else {
      assert Settled(cfg, o, x) && Settled(cfg, p, y);
      assert w[..|o|] == o && w[..|p|] == p && w[|o|..] == x && w[|p|..] == y;
    }
  }

  /** The first token of a suffix tells its kind. */
  lemma SuffixStart(cfg: Config, a: Suffix, x: Word)
    requires ConfigOk(cfg) && FlatSuffix(cfg, a)
    ensures SuffixText(a) + x != []
    ensures var t := (SuffixText(a) + x)[0];
            (t in cfg.postfixMap <==> a.SPost?) && (t in cfg.infixMap <==> a.SInfix?) && (!a.SImplicit? ==> a.op == t)
  {
    if a.SImplicit? {
      OperandStart(cfg, a.operand);
    }
  }

  lemma AfterToken(t: Token, x: Word)
    ensures ([t] + x)[1..] == x
  {
  }

  lemma SuffixUnique(cfg: Config, a: Suffix, x: Word, b: Suffix, y: Word)
    requires ConfigOk(cfg) && FlatSuffix(cfg, a) && FlatSuffix(cfg, b) && SuffixText(a) + x == SuffixText(b) + y
    ensures a == b && x == y
  {
    SuffixStart(cfg, a, x);
    SuffixStart(cfg, b, y);
    match a {
      case SPost(op) =>
        AfterToken(op, x);
        AfterToken(op, y);
      case SInfix(op, operand) =>
        ConcatAssoc([op], operand, x);
        ConcatAssoc([op], b.operand, y);
        AfterToken(op, operand + x);
        AfterToken(op, b.operand + y);
        OperandUnique(cfg, operand, x, b.operand, y);
      case SImplicit(operand) =>
        OperandUnique(cfg, operand, x, b.operand, y);
    }
  }

  lemma {:induction false} TextUnfolds(tail: seq<Suffix>)
    requires tail != []
    ensures Text(tail) == SuffixText(tail[0]) + Text(tail[1..])
  {
  }

  lemma {:induction false} SuffixNotEmpty(cfg: Config, tail: seq<Suffix>)
    requires ConfigOk(cfg) && FlatTail(cfg, tail) && tail != []
    ensures Text(tail) != []
  {
    assert FlatSuffix(cfg, tail[0]);
    SuffixAccepted(cfg, tail[0], [], 0);
  }

  lemma {:induction false} TailUnique(cfg: Config, s: seq<Suffix>, t: seq<Suffix>)
    requires ConfigOk(cfg) && FlatTail(cfg, s) && FlatTail(cfg, t) && Text(s) == Text(t)
    ensures s == t
    decreases |s|
  {
    if s == [] {
      if t != [] {
        SuffixNotEmpty(cfg, t);
      }
    } else {
      SuffixNotEmpty(cfg, s);
      TextUnfolds(s);
      TextUnfolds(t);
      SuffixUnique(cfg, s[0], Text(s[1..]), t[0], Text(t[1..]));
      TailUnique(cfg, s[1..], t[1..]);
      assert s == [s[0]] + s[1..] && t == [t[0]] + t[1..];
    }
  }

  /** A word is operands joined by operators in at most one way. */
  lemma FlatUnique(cfg: Config, w: Word, o: Word, s: seq<Suffix>, p: Word, t: seq<Suffix>)
    requires ConfigOk(cfg) && FlatAs(cfg, w, o, s) && FlatAs(cfg, w, p, t)
    ensures o == p && s == t
  {
    OperandUnique(cfg, o, Text(s), p, Text(t));
    TailUnique(cfg, s, t);
  }

  // ---------------------------------------------------------------- leveled words

  /** The right powers of an operand's prefix operators never fall from left to right, and start at m or above. */
  ghost predicate Rising(cfg: Config, o: Word, m: int)
    decreases |o|
  {
    o != [] && o[0] in cfg.prefixMap ==>
      cfg.prefixMap[o[0]].rightBP >= m && Rising(cfg, o[1..], cfg.prefixMap[o[0]].rightBP)
  }

  /** An operand behind an infix or implicit operator has no prefix operator looser than it. */
  ghost predicate SuffixLeveled(cfg: Config, x: Suffix) {
    FlatSuffix(cfg, x) && (!x.SPost? ==> Rising(cfg, x.operand, SuffixPower(cfg, x)))
  }

  /** Behind a postfix operator comes no tighter operator. */
  ghost predicate Falls(cfg: Config, x: Suffix, y: Suffix) {
    FlatSuffix(cfg, x) && FlatSuffix(cfg, y) && (x.SPost? ==> SuffixPower(cfg, y) <= SuffixPower(cfg, x))
  }

  ghost predicate LeveledTail(cfg: Config, tail: seq<Suffix>) {
    tail != [] ==>
      SuffixLeveled(cfg, tail[0]) && (|tail| > 1 ==> Falls(cfg, tail[0], tail[1])) && LeveledTail(cfg, tail[1..])
  }

  ghost predicate AtLeast(cfg: Config, x: Suffix, m: int) {
    FlatSuffix(cfg, x) && SuffixPower(cfg, x) >= m
  }

  ghost predicate TailAbove(cfg: Config, tail: seq<Suffix>, m: int) {
    forall x :: x in tail ==> AtLeast(cfg, x, m)
  }

  /** A leveled word whose first operand's prefix operators have powers from m on and whose other operators from n on. */
  ghost predicate LeveledAs(cfg: Config, w: Word, o: Word, tail: seq<Suffix>, m: int, n: int) {
    FlatAs(cfg, w, o, tail) && Rising(cfg, o, m) && LeveledTail(cfg, tail) && TailAbove(cfg, tail, n)
  }

  ghost predicate LeveledFrom(cfg: Config, w: Word, m: int, n: int) {
    exists o, tail :: LeveledAs(cfg, w, o, tail, m, n)
  }

  ghost function LeveledLang(cfg: Config, m: int, n: int): Language {
    iset w: Word | LeveledFrom(cfg, w, m, n)
  }

  /** The operators of w keep to their levels. */
  ghost predicate Leveled(cfg: Config, o: Word, tail: seq<Suffix>) {
    LeveledTail(cfg, tail) && (o != [] && o[0] in cfg.prefixMap ==> Rising(cfg, o[1..], cfg.prefixMap[o[0]].rightBP))
  }

  // ------------------------------------------------------------ the operators of a level

  predicate DeclaredOnce(config: PrattConfig) {
    && (forall i, j :: 0 <= i < j < |config.prefixOps| ==> config.prefixOps[i].token != config.prefixOps[j].token)
    && (forall i, j :: 0 <= i < j < |config.postfixOps| ==> config.postfixOps[i].token != config.postfixOps[j].token)
    && (forall i, j :: 0 <= i < j < |config.infixOps| ==> config.infixOps[i].token != config.infixOps[j].token)
  }

  predicate IsPrefixAt(cfg: Config, w: Word, bp: int) {
    |w| == 1 && w[0] in cfg.prefixMap && cfg.prefixMap[w[0]].rightBP == bp
  }

  predicate IsPostfixAt(cfg: Config, w: Word, bp: int) {
    |w| == 1 && w[0] in cfg.postfixMap && cfg.postfixMap[w[0]].leftBP == bp
  }

  predicate IsInfixAt(cfg: Config, w: Word, bp: int) {
    |w| == 1 && w[0] in cfg.infixMap && cfg.infixMap[w[0]].leftBP == bp
  }

  lemma {:induction false} PrefixesExact(cfg: Config, rules: Rules, config: PrattConfig, bp: int, w: Word)
    requires TablesFrom(cfg, config) && DeclaredOnce(config)
    ensures w in AltLang(Exact, rules, PrefixesAt(config.prefixOps, bp)) <==> IsPrefixAt(cfg, w, bp)
  {
    var ops := config.prefixOps;
    if w in AltLang(Exact, rules, PrefixesAt(ops, bp)) {
      var k := AltElim(rules, PrefixesAt(ops, bp), w);
      var i := PrefixesAtFrom(ops, bp, k);
      LangToken(Exact, rules, TokenNode(ops[i].grammarLabel, ops[i].token));
      PrefixTableHas(ops, i);
      var j := PrefixTableFrom(ops, ops[i].token);
    }
    if IsPrefixAt(cfg, w, bp) {
      var i := PrefixTableFrom(ops, w[0]);
      var k := PrefixesAtHas(ops, i);
      AltIntro(rules, PrefixesAt(ops, bp), k);
      LangToken(Exact, rules, TokenNode(ops[i].grammarLabel, ops[i].token));
      assert w == [w[0]];
    }
  }

  lemma {:induction false} PostfixesExact(cfg: Config, rules: Rules, config: PrattConfig, bp: int, w: Word)
    requires TablesFrom(cfg, config) && DeclaredOnce(config)
    ensures w in AltLang(Exact, rules, PostfixesAt(config.postfixOps, bp)) <==> IsPostfixAt(cfg, w, bp)
  {
    var ops := config.postfixOps;
    if w in AltLang(Exact, rules, PostfixesAt(ops, bp)) {
      var k := AltElim(rules, PostfixesAt(ops, bp), w);
      var i := PostfixesAtFrom(ops, bp, k);
      LangToken(Exact, rules, TokenNode(ops[i].grammarLabel, ops[i].token));
      PostfixTableHas(ops, i);
      var j := PostfixTableFrom(ops, ops[i].token);
    }
    if IsPostfixAt(cfg, w, bp) {
      var i := PostfixTableFrom(ops, w[0]);
      PostfixDerivable(rules, ops, i);
      assert w == [w[0]];
    }
  }

  lemma {:induction false} InfixesExact(cfg: Config, rules: Rules, config: PrattConfig, bp: int, w: Word)
    requires TablesFrom(cfg, config) && DeclaredOnce(config)
    ensures w in AltLang(Exact, rules, InfixesAt(config.infixOps, bp)) <==> IsInfixAt(cfg, w, bp)
  {
    var ops := config.infixOps;
    if w in AltLang(Exact, rules, InfixesAt(ops, bp)) {
      var k := AltElim(rules, InfixesAt(ops, bp), w);
      var i := InfixesAtFrom(ops, bp, k);
      LangToken(Exact, rules, TokenNode(ops[i].grammarLabel, ops[i].token));
      InfixTableHas(ops, i);
      var j := InfixTableFrom(ops, ops[i].token);
    }
    if IsInfixAt(cfg, w, bp) {
      var i := InfixTableFrom(ops, w[0]);
      InfixDerivable(rules, ops, i);
      assert w == [w[0]];
    }
  }

  // ------------------------------------------------- words of a level are leveled

  lemma {:induction false} RisingWeaker(cfg: Config, o: Word, m: int, n: int)
    requires Rising(cfg, o, m) && n <= m
    ensures Rising(cfg, o, n)
  {
  }

  lemma PrefixRises(cfg: Config, w: Word, bp: int, n: int, op: Token)
    requires op in cfg.prefixMap && cfg.prefixMap[op].rightBP == bp && LeveledFrom(cfg, w, bp, n)
    ensures LeveledFrom(cfg, [op] + w, bp, n)
  {
    var o, tail :| LeveledAs(cfg, w, o, tail, bp, n);
    assert ([op] + o)[1..] == o;
    ConcatAssoc([op], o, Text(tail));
    assert LeveledAs(cfg, [op] + w, [op] + o, tail, bp, n);
  }

  lemma {:induction false} LeveledJoin(cfg: Config, s: seq<Suffix>, t: seq<Suffix>)
    requires LeveledTail(cfg, s) && LeveledTail(cfg, t)
    requires s != [] && t != [] ==> Falls(cfg, s[|s| - 1], t[0])
    ensures LeveledTail(cfg, s + t)
    decreases |s|
  {
    if s == [] {
      assert s + t == t;
    } else {
      var rest := s[1..];
      assert (s + t)[1..] == rest + t && (s + t)[0] == s[0];
      assert |s| > 1 ==> rest[|rest| - 1] == s[|s| - 1] && (s + t)[1] == s[1];
      assert |s| == 1 && t != [] ==> (s + t)[1] == t[0];
      LeveledJoin(cfg, rest, t);
    }
  }

  lemma {:induction false} LeveledFlat(cfg: Config, tail: seq<Suffix>)
    requires LeveledTail(cfg, tail)
    ensures FlatTail(cfg, tail)
    decreases |tail|
  {
    if tail != [] {
      LeveledFlat(cfg, tail[1..]);
      assert tail == [tail[0]] + tail[1..];
    }
  }

  lemma {:induction false} LeveledOne(cfg: Config, x: Suffix, tail: seq<Suffix>)
    requires SuffixLeveled(cfg, x) && LeveledTail(cfg, tail) && (tail != [] ==> Falls(cfg, x, tail[0]))
    ensures LeveledTail(cfg, [x] + tail)
  {
    assert ([x] + tail)[1..] == tail;
  }

  /** A leveled word with powers from bp on, and behind it a suffix of power bp with what belongs to its operand. */
  lemma {:induction false} LeveledMore(cfg: Config, u: Word, x: Suffix, more: seq<Suffix>, bp: int)
    requires LeveledFrom(cfg, u, bp, bp) && SuffixLeveled(cfg, x) && SuffixPower(cfg, x) == bp
    requires LeveledTail(cfg, more) && TailAbove(cfg, more, bp) && (x.SPost? ==> more == [])
    ensures LeveledFrom(cfg, u + (SuffixText(x) + Text(more)), bp, bp)
  {
    var o, tail :| LeveledAs(cfg, u, o, tail, bp, bp);
    var t := [x] + more;
    assert more != [] ==> AtLeast(cfg, more[0], bp);
    LeveledOne(cfg, x, more);
    assert Text(t) == SuffixText(x) + Text(more) by {
      assert t[1..] == more;
    }
    assert tail != [] ==> AtLeast(cfg, tail[|tail| - 1], bp);
    LeveledJoin(cfg, tail, t);
    LeveledFlat(cfg, tail + t);
    TextAppend(tail, t);
    ConcatAssoc(o, Text(tail), Text(t));
    assert LeveledAs(cfg, u + Text(t), o, tail + t, bp, bp);
  }

  lemma BodyLeveled(cfg: Config, rules: Rules, config: PrattConfig, bp: int, next: Language)
    requires TablesFrom(cfg, config) && DeclaredOnce(config) && next <= LeveledLang(cfg, bp + 1, bp + 1)
    ensures BodyLang(rules, LevelAt(config, bp), next) <= LeveledLang(cfg, bp, bp + 1)
  {
    var ps, f := AltLang(Exact, rules, PrefixesAt(config.prefixOps, bp)), LeveledLang(cfg, bp, bp + 1);
    forall w | w in Cat(ps, f) ensures w in f {
      var u, v := CatElim(ps, f, w);
      PrefixesExact(cfg, rules, config, bp, u);
      assert u == [u[0]];
      PrefixRises(cfg, v, bp, bp + 1, u[0]);
    }
    forall w | w in next ensures w in f {
      var o, tail :| LeveledAs(cfg, w, o, tail, bp + 1, bp + 1);
      RisingWeaker(cfg, o, bp + 1, bp);
      assert LeveledAs(cfg, w, o, tail, bp, bp + 1);
    }
    StarAbsorbedLeft(ps, f);
    CatMono(Star(ps), next, Star(ps), f);
  }

  lemma SuffixLevels(cfg: Config, rules: Rules, config: PrattConfig, bp: int, body: Language, u: Word, v: Word)
    requires TablesFrom(cfg, config) && DeclaredOnce(config) && body <= LeveledLang(cfg, bp, bp + 1)
    requires LeveledFrom(cfg, u, bp, bp) && v in SuffixLang(rules, LevelAt(config, bp), body)
    ensures LeveledFrom(cfg, u + v, bp, bp)
  {
    var posts, ins := AltLang(Exact, rules, PostfixesAt(config.postfixOps, bp)), AltLang(Exact, rules, InfixesAt(config.infixOps, bp));
    if v in posts {
      PostfixesExact(cfg, rules, config, bp, v);
      assert v == [v[0]] == [v[0]] + Text([]);
      LeveledMore(cfg, u, SPost(v[0]), [], bp);
    } else if v in Cat(ins, body) {
      var op, right := CatElim(ins, body, v);
      InfixesExact(cfg, rules, config, bp, op);
      var o, tail :| LeveledAs(cfg, right, o, tail, bp, bp + 1);
      LeveledMore(cfg, u, SInfix(op[0], o), tail, bp);
      assert op == [op[0]];
      ConcatAssoc(op, o, Text(tail));
    } else {
      var o, tail :| LeveledAs(cfg, v, o, tail, bp, bp + 1);
      LeveledMore(cfg, u, SImplicit(o), tail, bp);
    }
  }

  lemma LevelLeveled(cfg: Config, rules: Rules, config: PrattConfig, bp: int, next: Language)
    requires TablesFrom(cfg, config) && DeclaredOnce(config) && next <= LeveledLang(cfg, bp + 1, bp + 1)
    ensures LevelLang(rules, LevelAt(config, bp), next) <= LeveledLang(cfg, bp, bp)
  {
    var f, body := LeveledLang(cfg, bp, bp), BodyLang(rules, LevelAt(config, bp), next);
    var suffix := SuffixLang(rules, LevelAt(config, bp), body);
    BodyLeveled(cfg, rules, config, bp, next);
    forall w | w in Cat(f, suffix) ensures w in f {
      var u, v := CatElim(f, suffix, w);
      SuffixLevels(cfg, rules, config, bp, body, u, v);
    }
    forall w | w in body ensures w in f {
      var o, tail :| LeveledAs(cfg, w, o, tail, bp, bp + 1);
      assert LeveledAs(cfg, w, o, tail, bp, bp);
    }
    StarAbsorbedRight(f, suffix);
    CatMono(body, Star(suffix), f, Star(suffix));
  }

  // ------------------------------------------------- leveled words are words of a level

  /** The leading suffixes tighter than bp. */
  ghost function TightPart(cfg: Config, tail: seq<Suffix>, bp: int): (k: nat)
    requires FlatTail(cfg, tail)
    ensures k <= |tail| && TailAbove(cfg, tail[..k], bp + 1) && (k < |tail| ==> SuffixPower(cfg, tail[k]) <= bp)
  {
    if tail == [] || SuffixPower(cfg, tail[0]) <= bp then 0
    else
      var k := TightPart(cfg, tail[1..], bp);
      assert tail[..k + 1] == [tail[0]] + tail[1..][..k];
      k + 1
  }

  lemma {:induction false} LeveledSplit(cfg: Config, s: seq<Suffix>, t: seq<Suffix>)
    requires LeveledTail(cfg, s + t)
    ensures LeveledTail(cfg, s) && LeveledTail(cfg, t)
    ensures s != [] && t != [] ==> Falls(cfg, s[|s| - 1], t[0])
    decreases |s|
  {
    if s == [] {
      assert s + t == t;
    } else {
      var rest := s[1..];
      assert (s + t)[1..] == rest + t && (s + t)[0] == s[0];
      assert |s| > 1 ==> rest[|rest| - 1] == s[|s| - 1] && (s + t)[1] == s[1];
      assert |s| == 1 && t != [] ==> (s + t)[1] == t[0];
      LeveledSplit(cfg, rest, t);
    }
  }

  lemma {:induction false} LeveledParts(cfg: Config, tail: seq<Suffix>, k: nat)
    requires LeveledTail(cfg, tail) && k <= |tail|
    ensures LeveledTail(cfg, tail[..k]) && LeveledTail(cfg, tail[k..])
  {
    assert tail == tail[..k] + tail[k..];
    LeveledSplit(cfg, tail[..k], tail[k..]);
  }

  lemma {:induction false} TextSplits(tail: seq<Suffix>, k: nat)
    requires k <= |tail|
    ensures Text(tail) == Text(tail[..k]) + Text(tail[k..])
  {
    var s, t := tail[..k], tail[k..];
    assert Text(tail) == Text(s + t) by {
      assert tail == s + t;
    }
    TextAppend(s, t);
  }

  lemma NextInBody(rules: Rules, l: Level, next: Language, w: Word)
    requires w in next
    ensures w in BodyLang(rules, l, next)
  {
    LevelContains(rules, l, next, w, []);
  }

  /** The operand's prefix operators at bp come first; what is tighter belongs to the next level. */
  lemma {:induction false} LeveledBody(cfg: Config, rules: Rules, config: PrattConfig, bp: int, next: Language, o: Word, tail: seq<Suffix>)
    requires TablesFrom(cfg, config) && DeclaredOnce(config) && LeveledLang(cfg, bp + 1, bp + 1) <= next
    requires LeveledAs(cfg, o + Text(tail), o, tail, bp, bp + 1)
    ensures o + Text(tail) in BodyLang(rules, LevelAt(config, bp), next)
    decreases |o|
  {
    var ps, w := AltLang(Exact, rules, PrefixesAt(config.prefixOps, bp)), o + Text(tail);
    if o[0] in cfg.prefixMap && cfg.prefixMap[o[0]].rightBP == bp {
      LeveledBody(cfg, rules, config, bp, next, o[1..], tail);
      PrefixesExact(cfg, rules, config, bp, [o[0]]);
      StarStep(ps, next, [o[0]], o[1..] + Text(tail));
      assert w == [o[0]] + (o[1..] + Text(tail));
    } else {
      assert LeveledAs(cfg, w, o, tail, bp + 1, bp + 1);
      NextInBody(rules, LevelAt(config, bp), next, w);
    }
  }

  /** One round of a level's loop. */
  lemma {:induction false} LeveledRound(cfg: Config, rules: Rules, config: PrattConfig, bp: int, next: Language, x: Suffix, more: seq<Suffix>)
    requires TablesFrom(cfg, config) && DeclaredOnce(config) && LeveledLang(cfg, bp + 1, bp + 1) <= next
    requires SuffixLeveled(cfg, x) && SuffixPower(cfg, x) == bp
    requires LeveledTail(cfg, more) && TailAbove(cfg, more, bp + 1) && (x.SPost? ==> more == [])
    ensures SuffixText(x) + Text(more) in SuffixLang(rules, LevelAt(config, bp), BodyLang(rules, LevelAt(config, bp), next))
  {
    var body := BodyLang(rules, LevelAt(config, bp), next);
    LeveledFlat(cfg, more);
    match x {
      case SPost(op) =>
        PostfixesExact(cfg, rules, config, bp, [op]);
        assert [op] + Text([]) == [op];
      case SInfix(op, operand) =>
        InfixesExact(cfg, rules, config, bp, [op]);
        LeveledBody(cfg, rules, config, bp, next, operand, more);
        CatIntro(AltLang(Exact, rules, InfixesAt(config.infixOps, bp)), body, [op], operand + Text(more));
        ConcatAssoc([op], operand, Text(more));
      case SImplicit(operand) =>
        LeveledBody(cfg, rules, config, bp, next, operand, more);
    }
  }

  lemma TailAboveParts(cfg: Config, tail: seq<Suffix>, k: nat, m: int)
    requires TailAbove(cfg, tail, m) && k <= |tail|
    ensures TailAbove(cfg, tail[k..], m)
  {
  }

  lemma {:induction false} LeveledRounds(cfg: Config, rules: Rules, config: PrattConfig, bp: int, next: Language, tail: seq<Suffix>)
    requires TablesFrom(cfg, config) && DeclaredOnce(config) && LeveledLang(cfg, bp + 1, bp + 1) <= next
    requires LeveledTail(cfg, tail) && TailAbove(cfg, tail, bp) && (tail != [] ==> SuffixPower(cfg, tail[0]) == bp)
    ensures Text(tail) in Star(SuffixLang(rules, LevelAt(config, bp), BodyLang(rules, LevelAt(config, bp), next)))
    decreases |tail|
  {
    var suffix := SuffixLang(rules, LevelAt(config, bp), BodyLang(rules, LevelAt(config, bp), next));
    StarUnfold(suffix);
    if tail != [] {
      LeveledFlat(cfg, tail[1..]);
      var k := TightPart(cfg, tail[1..], bp);
      var more, rest := tail[1..][..k], tail[1..][k..];
      LeveledParts(cfg, tail[1..], k);
      TailAboveParts(cfg, tail, k + 1, bp);
      assert rest == tail[k + 1..];
      assert rest != [] ==> AtLeast(cfg, rest[0], bp);
      LeveledRound(cfg, rules, config, bp, next, tail[0], more);
      LeveledRounds(cfg, rules, config, bp, next, rest);
      StarCons(suffix, SuffixText(tail[0]) + Text(more), Text(rest));
      TextSplits(tail[1..], k);
      ConcatAssoc(SuffixText(tail[0]), Text(more), Text(rest));
    }
  }

  lemma LeveledIsLevel(cfg: Config, rules: Rules, config: PrattConfig, bp: int, next: Language, w: Word)
    requires TablesFrom(cfg, config) && DeclaredOnce(config) && LeveledLang(cfg, bp + 1, bp + 1) <= next
    requires LeveledFrom(cfg, w, bp, bp)
    ensures w in LevelLang(rules, LevelAt(config, bp), next)
  {
    var o, tail :| LeveledAs(cfg, w, o, tail, bp, bp);
    var k := TightPart(cfg, tail, bp);
    var body := BodyLang(rules, LevelAt(config, bp), next);
    LeveledParts(cfg, tail, k);
    TailAboveParts(cfg, tail, k, bp);
    assert k < |tail| ==> AtLeast(cfg, tail[k], bp);
    LeveledFlat(cfg, tail[..k]);
    LeveledBody(cfg, rules, config, bp, next, o, tail[..k]);
    LeveledRounds(cfg, rules, config, bp, next, tail[k..]);
    TextSplits(tail, k);
    ConcatAssoc(o, Text(tail[..k]), Text(tail[k..]));
    CatIntro(body, Star(SuffixLang(rules, LevelAt(config, bp), body)), o + Text(tail[..k]), Text(tail[k..]));
  }

  /** A level's words are the leveled words with powers from its own on, when those above it are the next level's. */
  lemma LevelExact(cfg: Config, rules: Rules, config: PrattConfig, bp: int, next: Language)
    requires TablesFrom(cfg, config) && DeclaredOnce(config) && next == LeveledLang(cfg, bp + 1, bp + 1)
    ensures LevelLang(rules, LevelAt(config, bp), next) == LeveledLang(cfg, bp, bp)
  {
    LevelLeveled(cfg, rules, config, bp, next);
    forall w | w in LeveledLang(cfg, bp, bp) ensures w in LevelLang(rules, LevelAt(config, bp), next) {
      LeveledIsLevel(cfg, rules, config, bp, next, w);
    }
  }

  // -------------------------------------------------------------------- the whole chain

  /** The primary's grammar derives exactly what the primary rule takes. */
  ghost predicate PrimaryIsItsGrammar(cfg: Config, rules: Rules, config: PrattConfig) {
    forall w :: w in Lang(Exact, rules, config.primary) <==> PrimaryWord(cfg, w)
  }

  /** No operator's power lies strictly between two neighbours, nor beyond the last. */
  ghost predicate PowersIn(cfg: Config, bps: seq<int>) {
    && (forall t :: t in cfg.prefixMap ==> cfg.prefixMap[t].rightBP in bps)
    && (forall t :: t in cfg.postfixMap ==> cfg.postfixMap[t].leftBP in bps)
    && (forall t :: t in cfg.infixMap ==> cfg.infixMap[t].leftBP in bps)
    && (cfg.implicitOp.Some? ==> cfg.implicitOp.value.leftBP in bps)
  }

  lemma PowersListed(cfg: Config, rules: Rules, config: PrattConfig, bps: seq<int>)
    requires TablesFrom(cfg, config) && PowersOf(config, bps)
    ensures PowersIn(cfg, bps)
  {
    forall t | t in cfg.prefixMap ensures cfg.prefixMap[t].rightBP in bps {
      var i := PrefixTableFrom(config.prefixOps, t);
      var k := PrefixesAtHas(config.prefixOps, i);
    }
    forall t | t in cfg.postfixMap ensures cfg.postfixMap[t].leftBP in bps {
      var i := PostfixTableFrom(config.postfixOps, t);
      PostfixDerivable(rules, config.postfixOps, i);
    }
    forall t | t in cfg.infixMap ensures cfg.infixMap[t].leftBP in bps {
      var i := InfixTableFrom(config.infixOps, t);
      InfixDerivable(rules, config.infixOps, i);
    }
  }

  lemma PrefixListed(cfg: Config, bps: seq<int>, t: Token)
    requires PowersIn(cfg, bps) && t in cfg.prefixMap
    ensures cfg.prefixMap[t].rightBP in bps
  {
  }

  lemma PowerListed(cfg: Config, bps: seq<int>, x: Suffix)
    requires PowersIn(cfg, bps) && FlatSuffix(cfg, x)
    ensures SuffixPower(cfg, x) in bps
  {
  }

  /** Powers from m on are powers from n on, when no power in use lies between. */
  ghost predicate NoneBetween(bps: seq<int>, m: int, n: int) {
    forall bp :: bp in bps && bp >= m ==> bp >= n
  }

  lemma SkipGap(cfg: Config, bps: seq<int>, m: int, n: int, w: Word)
    requires PowersIn(cfg, bps) && NoneBetween(bps, m, n) && LeveledFrom(cfg, w, m, m)
    ensures LeveledFrom(cfg, w, n, n)
  {
    var o, tail :| LeveledAs(cfg, w, o, tail, m, m);
    forall x | x in tail ensures AtLeast(cfg, x, n) {
      assert AtLeast(cfg, x, m);
      PowerListed(cfg, bps, x);
    }
    if o[0] in cfg.prefixMap {
      PrefixListed(cfg, bps, o[0]);
    }
    assert LeveledAs(cfg, w, o, tail, n, n);
  }

  /** Above all powers only primaries are left. */
  lemma NothingAbove(cfg: Config, rules: Rules, config: PrattConfig, bps: seq<int>, m: int, w: Word)
    requires PowersIn(cfg, bps) && PrimaryIsItsGrammar(cfg, rules, config) && forall bp :: bp in bps ==> bp < m
    ensures LeveledFrom(cfg, w, m, m) <==> w in Lang(Exact, rules, config.primary)
  {
    if LeveledFrom(cfg, w, m, m) {
      var o, tail :| LeveledAs(cfg, w, o, tail, m, m);
      if tail != [] {
        assert AtLeast(cfg, tail[0], m);
        PowerListed(cfg, bps, tail[0]);
      }
      if o[0] in cfg.prefixMap {
        PrefixListed(cfg, bps, o[0]);
      }
      assert w == o by {
        assert o + [] == o;
      }
    }
    if w in Lang(Exact, rules, config.primary) {
      assert PrimaryWord(cfg, w);
      assert w + Text([]) == w;
      assert LeveledAs(cfg, w, w, [], m, m);
    }
  }

  lemma NextTier(cfg: Config, bps: seq<int>, i: nat)
    requires Ascending(bps) && PowersIn(cfg, bps) && i < |bps| - 1
    ensures LeveledLang(cfg, bps[i + 1], bps[i + 1]) == LeveledLang(cfg, bps[i] + 1, bps[i] + 1)
  {
    var m, n := bps[i] + 1, bps[i + 1];
    forall bp | bp in bps && bp >= m ensures bp >= n {
      var j :| 0 <= j < |bps| && bps[j] == bp;
      assert j > i;
    }
    forall w: Word ensures w in LeveledLang(cfg, m, m) <==> w in LeveledLang(cfg, n, n) {
      if LeveledFrom(cfg, w, m, m) {
        SkipGap(cfg, bps, m, n, w);
      }
      if LeveledFrom(cfg, w, n, n) {
        SkipGap(cfg, bps, n, m, w);
      }
    }
  }

  lemma {:induction false} TierExact(cfg: Config, rules: Rules, config: PrattConfig, bps: seq<int>, i: nat)
    requires TablesFrom(cfg, config) && DeclaredOnce(config) && Ascending(bps) && PowersIn(cfg, bps)
    requires PrimaryIsItsGrammar(cfg, rules, config) && i < |bps|
    ensures TierLang(rules, config, bps, i) == LeveledLang(cfg, bps[i], bps[i])
    decreases |bps| - i
  {
    if i < |bps| - 1 {
      TierExact(cfg, rules, config, bps, i + 1);
      NextTier(cfg, bps, i);
    } else {
      forall w: Word ensures w in Lang(Exact, rules, config.primary) <==> w in LeveledLang(cfg, bps[i] + 1, bps[i] + 1) {
        NothingAbove(cfg, rules, config, bps, bps[i] + 1, w);
      }
    }
    LevelExact(cfg, rules, config, bps[i], NextLang(rules, config, bps, i));
  }

  /** What the published grammar is built from: distinct declarations, the listed powers, and a primary that is its grammar. */
  ghost predicate Publishing(cfg: Config, rules: Rules, base: Label, config: PrattConfig, bps: seq<int>) {
    && ConfigOk(cfg) && TablesFrom(cfg, config) && DeclaredOnce(config) && PrimaryIsItsGrammar(cfg, rules, config)
    && PowersOf(config, bps) && Installed(rules, base, config, bps)
  }

  lemma {:induction false} LeveledAnywhere(cfg: Config, bps: seq<int>, o: Word, tail: seq<Suffix>, m: int)
    requires PowersIn(cfg, bps) && Operand(cfg, o) && forall bp :: bp in bps ==> m <= bp
    ensures Leveled(cfg, o, tail) <==> Rising(cfg, o, m) && LeveledTail(cfg, tail) && TailAbove(cfg, tail, m)
  {
    if o[0] in cfg.prefixMap {
      PrefixListed(cfg, bps, o[0]);
    }
    if LeveledTail(cfg, tail) {
      LeveledFlat(cfg, tail);
      forall x | x in tail ensures AtLeast(cfg, x, m) {
        PowerListed(cfg, bps, x);
      }
    }
  }

  lemma RootLeveled(cfg: Config, rules: Rules, base: Label, config: PrattConfig, bps: seq<int>) returns (m: int)
    requires Publishing(cfg, rules, base, config, bps)
    ensures PowersIn(cfg, bps) && forall bp :: bp in bps ==> m <= bp
    ensures Lang(Exact, rules, Root(base, config, bps)) == LeveledLang(cfg, m, m)
  {
    RootMeans(rules, base, config, bps);
    PowersListed(cfg, rules, config, bps);
    m := if bps == [] then 0 else bps[0];
    if bps == [] {
      forall w: Word ensures w in Lang(Exact, rules, config.primary) <==> w in LeveledLang(cfg, m, m) {
        NothingAbove(cfg, rules, config, bps, m, w);
      }
    } else {
      TierExact(cfg, rules, config, bps, 0);
    }
  }

  /**
   The level grammar derives a word of operands and operators exactly when its operators keep
   to their levels: prefix operators tighten inwards, an operand behind an operator starts no
   looser than it, and nothing tighter follows a postfix operator.
   */
  lemma LevelGrammarExact(cfg: Config, rules: Rules, base: Label, config: PrattConfig, bps: seq<int>, w: Word, o: Word, tail: seq<Suffix>)
    requires Publishing(cfg, rules, base, config, bps) && FlatAs(cfg, w, o, tail)
    ensures w in Lang(Exact, rules, Root(base, config, bps)) <==> Leveled(cfg, o, tail)
  {
    var m := RootLeveled(cfg, rules, base, config, bps);
    LeveledAnywhere(cfg, bps, o, tail, m);
    if LeveledFrom(cfg, w, m, m) {
      var p, t :| LeveledAs(cfg, w, p, t, m, m);
      FlatUnique(cfg, w, o, tail, p, t);
    }
    if Leveled(cfg, o, tail) {
      assert LeveledAs(cfg, w, o, tail, m, m);
    }
  }

  // ------------------------------------------------------- when the grammar covers the parser

  predicate OverPrefixes(cfg: Config, p: int) {
    forall u :: u in cfg.prefixMap ==> cfg.prefixMap[u].rightBP <= p
  }

  predicate OverPostfixes(cfg: Config, p: int) {
    forall u :: u in cfg.postfixMap ==> cfg.postfixMap[u].leftBP <= p
  }

  predicate OverInfixes(cfg: Config, p: int) {
    && (forall u :: u in cfg.infixMap ==> cfg.infixMap[u].leftBP <= p)
    && (cfg.implicitOp.Some? ==> cfg.implicitOp.value.leftBP <= p)
  }

  /** All prefix operators bind alike and at least as tightly as any infix or implicit operator. */
  predicate PrefixesTightest(cfg: Config) {
    forall t :: t in cfg.prefixMap ==> OverPrefixes(cfg, cfg.prefixMap[t].rightBP) && OverInfixes(cfg, cfg.prefixMap[t].rightBP)
  }

  /** And so do all postfix operators. */
  predicate PostfixesTightest(cfg: Config) {
    forall t :: t in cfg.postfixMap ==> OverPostfixes(cfg, cfg.postfixMap[t].leftBP) && OverInfixes(cfg, cfg.postfixMap[t].leftBP)
  }

  ghost predicate PrefixesFrom(cfg: Config, m: int) {
    forall t :: t in cfg.prefixMap ==> cfg.prefixMap[t].rightBP >= m
  }

  lemma AlikePrefixes(cfg: Config, t: Token)
    requires PrefixesTightest(cfg) && t in cfg.prefixMap
    ensures PrefixesFrom(cfg, cfg.prefixMap[t].rightBP)
  {
    forall u | u in cfg.prefixMap ensures cfg.prefixMap[u].rightBP >= cfg.prefixMap[t].rightBP {
      assert OverPrefixes(cfg, cfg.prefixMap[u].rightBP);
    }
  }

  lemma {:induction false} AlikeRising(cfg: Config, o: Word, m: int)
    requires PrefixesTightest(cfg) && PrefixesFrom(cfg, m)
    ensures Rising(cfg, o, m)
    decreases |o|
  {
    if o != [] && o[0] in cfg.prefixMap {
      var t := o[0];
      assert t in cfg.prefixMap;
      AlikePrefixes(cfg, t);
      AlikeRising(cfg, o[1..], cfg.prefixMap[t].rightBP);
    }
  }

  lemma PrefixesOver(cfg: Config, x: Suffix)
    requires PrefixesTightest(cfg) && FlatSuffix(cfg, x) && !x.SPost?
    ensures PrefixesFrom(cfg, SuffixPower(cfg, x))
  {
    forall u | u in cfg.prefixMap ensures cfg.prefixMap[u].rightBP >= SuffixPower(cfg, x) {
      assert OverInfixes(cfg, cfg.prefixMap[u].rightBP);
    }
  }

  lemma {:induction false} TightestLeveled(cfg: Config, tail: seq<Suffix>)
    requires PrefixesTightest(cfg) && PostfixesTightest(cfg) && FlatTail(cfg, tail)
    ensures LeveledTail(cfg, tail)
    decreases |tail|
  {
    if tail != [] {
      var x := tail[0];
      assert FlatSuffix(cfg, x);
      if !x.SPost? {
        PrefixesOver(cfg, x);
        AlikeRising(cfg, x.operand, SuffixPower(cfg, x));
      }
      if |tail| > 1 {
        assert FlatSuffix(cfg, tail[1]);
        assert x.SPost? ==> OverPostfixes(cfg, SuffixPower(cfg, x)) && OverInfixes(cfg, SuffixPower(cfg, x));
      }
      TightestLeveled(cfg, tail[1..]);
    }
  }

  lemma TightestCovers(cfg: Config, rules: Rules, base: Label, config: PrattConfig, bps: seq<int>, w: Word)
    requires Publishing(cfg, rules, base, config, bps) && PrefixesTightest(cfg) && PostfixesTightest(cfg) && Flat(cfg, w)
    ensures w in Lang(Exact, rules, Root(base, config, bps))
  {
    var o, tail :| FlatAs(cfg, w, o, tail);
    TightestLeveled(cfg, tail);
    var t := o[0];
    if t in cfg.prefixMap {
      AlikePrefixes(cfg, t);
      AlikeRising(cfg, o[1..], cfg.prefixMap[t].rightBP);
    }
    LevelGrammarExact(cfg, rules, base, config, bps, w, o, tail);
  }

  ghost predicate Missed(cfg: Config, rules: Rules, base: Label, config: PrattConfig, bps: seq<int>, w: Word) {
    Flat(cfg, w) && w !in Lang(Exact, rules, Root(base, config, bps))
  }

  lemma {:induction false} MissedAs(cfg: Config, rules: Rules, base: Label, config: PrattConfig, bps: seq<int>, o: Word, tail: seq<Suffix>)
    requires Publishing(cfg, rules, base, config, bps) && Operand(cfg, o) && FlatTail(cfg, tail) && !Leveled(cfg, o, tail)
    ensures Missed(cfg, rules, base, config, bps, o + Text(tail))
  {
    assert FlatAs(cfg, o + Text(tail), o, tail);
    LevelGrammarExact(cfg, rules, base, config, bps, o + Text(tail), o, tail);
  }

  lemma {:induction false} PrefixedOperand(cfg: Config, t: Token, o: Word)
    requires t in cfg.prefixMap && Operand(cfg, o)
    ensures Operand(cfg, [t] + o) && ([t] + o)[0] == t && ([t] + o)[1..] == o
  {
  }

  /** A loose prefix operator inside a tight one, or behind a tighter operator. */
  lemma PrefixMissed(cfg: Config, rules: Rules, base: Label, config: PrattConfig, bps: seq<int>, a: Word) returns (w: Word)
    requires Publishing(cfg, rules, base, config, bps) && PrimaryWord(cfg, a) && !PrefixesTightest(cfg)
    ensures Missed(cfg, rules, base, config, bps, w)
  {
    var t :| t in cfg.prefixMap && !(OverPrefixes(cfg, cfg.prefixMap[t].rightBP) && OverInfixes(cfg, cfg.prefixMap[t].rightBP));
    var o := [t] + a;
    PrefixedOperand(cfg, t, a);
    if u :| u in cfg.prefixMap && cfg.prefixMap[t].rightBP < cfg.prefixMap[u].rightBP {
      PrefixedOperand(cfg, u, o);
      MissedAs(cfg, rules, base, config, bps, [u] + o, []);
      w := [u] + o + Text([]);
    } else if u :| u in cfg.infixMap && cfg.prefixMap[t].rightBP < cfg.infixMap[u].leftBP {
      MissedAs(cfg, rules, base, config, bps, a, [SInfix(u, o)]);
      w := a + Text([SInfix(u, o)]);
    } else {
      MissedAs(cfg, rules, base, config, bps, a, [SImplicit(o)]);
      w := a + Text([SImplicit(o)]);
    }
  }

  /** A tight operator behind a loose postfix operator. */
  lemma PostfixMissed(cfg: Config, rules: Rules, base: Label, config: PrattConfig, bps: seq<int>, a: Word) returns (w: Word)
    requires Publishing(cfg, rules, base, config, bps) && PrimaryWord(cfg, a) && !PostfixesTightest(cfg)
    ensures Missed(cfg, rules, base, config, bps, w)
  {
    var t :| t in cfg.postfixMap && !(OverPostfixes(cfg, cfg.postfixMap[t].leftBP) && OverInfixes(cfg, cfg.postfixMap[t].leftBP));
    var y: Suffix;
    if u :| u in cfg.postfixMap && cfg.postfixMap[t].leftBP < cfg.postfixMap[u].leftBP {
      y := SPost(u);
    } else if u :| u in cfg.infixMap && cfg.postfixMap[t].leftBP < cfg.infixMap[u].leftBP {
      y := SInfix(u, a);
    } else {
      y := SImplicit(a);
    }
    assert FlatSuffix(cfg, y) && SuffixPower(cfg, y) > SuffixPower(cfg, SPost(t));
    MissedAs(cfg, rules, base, config, bps, a, [SPost(t), y]);
    w := a + Text([SPost(t), y]);
  }

  /**
   The level grammar covers all that the parser consumes exactly when all prefix operators
   bind alike, all postfix operators bind alike, and both at least as tightly as every infix
   and implicit operator.
   */
  lemma LevelGrammarCovers(cfg: Config, rules: Rules, base: Label, config: PrattConfig, bps: seq<int>)
    requires Publishing(cfg, rules, base, config, bps) && NonNegative(cfg) && Lang(Exact, rules, config.primary) != Empty
    ensures (forall w :: Consumed(cfg, w) ==> w in Lang(Exact, rules, Root(base, config, bps)))
            <==> PrefixesTightest(cfg) && PostfixesTightest(cfg)
  {
    if PrefixesTightest(cfg) && PostfixesTightest(cfg) {
      forall w | Consumed(cfg, w) ensures w in Lang(Exact, rules, Root(base, config, bps)) {
        FlatAcceptance(cfg, w);
        TightestCovers(cfg, rules, base, config, bps, w);
      }
    } else {
      var a :| a in Lang(Exact, rules, config.primary);
      assert PrimaryWord(cfg, a);
      var w;
      if !PrefixesTightest(cfg) {
        w := PrefixMissed(cfg, rules, base, config, bps, a);
      } else {
        w := PostfixMissed(cfg, rules, base, config, bps, a);
      }
      FlatAcceptance(cfg, w);
    }
  }

  // ---------------------------------------------------------------- two grammars that miss

  const ATOM: Token := 1
  const LOOSE: Token := 2
  const TIGHT: Token := 3

  /** A prefix operator looser than an infix operator. */
  function LooseMinus(): PrattConfig {
    PrattConfig(TokenNode("primary", ATOM), [PrefixOp("minus", LOOSE, 1, 0)], [], [InfixOp("times", TIGHT, 5, 6, 0)], None)
  }

  /** A postfix operator looser than another. */
  function LoosePostfix(): PrattConfig {
    PrattConfig(TokenNode("primary", ATOM), [], [PostfixOp("loose", LOOSE, 1, 0), PostfixOp("tight", TIGHT, 5, 0)], [], None)
  }

  /** The parser's tables, over a primary that is one token. */
  function TablesOf(config: PrattConfig): Config {
    Config(0, (w: Word) => if w != [] && w[0] == ATOM then Some(1) else None,
           PrefixTable(config.prefixOps), InfixTable(config.infixOps), PostfixTable(config.postfixOps), None, {})
  }

  lemma AtomPrimary(cfg: Config, rules: Rules, config: PrattConfig)
    requires config.primary == TokenNode("primary", ATOM) && cfg.primary == TablesOf(config).primary && ATOM !in cfg.prefixMap
    requires cfg.implicitOp.None?
    ensures PrimaryIsItsGrammar(cfg, rules, config) && PrimaryOk(cfg)
    ensures PrimaryWord(cfg, [ATOM])
  {
    LangToken(Exact, rules, config.primary);
    forall s, rest ensures Settled(cfg, s, rest) {
      assert s != [] ==> (s + rest)[0] == s[0];
    }
    forall w: Word ensures w in Single(ATOM) <==> PrimaryWord(cfg, w) {
      if PrimaryWord(cfg, w) {
        assert w == [w[0]];
      }
    }
  }

  lemma LooseMinusTables()
    ensures PrefixTable(LooseMinus().prefixOps) == map[LOOSE := PrefixInfo(1, 0)]
    ensures InfixTable(LooseMinus().infixOps) == map[TIGHT := InfixInfo(5, 6, 0)]
    ensures PostfixTable(LooseMinus().postfixOps) == map[]
  {
    assert LooseMinus().prefixOps[..0] == [] && LooseMinus().infixOps[..0] == [];
  }

  lemma LooseMinusLevels()
    ensures PowersOf(LooseMinus(), [1, 5])
  {
    var config := LooseMinus();
    forall bp ensures bp in [1, 5] <==> LevelAt(config, bp) != NO_OPERATORS {
      assert config.prefixOps[..0] == [] && config.infixOps[..0] == [];
      assert PrefixesAt([], bp) == [] && InfixesAt([], bp) == [];
    }
  }

  /** The parser takes a loose prefix operator after a tight infix one, and the level grammar does not. */
  lemma LooseMinusMissed(rules: Rules, base: Label)
    requires Installed(rules, base, LooseMinus(), [1, 5])
    ensures Publishing(TablesOf(LooseMinus()), rules, base, LooseMinus(), [1, 5]) && NonNegative(TablesOf(LooseMinus()))
    ensures Consumed(TablesOf(LooseMinus()), [ATOM, TIGHT, LOOSE, ATOM])
    ensures [ATOM, TIGHT, LOOSE, ATOM] !in Lang(Exact, rules, Root(base, LooseMinus(), [1, 5]))
  {
    var config, cfg := LooseMinus(), TablesOf(LooseMinus());
    var w, x := [ATOM, TIGHT, LOOSE, ATOM], SInfix(TIGHT, [LOOSE, ATOM]);
    LooseMinusTables();
    LooseMinusLevels();
    AtomPrimary(cfg, rules, config);
    assert Operand(cfg, [ATOM]);
    PrefixedOperand(cfg, LOOSE, [ATOM]);
    assert [LOOSE, ATOM] == [LOOSE] + [ATOM];
    assert Text([x]) == [TIGHT] + [LOOSE, ATOM];
    assert w == [ATOM] + ([TIGHT] + [LOOSE, ATOM]);
    MissedAs(cfg, rules, base, config, [1, 5], [ATOM], [x]);
    FlatAcceptance(cfg, w);
  }

  lemma LoosePostfixTables()
    ensures PostfixTable(LoosePostfix().postfixOps) == map[LOOSE := PostfixInfo(1, 0), TIGHT := PostfixInfo(5, 0)]
    ensures PrefixTable(LoosePostfix().prefixOps) == map[] && InfixTable(LoosePostfix().infixOps) == map[]
  {
    var ops := LoosePostfix().postfixOps;
    assert ops[..1] == [PostfixOp("loose", LOOSE, 1, 0)] && ops[..1][..0] == [];
  }

  lemma LoosePostfixLevels()
    ensures PowersOf(LoosePostfix(), [1, 5])
  {
    var config := LoosePostfix();
    var ops := config.postfixOps;
    forall bp ensures bp in [1, 5] <==> LevelAt(config, bp) != NO_OPERATORS {
      PostfixesStep(ops, 0, bp);
      PostfixesStep(ops, 1, bp);
      assert ops[..0] == [] && ops[..2] == ops && PostfixesAt([], bp) == [];
    }
  }

  /** The parser takes a tight postfix operator after a loose one, and the level grammar does not. */
  lemma LoosePostfixMissed(rules: Rules, base: Label)
    requires Installed(rules, base, LoosePostfix(), [1, 5])
    ensures Publishing(TablesOf(LoosePostfix()), rules, base, LoosePostfix(), [1, 5]) && NonNegative(TablesOf(LoosePostfix()))
    ensures Consumed(TablesOf(LoosePostfix()), [ATOM, LOOSE, TIGHT])
    ensures [ATOM, LOOSE, TIGHT] !in Lang(Exact, rules, Root(base, LoosePostfix(), [1, 5]))
  {
    var config, cfg := LoosePostfix(), TablesOf(LoosePostfix());
    var w, tail := [ATOM, LOOSE, TIGHT], [SPost(LOOSE), SPost(TIGHT)];
    LoosePostfixTables();
    LoosePostfixLevels();
    AtomPrimary(cfg, rules, config);
    assert Operand(cfg, [ATOM]);
    assert tail[1..] == [SPost(TIGHT)] && [SPost(TIGHT)][1..] == [];
    TextUnfolds(tail);
    TextUnfolds([SPost(TIGHT)]);
    assert w == [ATOM] + ([LOOSE] + ([TIGHT] + []));
    MissedAs(cfg, rules, base, config, [1, 5], [ATOM], tail);
    FlatAcceptance(cfg, w);
  }
}
