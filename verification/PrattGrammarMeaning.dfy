/**
 What the level grammar derives, and its agreement with the running parser.
 */
module PrattGrammarMeaning {
  import opened Languages
  import opened Grammars
  import opened Semantics
  import opened Pratt
  import opened PrattLanguage
  import opened PrattGrammar

  // ------------------------------------------------------------- grammar algebra

  lemma {:induction false} AltSingle(rules: Rules, g: Grammar)
    ensures AltLang(Exact, rules, [g]) == Lang(Exact, rules, g)
  {
    assert [g][1..] == [];
    assert AltLang(Exact, rules, [g]) == Lang(Exact, rules, g) + AltLang(Exact, rules, [g][1..]);
  }

  lemma {:induction false} SafeChoiceMeans(rules: Rules, grammarLabel: Label, options: seq<Grammar>)
    requires options != []
    ensures Lang(Exact, rules, SafeChoice(grammarLabel, options)) == AltLang(Exact, rules, options)
  {
    if |options| == 1 {
      AltSingle(rules, options[0]);
      assert options == [options[0]];
    } else {
      LangChoice(Exact, rules, GChoice(Node(grammarLabel), options));
    }
  }

  lemma {:induction false} SeqSingle(rules: Rules, g: Grammar)
    ensures SeqLang(Exact, rules, [g]) == Lang(Exact, rules, g)
  {
    assert [g][1..] == [];
    assert SeqLang(Exact, rules, [g]) == Cat(Lang(Exact, rules, g), SeqLang(Exact, rules, [g][1..]));
    CatUnit(Lang(Exact, rules, g));
  }

  lemma {:induction false} SeqAppend(rules: Rules, gs: seq<Grammar>, hs: seq<Grammar>)
    ensures SeqLang(Exact, rules, gs + hs) == Cat(SeqLang(Exact, rules, gs), SeqLang(Exact, rules, hs))
  {
    if gs == [] {
      assert gs + hs == hs;
      CatUnit(SeqLang(Exact, rules, hs));
    } else {
      SeqAppend(rules, gs[1..], hs);
      assert (gs + hs)[0] == gs[0] && (gs + hs)[1..] == gs[1..] + hs;
      CatAssoc(Lang(Exact, rules, gs[0]), SeqLang(Exact, rules, gs[1..]), SeqLang(Exact, rules, hs));
    }
  }

  /** A concatenation of two lists of nodes, also when the whole collapses to its only child. */
  lemma {:induction false} ConcatMeans(rules: Rules, grammarLabel: Label, children: seq<Grammar>)
    requires children != []
    ensures var g := if |children| == 1 then children[0] else GConcat(Node(grammarLabel), children);
            Lang(Exact, rules, g) == SeqLang(Exact, rules, children)
  {
    if |children| == 1 {
      SeqSingle(rules, children[0]);
      assert children == [children[0]];
    } else {
      LangConcat(Exact, rules, GConcat(Node(grammarLabel), children));
    }
  }

  /** Flattening does not change the meaning of a concatenation. */
  lemma PrattConcatMeans(rules: Rules, grammarLabel: Label, left: Grammar, right: Grammar)
    ensures Lang(Exact, rules, PrattConcat(grammarLabel, left, right)) ==
            Cat(Lang(Exact, rules, left), Lang(Exact, rules, right))
  {
    SeqSingle(rules, left);
    SeqSingle(rules, right);
    if right.GConcat? && right.info.grammarLabel == grammarLabel {
      ConcatMeans(rules, grammarLabel, [left] + right.children);
      SeqAppend(rules, [left], right.children);
      LangConcat(Exact, rules, right);
    } else if left.GConcat? && left.info.grammarLabel == grammarLabel {
      ConcatMeans(rules, grammarLabel, left.children + [right]);
      SeqAppend(rules, left.children, [right]);
      LangConcat(Exact, rules, left);
    } else {
      assert [left] + [right] == [left, right];
      ConcatMeans(rules, grammarLabel, [left, right]);
      SeqAppend(rules, [left], [right]);
    }
  }

  lemma ZeroOrMoreMeans(rules: Rules, grammarLabel: Label, body: Grammar)
    ensures Lang(Exact, rules, ZeroOrMore(grammarLabel, body)) == Star(Lang(Exact, rules, body))
  {
    LangRepeat(Exact, rules, ZeroOrMore(grammarLabel, body));
    IterateStar(Lang(Exact, rules, body));
  }

  lemma RelabelledMeans(rules: Rules, g: Grammar, grammarLabel: Label)
    ensures Lang(Exact, rules, WithLabel(g, grammarLabel)) == Lang(Exact, rules, g)
  {
    var r := WithLabel(g, grammarLabel);
    forall w, h: nat ensures DerivesAt(Exact, rules, r, w, h) <==> DerivesAt(Exact, rules, g, w, h) {
    }
  }

  // ------------------------------------------------------------ one level's words

  ghost function BodyLang(rules: Rules, l: Level, next: Language): Language {
    Cat(Star(AltLang(Exact, rules, l.prefixes)), next)
  }

  ghost function SuffixLang(rules: Rules, l: Level, body: Language): Language {
    AltLang(Exact, rules, l.postfixes) + Cat(AltLang(Exact, rules, l.infixes), body) +
    (if l.hasImplicit then body else Empty)
  }

  /** prefix* next (postfix | infix prefix* next | prefix* next)*. */
  ghost function LevelLang(rules: Rules, l: Level, next: Language): Language {
    Cat(BodyLang(rules, l, next), Star(SuffixLang(rules, l, BodyLang(rules, l, next))))
  }

  lemma StarEmpty()
    ensures Star(Empty) == Epsilon
  {
    StarUnfold(Empty);
    CatEmpty(Star(Empty));
  }

  lemma StarEmptyCat(a: Language)
    ensures Cat(Star(Empty), a) == a && Cat(a, Star(Empty)) == a
  {
    StarEmpty();
    CatUnit(a);
  }

  lemma LevelBodyMeans(rules: Rules, grammarLabel: Label, l: Level, next: Grammar)
    ensures Lang(Exact, rules, LevelBody(grammarLabel, l, next)) == BodyLang(rules, l, Lang(Exact, rules, next))
  {
    if l.prefixes == [] {
      StarEmptyCat(Lang(Exact, rules, next));
    } else {
      var choice := SafeChoice(grammarLabel, l.prefixes);
      SafeChoiceMeans(rules, grammarLabel, l.prefixes);
      ZeroOrMoreMeans(rules, grammarLabel, choice);
      PrattConcatMeans(rules, grammarLabel, ZeroOrMore(grammarLabel, choice), next);
    }
  }

  lemma {:induction false} InfixChoiceMeans(rules: Rules, grammarLabel: Label, infixes: seq<Grammar>, body: Grammar)
    requires infixes != []
    ensures Lang(Exact, rules, GConcat(Node(grammarLabel), [SafeChoice(grammarLabel, infixes), body])) ==
            Cat(AltLang(Exact, rules, infixes), Lang(Exact, rules, body))
  {
    var choice := SafeChoice(grammarLabel, infixes);
    assert [choice, body] == [choice] + [body];
    LangConcat(Exact, rules, GConcat(Node(grammarLabel), [choice, body]));
    SeqAppend(rules, [choice], [body]);
    SeqSingle(rules, choice);
    SeqSingle(rules, body);
    SafeChoiceMeans(rules, grammarLabel, infixes);
  }

  lemma {:induction false} AltAppend(rules: Rules, gs: seq<Grammar>, hs: seq<Grammar>)
    ensures AltLang(Exact, rules, gs + hs) == AltLang(Exact, rules, gs) + AltLang(Exact, rules, hs)
  {
    if gs == [] {
      assert gs + hs == hs;
    } else {
      AltAppend(rules, gs[1..], hs);
      assert (gs + hs)[0] == gs[0] && (gs + hs)[1..] == gs[1..] + hs;
    }
  }

  lemma {:induction false} SuffixChoicesMean(rules: Rules, grammarLabel: Label, l: Level, body: Grammar)
    ensures AltLang(Exact, rules, SuffixChoices(grammarLabel, l, body)) == SuffixLang(rules, l, Lang(Exact, rules, body))
  {
    var b := Lang(Exact, rules, body);
    var posts := if l.postfixes == [] then [] else [SafeChoice(grammarLabel, l.postfixes)];
    var ins := if l.infixes == [] then [] else [GConcat(Node(grammarLabel), [SafeChoice(grammarLabel, l.infixes), body])];
    var imps := if l.hasImplicit then [body] else [];
    AltAppend(rules, posts + ins, imps);
    AltAppend(rules, posts, ins);
    assert AltLang(Exact, rules, posts) == AltLang(Exact, rules, l.postfixes) by {
      if l.postfixes != [] {
        SafeChoiceMeans(rules, grammarLabel, l.postfixes);
        AltSingle(rules, SafeChoice(grammarLabel, l.postfixes));
      }
    }
    assert AltLang(Exact, rules, ins) == Cat(AltLang(Exact, rules, l.infixes), b) by {
      CatEmpty(b);
      if l.infixes != [] {
        InfixChoiceMeans(rules, grammarLabel, l.infixes, body);
        AltSingle(rules, ins[0]);
      }
    }
    if l.hasImplicit {
      AltSingle(rules, body);
    }
  }

  /** The nodes built for a level derive exactly the level's words. */
  lemma SingleLevelMeans(rules: Rules, grammarLabel: Label, l: Level, next: Grammar)
    ensures Lang(Exact, rules, SingleLevel(grammarLabel, l, next)) == LevelLang(rules, l, Lang(Exact, rules, next))
  {
    var body := LevelBody(grammarLabel, l, next);
    var suffixes := SuffixChoices(grammarLabel, l, body);
    LevelBodyMeans(rules, grammarLabel, l, next);
    SuffixChoicesMean(rules, grammarLabel, l, body);
    if suffixes == [] {
      assert SuffixLang(rules, l, Lang(Exact, rules, body)) == Empty;
      StarEmptyCat(Lang(Exact, rules, body));
    } else {
      var choice := SafeChoice(grammarLabel, suffixes);
      SafeChoiceMeans(rules, grammarLabel, suffixes);
      ZeroOrMoreMeans(rules, grammarLabel, choice);
      PrattConcatMeans(rules, grammarLabel, body, ZeroOrMore(grammarLabel, choice));
    }
  }

  // ------------------------------------------------------------- the tokens of a level

  lemma {:induction false} AltIntro(rules: Rules, gs: seq<Grammar>, i: nat)
    requires i < |gs|
    ensures Lang(Exact, rules, gs[i]) <= AltLang(Exact, rules, gs)
  {
    if i > 0 {
      AltIntro(rules, gs[1..], i - 1);
    }
  }

  lemma {:induction false} AltElim(rules: Rules, gs: seq<Grammar>, w: Word) returns (i: nat)
    requires w in AltLang(Exact, rules, gs)
    ensures i < |gs| && w in Lang(Exact, rules, gs[i])
  {
    i := 0;
    if w !in Lang(Exact, rules, gs[0]) {
      i := AltElim(rules, gs[1..], w);
      i := i + 1;
    }
  }

  lemma {:induction false} PrefixesAtFrom(ops: seq<PrefixOp>, bp: int, k: nat) returns (i: nat)
    requires k < |PrefixesAt(ops, bp)|
    ensures i < |ops| && ops[i].rightBP == bp && PrefixesAt(ops, bp)[k] == TokenNode(ops[i].grammarLabel, ops[i].token)
  {
    i := |ops| - 1;
    if k < |PrefixesAt(ops[..i], bp)| {
      i := PrefixesAtFrom(ops[..i], bp, k);
    }
  }

  lemma {:induction false} PrefixesAtHas(ops: seq<PrefixOp>, i: nat) returns (k: nat)
    requires i < |ops|
    ensures k < |PrefixesAt(ops, ops[i].rightBP)|
    ensures PrefixesAt(ops, ops[i].rightBP)[k] == TokenNode(ops[i].grammarLabel, ops[i].token)
  {
    var n := |ops| - 1;
    if i == n {
      k := |PrefixesAt(ops[..n], ops[i].rightBP)|;
    } else {
      k := PrefixesAtHas(ops[..n], i);
    }
  }

  /** The words of a level's prefixes are tokens of the parser's table. */
  lemma {:induction false} PrefixesWords(rules: Rules, ops: seq<PrefixOp>, bp: int, w: Word)
    requires w in AltLang(Exact, rules, PrefixesAt(ops, bp))
    ensures |w| == 1 && w[0] in PrefixTable(ops)
  {
    var k := AltElim(rules, PrefixesAt(ops, bp), w);
    var i := PrefixesAtFrom(ops, bp, k);
    LangToken(Exact, rules, TokenNode(ops[i].grammarLabel, ops[i].token));
    PrefixTableHas(ops, i);
  }

  lemma {:induction false} PostfixesAtFrom(ops: seq<PostfixOp>, bp: int, k: nat) returns (i: nat)
    requires k < |PostfixesAt(ops, bp)|
    ensures i < |ops| && ops[i].leftBP == bp && PostfixesAt(ops, bp)[k] == TokenNode(ops[i].grammarLabel, ops[i].token)
  {
    i := |ops| - 1;
    if k < |PostfixesAt(ops[..i], bp)| {
      i := PostfixesAtFrom(ops[..i], bp, k);
    }
  }

  lemma {:induction false} PostfixesAtHas(ops: seq<PostfixOp>, i: nat) returns (k: nat)
    requires i < |ops|
    ensures k < |PostfixesAt(ops, ops[i].leftBP)|
    ensures PostfixesAt(ops, ops[i].leftBP)[k] == TokenNode(ops[i].grammarLabel, ops[i].token)
  {
    var n := |ops| - 1;
    if i == n {
      k := |PostfixesAt(ops[..n], ops[i].leftBP)|;
    } else {
      k := PostfixesAtHas(ops[..n], i);
    }
  }

  /** The words of a level's postfixes are tokens of the parser's table. */
  lemma {:induction false} PostfixesWords(rules: Rules, ops: seq<PostfixOp>, bp: int, w: Word)
    requires w in AltLang(Exact, rules, PostfixesAt(ops, bp))
    ensures |w| == 1 && w[0] in PostfixTable(ops)
  {
    var k := AltElim(rules, PostfixesAt(ops, bp), w);
    var i := PostfixesAtFrom(ops, bp, k);
    LangToken(Exact, rules, TokenNode(ops[i].grammarLabel, ops[i].token));
    PostfixTableHas(ops, i);
  }

  lemma {:induction false} InfixesAtFrom(ops: seq<InfixOp>, bp: int, k: nat) returns (i: nat)
    requires k < |InfixesAt(ops, bp)|
    ensures i < |ops| && ops[i].leftBP == bp && InfixesAt(ops, bp)[k] == TokenNode(ops[i].grammarLabel, ops[i].token)
  {
    i := |ops| - 1;
    if k < |InfixesAt(ops[..i], bp)| {
      i := InfixesAtFrom(ops[..i], bp, k);
    }
  }

  lemma {:induction false} InfixesAtHas(ops: seq<InfixOp>, i: nat) returns (k: nat)
    requires i < |ops|
    ensures k < |InfixesAt(ops, ops[i].leftBP)|
    ensures InfixesAt(ops, ops[i].leftBP)[k] == TokenNode(ops[i].grammarLabel, ops[i].token)
  {
    var n := |ops| - 1;
    if i == n {
      k := |InfixesAt(ops[..n], ops[i].leftBP)|;
    } else {
      k := InfixesAtHas(ops[..n], i);
    }
  }

  /** The words of a level's infixes are tokens of the parser's table. */
  lemma {:induction false} InfixesWords(rules: Rules, ops: seq<InfixOp>, bp: int, w: Word)
    requires w in AltLang(Exact, rules, InfixesAt(ops, bp))
    ensures |w| == 1 && w[0] in InfixTable(ops)
  {
    var k := AltElim(rules, InfixesAt(ops, bp), w);
    var i := InfixesAtFrom(ops, bp, k);
    LangToken(Exact, rules, TokenNode(ops[i].grammarLabel, ops[i].token));
    InfixTableHas(ops, i);
  }

  lemma {:induction false} PostfixDerivable(rules: Rules, ops: seq<PostfixOp>, i: nat)
    requires i < |ops|
    ensures PostfixesAt(ops, ops[i].leftBP) != [] && [ops[i].token] in AltLang(Exact, rules, PostfixesAt(ops, ops[i].leftBP))
  {
    var k := PostfixesAtHas(ops, i);
    AltIntro(rules, PostfixesAt(ops, ops[i].leftBP), k);
    LangToken(Exact, rules, TokenNode(ops[i].grammarLabel, ops[i].token));
  }

  lemma {:induction false} InfixDerivable(rules: Rules, ops: seq<InfixOp>, i: nat)
    requires i < |ops|
    ensures InfixesAt(ops, ops[i].leftBP) != [] && [ops[i].token] in AltLang(Exact, rules, InfixesAt(ops, ops[i].leftBP))
  {
    var k := InfixesAtHas(ops, i);
    AltIntro(rules, InfixesAt(ops, ops[i].leftBP), k);
    LangToken(Exact, rules, TokenNode(ops[i].grammarLabel, ops[i].token));
  }

  // --------------------------------------------------------- level words are flat

  lemma {:induction false} PowerAbsorbedLeft(a: Language, f: Language, n: nat)
    requires Cat(a, f) <= f
    ensures Cat(Power(a, n), f) <= f
  {
    if n == 0 {
      CatUnit(f);
    } else {
      PowerAbsorbedLeft(a, f, n - 1);
      CatAssoc(a, Power(a, n - 1), f);
      CatMono(a, Cat(Power(a, n - 1), f), a, f);
    }
  }

  lemma StarAbsorbedLeft(a: Language, f: Language)
    requires Cat(a, f) <= f
    ensures Cat(Star(a), f) <= f
  {
    forall w | w in Cat(Star(a), f) ensures w in f {
      var u, v := CatElim(Star(a), f, w);
      var n: nat :| Rounds(a, n, u);
      CatIntro(Power(a, n), f, u, v);
      PowerAbsorbedLeft(a, f, n);
    }
  }

  lemma {:induction false} PowerAbsorbedRight(f: Language, a: Language, n: nat)
    requires Cat(f, a) <= f
    ensures Cat(f, Power(a, n)) <= f
  {
    if n == 0 {
      CatUnit(f);
    } else {
      PowerAbsorbedRight(f, a, n - 1);
      CatAssoc(f, a, Power(a, n - 1));
      CatMono(Cat(f, a), Power(a, n - 1), f, Power(a, n - 1));
    }
  }

  lemma StarAbsorbedRight(f: Language, a: Language)
    requires Cat(f, a) <= f
    ensures Cat(f, Star(a)) <= f
  {
    forall w | w in Cat(f, Star(a)) ensures w in f {
      var u, v := CatElim(f, Star(a), w);
      var n: nat :| Rounds(a, n, v);
      CatIntro(f, Power(a, n), u, v);
      PowerAbsorbedRight(f, a, n);
    }
  }

  lemma {:induction false} PrefixesAbsorbed(cfg: Config, rules: Rules, config: PrattConfig, bp: int)
    requires TablesFrom(cfg, config)
    ensures Cat(AltLang(Exact, rules, PrefixesAt(config.prefixOps, bp)), FlatLang(cfg)) <= FlatLang(cfg)
  {
    var ps := AltLang(Exact, rules, PrefixesAt(config.prefixOps, bp));
    forall w | w in Cat(ps, FlatLang(cfg)) ensures w in FlatLang(cfg) {
      var u, v := CatElim(ps, FlatLang(cfg), w);
      PrefixesWords(rules, config.prefixOps, bp, u);
      assert u == [u[0]];
      FlatPrefix(cfg, u[0], v);
    }
  }

  /** A flat word followed by one suffix of a level whose body is flat stays flat. */
  lemma SuffixAbsorbed(cfg: Config, rules: Rules, config: PrattConfig, bp: int, body: Language, u: Word, v: Word)
    requires TablesFrom(cfg, config) && body <= FlatLang(cfg) && Flat(cfg, u)
    requires v in SuffixLang(rules, LevelAt(config, bp), body)
    ensures Flat(cfg, u + v)
  {
    var posts, ins := PostfixesAt(config.postfixOps, bp), InfixesAt(config.infixOps, bp);
    if v in AltLang(Exact, rules, posts) {
      PostfixesWords(rules, config.postfixOps, bp, v);
      assert v == [v[0]];
      FlatPostfix(cfg, u, v[0]);
    } else if v in Cat(AltLang(Exact, rules, ins), body) {
      var op, right := CatElim(AltLang(Exact, rules, ins), body, v);
      InfixesWords(rules, config.infixOps, bp, op);
      assert op == [op[0]];
      FlatInfix(cfg, u, op[0], right);
    } else {
      FlatImplicit(cfg, u, v);
    }
  }

  lemma BodyFlat(cfg: Config, rules: Rules, config: PrattConfig, bp: int, next: Language)
    requires TablesFrom(cfg, config) && next <= FlatLang(cfg)
    ensures BodyLang(rules, LevelAt(config, bp), next) <= FlatLang(cfg)
  {
    var ps := AltLang(Exact, rules, PrefixesAt(config.prefixOps, bp));
    PrefixesAbsorbed(cfg, rules, config, bp);
    StarAbsorbedLeft(ps, FlatLang(cfg));
    CatMono(Star(ps), next, Star(ps), FlatLang(cfg));
  }

  lemma LevelFlat(cfg: Config, rules: Rules, config: PrattConfig, bp: int, next: Language)
    requires TablesFrom(cfg, config) && next <= FlatLang(cfg)
    ensures LevelLang(rules, LevelAt(config, bp), next) <= FlatLang(cfg)
  {
    var f, body := FlatLang(cfg), BodyLang(rules, LevelAt(config, bp), next);
    var suffix := SuffixLang(rules, LevelAt(config, bp), body);
    BodyFlat(cfg, rules, config, bp, next);
    forall w | w in Cat(f, suffix) ensures w in f {
      var u, v := CatElim(f, suffix, w);
      SuffixAbsorbed(cfg, rules, config, bp, body, u, v);
    }
    StarAbsorbedRight(f, suffix);
    CatMono(body, Star(suffix), f, Star(suffix));
  }

  // ------------------------------------------------------------- the whole chain

  /** Every level is registered under its label. */
  ghost predicate Installed(rules: Rules, base: Label, config: PrattConfig, bps: seq<int>) {
    forall i :: 0 <= i < |bps| ==> HasLevel(rules, base, config, bps, i)
  }

  ghost predicate HasLevel(rules: Rules, base: Label, config: PrattConfig, bps: seq<int>, i: nat)
    requires i < |bps|
  {
    LevelLabel(base, bps[i]) in rules && rules[LevelLabel(base, bps[i])] == LevelRoot(base, config, bps, i)
  }

  /** The primary rule takes the whole of each word of its grammar, and no such word starts like a prefix operator. */
  ghost predicate PrimaryTakesItsWords(cfg: Config, rules: Rules, config: PrattConfig) {
    forall w :: w in Lang(Exact, rules, config.primary) ==> PrimaryWord(cfg, w)
  }

  ghost predicate PrimaryWord(cfg: Config, w: Word) {
    w != [] && w[0] !in cfg.prefixMap && cfg.primary(w) == Some(|w|)
  }

  /** What the node below level i derives. */
  lemma NextMeans(rules: Rules, base: Label, config: PrattConfig, bps: seq<int>, i: nat)
    requires i < |bps| && Installed(rules, base, config, bps)
    ensures Lang(Exact, rules, NextLevel(base, config, bps, i)) ==
            if i == |bps| - 1 then Lang(Exact, rules, config.primary)
            else Lang(Exact, rules, LevelRoot(base, config, bps, i + 1))
  {
    if i < |bps| - 1 {
      assert HasLevel(rules, base, config, bps, i + 1);
      LangReference(Exact, rules, NextLevel(base, config, bps, i));
    }
  }

  /** The words of level i, by its definition from the next tighter level. */
  ghost function TierLang(rules: Rules, config: PrattConfig, bps: seq<int>, i: nat): Language
    requires i < |bps|
    decreases |bps| - i
  {
    LevelLang(rules, LevelAt(config, bps[i]), NextLang(rules, config, bps, i))
  }

  ghost function NextLang(rules: Rules, config: PrattConfig, bps: seq<int>, i: nat): Language
    requires i < |bps|
    decreases |bps| - i, 0
  {
    if i == |bps| - 1 then Lang(Exact, rules, config.primary) else TierLang(rules, config, bps, i + 1)
  }

  lemma {:induction false} LevelRootMeans(rules: Rules, base: Label, config: PrattConfig, bps: seq<int>, i: nat)
    requires i < |bps| && Installed(rules, base, config, bps)
    ensures Lang(Exact, rules, LevelRoot(base, config, bps, i)) == TierLang(rules, config, bps, i)
    decreases |bps| - i
  {
    var g := SingleLevel(base, LevelAt(config, bps[i]), NextLevel(base, config, bps, i));
    NextMeans(rules, base, config, bps, i);
    if i < |bps| - 1 {
      LevelRootMeans(rules, base, config, bps, i + 1);
    }
    RelabelledMeans(rules, g, LevelLabel(base, bps[i]));
    SingleLevelMeans(rules, base, LevelAt(config, bps[i]), NextLevel(base, config, bps, i));
  }

  lemma PrimaryFlat(cfg: Config, rules: Rules, config: PrattConfig)
    requires PrimaryTakesItsWords(cfg, rules, config)
    ensures Lang(Exact, rules, config.primary) <= FlatLang(cfg)
  {
    forall w | w in Lang(Exact, rules, config.primary) ensures w in FlatLang(cfg) {
      assert PrimaryWord(cfg, w);
      assert w + Text([]) == w;
      assert FlatAs(cfg, w, w, []);
    }
  }

  lemma {:induction false} TierFlat(cfg: Config, rules: Rules, config: PrattConfig, bps: seq<int>, i: nat)
    requires i < |bps| && TablesFrom(cfg, config) && PrimaryTakesItsWords(cfg, rules, config)
    ensures TierLang(rules, config, bps, i) <= FlatLang(cfg)
    decreases |bps| - i
  {
    if i == |bps| - 1 {
      PrimaryFlat(cfg, rules, config);
    } else {
      TierFlat(cfg, rules, config, bps, i + 1);
    }
    LevelFlat(cfg, rules, config, bps[i], NextLang(rules, config, bps, i));
  }

  lemma {:induction false} RootMeans(rules: Rules, base: Label, config: PrattConfig, bps: seq<int>)
    requires Installed(rules, base, config, bps)
    ensures Lang(Exact, rules, Root(base, config, bps)) ==
            if bps == [] then Lang(Exact, rules, config.primary) else TierLang(rules, config, bps, 0)
  {
    if bps != [] {
      assert HasLevel(rules, base, config, bps, 0);
      LevelRootMeans(rules, base, config, bps, 0);
      LangReference(Exact, rules, Root(base, config, bps));
    }
  }

  /** Every word of the level grammar is operands joined by operators. */
  lemma RootFlat(cfg: Config, rules: Rules, base: Label, config: PrattConfig, bps: seq<int>)
    requires Installed(rules, base, config, bps)
    requires TablesFrom(cfg, config) && PrimaryTakesItsWords(cfg, rules, config)
    ensures Lang(Exact, rules, Root(base, config, bps)) <= FlatLang(cfg)
  {
    RootMeans(rules, base, config, bps);
    if bps == [] {
      PrimaryFlat(cfg, rules, config);
    } else {
      TierFlat(cfg, rules, config, bps, 0);
    }
  }

  // -------------------------------------------------- the grammar and the parser

  /** The parser, started at minimum 0, takes the whole input. */
  ghost predicate Consumed(cfg: Config, w: Word) {
    ParseExpr(cfg, w, 0).Parsed? && ParseExpr(cfg, w, 0).rest == []
  }

  /** A level contains the language it rests on, and that language followed by one suffix. */
  lemma LevelContains(rules: Rules, l: Level, next: Language, u: Word, v: Word)
    requires u in next && (v == [] || v in SuffixLang(rules, l, BodyLang(rules, l, next)))
    ensures u in BodyLang(rules, l, next) && u + v in LevelLang(rules, l, next)
  {
    var ps := AltLang(Exact, rules, l.prefixes);
    StarUnfold(ps);
    CatIntro(Star(ps), next, [], u);
    assert [] + u == u;
    LevelHas(rules, l, next, u, v);
  }

  lemma LevelHas(rules: Rules, l: Level, next: Language, u: Word, v: Word)
    requires u in BodyLang(rules, l, next) && (v == [] || v in SuffixLang(rules, l, BodyLang(rules, l, next)))
    ensures u + v in LevelLang(rules, l, next)
  {
    var body := BodyLang(rules, l, next);
    var suffix := SuffixLang(rules, l, body);
    StarUnfold(suffix);
    if v != [] {
      CatIntro(suffix, Star(suffix), v, []);
      assert v + [] == v;
    }
    CatIntro(body, Star(suffix), u, v);
  }

  lemma LevelInLevel(rules: Rules, l: Level, next: Language)
    ensures next <= LevelLang(rules, l, next)
  {
    forall w | w in next ensures w in LevelLang(rules, l, next) {
      LevelContains(rules, l, next, w, []);
      assert w + [] == w;
    }
  }

  lemma Within(a: Language, b: Language, c: Language)
    requires a <= b && b <= c
    ensures a <= c
  {
  }

  /** The primary's words belong to the language under every level. */
  lemma {:induction false} PrimaryUnder(rules: Rules, config: PrattConfig, bps: seq<int>, i: nat)
    requires i < |bps|
    ensures Lang(Exact, rules, config.primary) <= NextLang(rules, config, bps, i)
    decreases |bps| - i
  {
    if i < |bps| - 1 {
      PrimaryUnder(rules, config, bps, i + 1);
      LevelInLevel(rules, LevelAt(config, bps[i + 1]), NextLang(rules, config, bps, i + 1));
      Within(Lang(Exact, rules, config.primary), NextLang(rules, config, bps, i + 1), TierLang(rules, config, bps, i + 1));
    }
  }

  lemma TierInLooser(rules: Rules, config: PrattConfig, bps: seq<int>, i: nat)
    requires 0 < i < |bps|
    ensures TierLang(rules, config, bps, i) <= TierLang(rules, config, bps, i - 1)
  {
    LevelInLevel(rules, LevelAt(config, bps[i - 1]), NextLang(rules, config, bps, i - 1));
  }

  lemma BelowLooser(rules: Rules, config: PrattConfig, bps: seq<int>, i: nat, a: Language)
    requires 0 < i < |bps| && a <= TierLang(rules, config, bps, i)
    ensures a <= TierLang(rules, config, bps, i - 1)
  {
    TierInLooser(rules, config, bps, i);
    Within(a, TierLang(rules, config, bps, i), TierLang(rules, config, bps, i - 1));
  }

  /** Looser levels contain tighter ones, so the loosest contains them all. */
  lemma {:induction false} TierInLoosest(rules: Rules, config: PrattConfig, bps: seq<int>, i: nat, a: Language)
    requires i < |bps| && a <= TierLang(rules, config, bps, i)
    ensures a <= TierLang(rules, config, bps, 0)
    decreases i
  {
    if i > 0 {
      BelowLooser(rules, config, bps, i, a);
      TierInLoosest(rules, config, bps, i - 1, a);
    }
  }

  /** A primary word followed by one suffix of some level in use. */
  lemma SuffixedInRoot(rules: Rules, base: Label, config: PrattConfig, bps: seq<int>, bp: int, a: Word, v: Word)
    requires PowersOf(config, bps) && Installed(rules, base, config, bps)
    requires a in Lang(Exact, rules, config.primary) && LevelAt(config, bp) != NO_OPERATORS
    requires forall next: Language :: a in next && a in BodyLang(rules, LevelAt(config, bp), next) ==>
               v in SuffixLang(rules, LevelAt(config, bp), BodyLang(rules, LevelAt(config, bp), next))
    ensures a + v in Lang(Exact, rules, Root(base, config, bps))
  {
    assert bp in bps;
    var i :| 0 <= i < |bps| && bps[i] == bp;
    var next := NextLang(rules, config, bps, i);
    PrimaryUnder(rules, config, bps, i);
    LevelContains(rules, LevelAt(config, bp), next, a, []);
    LevelContains(rules, LevelAt(config, bp), next, a, v);
    TierInLoosest(rules, config, bps, i, TierLang(rules, config, bps, i));
    RootMeans(rules, base, config, bps);
  }

  /** A suffix whose power is negative is left unread. */
  lemma Stranded(cfg: Config, a: Word, more: Word)
    requires ConfigOk(cfg) && PrimaryWord(cfg, a) && more != [] && !Accepts(cfg, more, 0)
    ensures !Consumed(cfg, a + more)
  {
    ParsesPrimary(cfg, a, more, 0);
    LoopStops(cfg, Primary(a), more, 0);
  }

  lemma PostfixStrands(cfg: Config, rules: Rules, base: Label, config: PrattConfig, bps: seq<int>, a: Word, op: Token)
    returns (w: Word)
    requires ConfigOk(cfg) && TablesFrom(cfg, config) && PowersOf(config, bps) && Installed(rules, base, config, bps)
    requires a in Lang(Exact, rules, config.primary) && PrimaryWord(cfg, a)
    requires op in cfg.postfixMap && cfg.postfixMap[op].leftBP < 0
    ensures w in Lang(Exact, rules, Root(base, config, bps)) && !Consumed(cfg, w)
  {
    var i := PostfixTableFrom(config.postfixOps, op);
    PostfixDerivable(rules, config.postfixOps, i);
    SuffixedInRoot(rules, base, config, bps, config.postfixOps[i].leftBP, a, [op]);
    Stranded(cfg, a, [op]);
    w := a + [op];
  }

  lemma InfixStrands(cfg: Config, rules: Rules, base: Label, config: PrattConfig, bps: seq<int>, a: Word, op: Token)
    returns (w: Word)
    requires ConfigOk(cfg) && TablesFrom(cfg, config) && PowersOf(config, bps) && Installed(rules, base, config, bps)
    requires a in Lang(Exact, rules, config.primary) && PrimaryWord(cfg, a)
    requires op in cfg.infixMap && cfg.infixMap[op].leftBP < 0
    ensures w in Lang(Exact, rules, Root(base, config, bps)) && !Consumed(cfg, w)
  {
    var i := InfixTableFrom(config.infixOps, op);
    InfixDerivable(rules, config.infixOps, i);
    var l := LevelAt(config, config.infixOps[i].leftBP);
    forall next: Language | a in next && a in BodyLang(rules, l, next)
      ensures [op] + a in SuffixLang(rules, l, BodyLang(rules, l, next))
    {
      CatIntro(AltLang(Exact, rules, l.infixes), BodyLang(rules, l, next), [op], a);
    }
    SuffixedInRoot(rules, base, config, bps, config.infixOps[i].leftBP, a, [op] + a);
    Stranded(cfg, a, [op] + a);
    w := a + ([op] + a);
  }

  lemma ImplicitStrands(cfg: Config, rules: Rules, base: Label, config: PrattConfig, bps: seq<int>, a: Word)
    returns (w: Word)
    requires ConfigOk(cfg) && TablesFrom(cfg, config) && PowersOf(config, bps) && Installed(rules, base, config, bps)
    requires a in Lang(Exact, rules, config.primary) && PrimaryWord(cfg, a)
    requires cfg.implicitOp.Some? && cfg.implicitOp.value.leftBP < 0
    ensures w in Lang(Exact, rules, Root(base, config, bps)) && !Consumed(cfg, w)
  {
    SuffixedInRoot(rules, base, config, bps, cfg.implicitOp.value.leftBP, a, a);
    OperandStart(cfg, a);
    Stranded(cfg, a, a);
    w := a + a;
  }

  /**
   The published grammar and the parser agree in the direction the grammar is used for:
   the parser consumes every word the grammar derives, exactly when no operator has a
   negative left power.
   */
  lemma LevelGrammarConsumed(cfg: Config, rules: Rules, base: Label, config: PrattConfig, bps: seq<int>)
    requires ConfigOk(cfg) && TablesFrom(cfg, config) && PowersOf(config, bps) && Installed(rules, base, config, bps)
    requires PrimaryTakesItsWords(cfg, rules, config) && Lang(Exact, rules, config.primary) != Empty
    ensures (forall w :: w in Lang(Exact, rules, Root(base, config, bps)) ==> Consumed(cfg, w)) <==> NonNegative(cfg)
  {
    if NonNegative(cfg) {
      forall w | w in Lang(Exact, rules, Root(base, config, bps)) ensures Consumed(cfg, w) {
        RootFlat(cfg, rules, base, config, bps);
        FlatAcceptance(cfg, w);
      }
    } else {
      var a :| a in Lang(Exact, rules, config.primary);
      assert PrimaryWord(cfg, a);
      if op :| op in cfg.postfixMap && cfg.postfixMap[op].leftBP < 0 {
        var w := PostfixStrands(cfg, rules, base, config, bps, a, op);
      } else if op :| op in cfg.infixMap && cfg.infixMap[op].leftBP < 0 {
        var w := InfixStrands(cfg, rules, base, config, bps, a, op);
      } else {
        var w := ImplicitStrands(cfg, rules, base, config, bps, a);
      }
    }
  }
}
