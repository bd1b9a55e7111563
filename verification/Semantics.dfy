/**
 The words of a grammar node. References are unfolded a bounded number of times, so
 the meaning is well founded for every rule map, and a word belongs to a node when
 some bound derives it.

 Two readings of a repetition are kept apart: Exact follows Min and Max, Lowered is
 what both lowering passes implement (zero-or-more when Min is 0, one-or-more
 otherwise, Max ignored).
 */
module Semantics {
  import opened Languages
  import opened Grammars

  datatype Bounds = Exact | Lowered

  ghost function RepeatLang(m: Bounds, min: nat, max: Option<nat>, a: Language): Language {
    match m
    case Exact => Iterate(a, min, if max.Some? then max.value else -1)
    case Lowered => if min == 0 then Star(a) else Cat(a, Star(a))
  }

  /** Words derivable with at most h nested reference expansions. */
  ghost function LangAt(m: Bounds, rules: Rules, g: Grammar, h: nat): Language
    decreases h, g
  {
    match g
    case GToken(_, token) => Single(token)
    case GConcat(_, children) => SeqAt(m, rules, children, h)
    case GChoice(_, children) => AltAt(m, rules, children, h)
    case GRepeat(_, body, min, max) => RepeatLang(m, min, max, LangAt(m, rules, body, h))
    case GOptional(_, body) => Epsilon + LangAt(m, rules, body, h)
    case GEpsilon(_) => Epsilon
    case GNest(_, open, close, body) => Cat(Single(open), Cat(LangAt(m, rules, body, h), Single(close)))
    case GReference(_, target) =>
      if h == 0 || target !in rules then Empty else LangAt(m, rules, rules[target], h - 1)
  }

  ghost function SeqAt(m: Bounds, rules: Rules, gs: seq<Grammar>, h: nat): Language
    decreases h, gs
  {
    if gs == [] then Epsilon else Cat(LangAt(m, rules, gs[0], h), SeqAt(m, rules, gs[1..], h))
  }

  ghost function AltAt(m: Bounds, rules: Rules, gs: seq<Grammar>, h: nat): Language
    decreases h, gs
  {
    if gs == [] then Empty else LangAt(m, rules, gs[0], h) + AltAt(m, rules, gs[1..], h)
  }

  ghost predicate DerivesAt(m: Bounds, rules: Rules, g: Grammar, w: Word, h: nat) {
    w in LangAt(m, rules, g, h)
  }

  ghost predicate Derives(m: Bounds, rules: Rules, g: Grammar, w: Word) {
    exists h: nat :: DerivesAt(m, rules, g, w, h)
  }

  ghost function Lang(m: Bounds, rules: Rules, g: Grammar): Language {
    iset w: Word | Derives(m, rules, g, w)
  }

  ghost function SeqLang(m: Bounds, rules: Rules, gs: seq<Grammar>): Language {
    if gs == [] then Epsilon else Cat(Lang(m, rules, gs[0]), SeqLang(m, rules, gs[1..]))
  }

  ghost function AltLang(m: Bounds, rules: Rules, gs: seq<Grammar>): Language {
    if gs == [] then Empty else Lang(m, rules, gs[0]) + AltLang(m, rules, gs[1..])
  }

  // -------------------------------------------------- more height, more words

  lemma RepeatMono(m: Bounds, min: nat, max: Option<nat>, a: Language, b: Language)
    requires a <= b
    ensures RepeatLang(m, min, max, a) <= RepeatLang(m, min, max, b)
  {
    StarMono(a, b);
    CatMono(a, Star(a), b, Star(b));
    var top := if max.Some? then max.value else -1;
    forall w | w in Iterate(a, min, top) ensures w in Iterate(b, min, top) {
      var n: nat :| min <= n && (top < 0 || n <= top) && Rounds(a, n, w);
      PowerMono(a, b, n);
      assert Rounds(b, n, w);
    }
  }

  lemma {:induction false} LangAtMono(m: Bounds, rules: Rules, g: Grammar, h: nat, k: nat)
    requires h <= k
    ensures LangAt(m, rules, g, h) <= LangAt(m, rules, g, k)
    decreases h, g
  {
    match g
    case GToken(_, _) =>
    case GConcat(_, children) => SeqAtMono(m, rules, children, h, k);
    case GChoice(_, children) => AltAtMono(m, rules, children, h, k);
    case GRepeat(_, body, min, max) =>
      LangAtMono(m, rules, body, h, k);
      RepeatMono(m, min, max, LangAt(m, rules, body, h), LangAt(m, rules, body, k));
    case GOptional(_, body) => LangAtMono(m, rules, body, h, k);
    case GEpsilon(_) =>
    case GNest(_, open, close, body) =>
      LangAtMono(m, rules, body, h, k);
      var a, b := LangAt(m, rules, body, h), LangAt(m, rules, body, k);
      CatMono(a, Single(close), b, Single(close));
      CatMono(Single(open), Cat(a, Single(close)), Single(open), Cat(b, Single(close)));
    case GReference(_, target) =>
      if h > 0 && target in rules {
        LangAtMono(m, rules, rules[target], h - 1, k - 1);
      }
  }

  lemma {:induction false} SeqAtMono(m: Bounds, rules: Rules, gs: seq<Grammar>, h: nat, k: nat)
    requires h <= k
    ensures SeqAt(m, rules, gs, h) <= SeqAt(m, rules, gs, k)
    decreases h, gs
  {
    if gs != [] {
      LangAtMono(m, rules, gs[0], h, k);
      SeqAtMono(m, rules, gs[1..], h, k);
      CatMono(LangAt(m, rules, gs[0], h), SeqAt(m, rules, gs[1..], h),
              LangAt(m, rules, gs[0], k), SeqAt(m, rules, gs[1..], k));
    }
  }

  lemma {:induction false} AltAtMono(m: Bounds, rules: Rules, gs: seq<Grammar>, h: nat, k: nat)
    requires h <= k
    ensures AltAt(m, rules, gs, h) <= AltAt(m, rules, gs, k)
    decreases h, gs
  {
    if gs != [] {
      LangAtMono(m, rules, gs[0], h, k);
      AltAtMono(m, rules, gs[1..], h, k);
    }
  }

  lemma {:induction false} LangAtInLang(m: Bounds, rules: Rules, g: Grammar, h: nat)
    ensures LangAt(m, rules, g, h) <= Lang(m, rules, g)
  {
    forall w | w in LangAt(m, rules, g, h) ensures w in Lang(m, rules, g) {
      assert DerivesAt(m, rules, g, w, h);
    }
  }

  lemma LangElim(m: Bounds, rules: Rules, g: Grammar, w: Word) returns (h: nat)
    requires w in Lang(m, rules, g)
    ensures w in LangAt(m, rules, g, h)
  {
    h :| DerivesAt(m, rules, g, w, h);
  }

  // ------------------------------------------------- the limit of each operator

  lemma {:induction false} SeqAtInSeqLang(m: Bounds, rules: Rules, gs: seq<Grammar>, h: nat)
    ensures SeqAt(m, rules, gs, h) <= SeqLang(m, rules, gs)
  {
    if gs != [] {
      LangAtInLang(m, rules, gs[0], h);
      SeqAtInSeqLang(m, rules, gs[1..], h);
      CatMono(LangAt(m, rules, gs[0], h), SeqAt(m, rules, gs[1..], h),
              Lang(m, rules, gs[0]), SeqLang(m, rules, gs[1..]));
    }
  }

  lemma {:induction false} SeqLangElim(m: Bounds, rules: Rules, gs: seq<Grammar>, w: Word) returns (h: nat)
    requires w in SeqLang(m, rules, gs)
    ensures w in SeqAt(m, rules, gs, h)
  {
    h := 0;
    if gs != [] {
      var u, v := CatElim(Lang(m, rules, gs[0]), SeqLang(m, rules, gs[1..]), w);
      var h0 := LangElim(m, rules, gs[0], u);
      var h1 := SeqLangElim(m, rules, gs[1..], v);
      h := if h0 < h1 then h1 else h0;
      LangAtMono(m, rules, gs[0], h0, h);
      SeqAtMono(m, rules, gs[1..], h1, h);
      CatIntro(LangAt(m, rules, gs[0], h), SeqAt(m, rules, gs[1..], h), u, v);
    }
  }

  lemma {:induction false} AltAtInAltLang(m: Bounds, rules: Rules, gs: seq<Grammar>, h: nat)
    ensures AltAt(m, rules, gs, h) <= AltLang(m, rules, gs)
  {
    if gs != [] {
      LangAtInLang(m, rules, gs[0], h);
      AltAtInAltLang(m, rules, gs[1..], h);
    }
  }

  lemma {:induction false} AltLangElim(m: Bounds, rules: Rules, gs: seq<Grammar>, w: Word) returns (h: nat)
    requires w in AltLang(m, rules, gs)
    ensures w in AltAt(m, rules, gs, h)
  {
    if w in Lang(m, rules, gs[0]) {
      h := LangElim(m, rules, gs[0], w);
    } else {
      h := AltLangElim(m, rules, gs[1..], w);
    }
  }

  lemma {:induction false} PowerElim(m: Bounds, rules: Rules, g: Grammar, n: nat, w: Word) returns (h: nat)
    requires w in Power(Lang(m, rules, g), n)
    ensures w in Power(LangAt(m, rules, g, h), n)
  {
    h := 0;
    if n > 0 {
      var u, v := CatElim(Lang(m, rules, g), Power(Lang(m, rules, g), n - 1), w);
      var h0 := LangElim(m, rules, g, u);
      var h1 := PowerElim(m, rules, g, n - 1, v);
      h := if h0 < h1 then h1 else h0;
      LangAtMono(m, rules, g, h0, h);
      LangAtMono(m, rules, g, h1, h);
      PowerMono(LangAt(m, rules, g, h1), LangAt(m, rules, g, h), n - 1);
      CatIntro(LangAt(m, rules, g, h), Power(LangAt(m, rules, g, h), n - 1), u, v);
    }
  }

  /** Both readings of a repetition, as a bound on the number of rounds. */
  lemma RepeatAsIterate(m: Bounds, min: nat, max: Option<nat>, a: Language) returns (lo: nat, hi: int)
    ensures lo == (if m.Exact? then min else if min == 0 then 0 else 1)
    ensures hi == (if m.Exact? && max.Some? then max.value else -1)
    ensures RepeatLang(m, min, max, a) == Iterate(a, lo, hi)
  {
    lo := if m.Exact? then min else if min == 0 then 0 else 1;
    hi := if m.Exact? && max.Some? then max.value else -1;
    IterateStar(a);
    IteratePlus(a);
  }

  // --------------------------------------------------- one equation per kind

  lemma LangToken(m: Bounds, rules: Rules, g: Grammar)
    requires g.GToken?
    ensures Lang(m, rules, g) == Single(g.token)
  {
    LangAtInLang(m, rules, g, 0);
    forall w | w in Lang(m, rules, g) ensures w in Single(g.token) {
      var h := LangElim(m, rules, g, w);
    }
  }

  lemma LangEpsilon(m: Bounds, rules: Rules, g: Grammar)
    requires g.GEpsilon?
    ensures Lang(m, rules, g) == Epsilon
  {
    LangAtInLang(m, rules, g, 0);
    forall w | w in Lang(m, rules, g) ensures w in Epsilon {
      var h := LangElim(m, rules, g, w);
    }
  }

  lemma {:induction false} LangConcat(m: Bounds, rules: Rules, g: Grammar)
    requires g.GConcat?
    ensures Lang(m, rules, g) == SeqLang(m, rules, g.children)
  {
    forall w | w in Lang(m, rules, g) ensures w in SeqLang(m, rules, g.children) {
      var h := LangElim(m, rules, g, w);
      SeqAtInSeqLang(m, rules, g.children, h);
    }
    forall w | w in SeqLang(m, rules, g.children) ensures w in Lang(m, rules, g) {
      var h := SeqLangElim(m, rules, g.children, w);
      LangAtInLang(m, rules, g, h);
    }
  }

  lemma {:induction false} LangChoice(m: Bounds, rules: Rules, g: Grammar)
    requires g.GChoice?
    ensures Lang(m, rules, g) == AltLang(m, rules, g.children)
  {
    forall w | w in Lang(m, rules, g) ensures w in AltLang(m, rules, g.children) {
      var h := LangElim(m, rules, g, w);
      AltAtInAltLang(m, rules, g.children, h);
    }
    forall w | w in AltLang(m, rules, g.children) ensures w in Lang(m, rules, g) {
      var h := AltLangElim(m, rules, g.children, w);
      LangAtInLang(m, rules, g, h);
    }
  }

  lemma LangRepeat(m: Bounds, rules: Rules, g: Grammar)
    requires g.GRepeat?
    ensures Lang(m, rules, g) == RepeatLang(m, g.min, g.max, Lang(m, rules, g.body))
  {
    var a := Lang(m, rules, g.body);
    forall w | w in Lang(m, rules, g) ensures w in RepeatLang(m, g.min, g.max, a) {
      var h := LangElim(m, rules, g, w);
      LangAtInLang(m, rules, g.body, h);
      RepeatMono(m, g.min, g.max, LangAt(m, rules, g.body, h), a);
    }
    forall w | w in RepeatLang(m, g.min, g.max, a) ensures w in Lang(m, rules, g) {
      var lo, hi := RepeatAsIterate(m, g.min, g.max, a);
      var n: nat :| lo <= n && (hi < 0 || n <= hi) && Rounds(a, n, w);
      var h := PowerElim(m, rules, g.body, n, w);
      var ah := LangAt(m, rules, g.body, h);
      assert Rounds(ah, n, w);
      var lo', hi' := RepeatAsIterate(m, g.min, g.max, ah);
      LangAtInLang(m, rules, g, h);
    }
  }

  lemma LangOptional(m: Bounds, rules: Rules, g: Grammar)
    requires g.GOptional?
    ensures Lang(m, rules, g) == Epsilon + Lang(m, rules, g.body)
  {
    forall w: Word ensures w in Lang(m, rules, g) <==> w in Epsilon + Lang(m, rules, g.body) {
      if w in Lang(m, rules, g) {
        var h := LangElim(m, rules, g, w);
        LangAtInLang(m, rules, g.body, h);
      }
      if w == [] { LangAtInLang(m, rules, g, 0); }
      if w in Lang(m, rules, g.body) {
        var h := LangElim(m, rules, g.body, w);
        LangAtInLang(m, rules, g, h);
      }
    }
  }

  lemma LangNest(m: Bounds, rules: Rules, g: Grammar)
    requires g.GNest?
    ensures Lang(m, rules, g) == Cat(Single(g.open), Cat(Lang(m, rules, g.body), Single(g.close)))
  {
    var o, c, a := Single(g.open), Single(g.close), Lang(m, rules, g.body);
    forall w | w in Lang(m, rules, g) ensures w in Cat(o, Cat(a, c)) {
      var h := LangElim(m, rules, g, w);
      var ah := LangAt(m, rules, g.body, h);
      LangAtInLang(m, rules, g.body, h);
      CatMono(ah, c, a, c);
      CatMono(o, Cat(ah, c), o, Cat(a, c));
    }
    forall w | w in Cat(o, Cat(a, c)) ensures w in Lang(m, rules, g) {
      var x, yz := CatElim(o, Cat(a, c), w);
      var y, z := CatElim(a, c, yz);
      var h := LangElim(m, rules, g.body, y);
      CatIntro(LangAt(m, rules, g.body, h), c, y, z);
      CatIntro(o, Cat(LangAt(m, rules, g.body, h), c), x, yz);
      LangAtInLang(m, rules, g, h);
    }
  }

  lemma LangReference(m: Bounds, rules: Rules, g: Grammar)
    requires g.GReference?
    ensures Lang(m, rules, g) == if g.target in rules then Lang(m, rules, rules[g.target]) else Empty
  {
    forall w | w in Lang(m, rules, g)
      ensures g.target in rules && w in Lang(m, rules, rules[g.target])
    {
      var h := LangElim(m, rules, g, w);
      LangAtInLang(m, rules, rules[g.target], h - 1);
    }
    if g.target in rules {
      forall w | w in Lang(m, rules, rules[g.target]) ensures w in Lang(m, rules, g) {
        var h := LangElim(m, rules, rules[g.target], w);
        LangAtInLang(m, rules, g, h + 1);
      }
    }
  }

  // -------------------------------------------------- the two readings compared

  /** Every repetition in the tree is unbounded and starts at zero or one. */
  ghost predicate PlainRepeats(g: Grammar) {
    (g.GRepeat? ==> g.min <= 1 && g.max.None?) &&
    forall c :: c in ChildrenOf(g) ==> PlainRepeats(c)
  }

  ghost predicate PlainRules(rules: Rules) {
    forall l :: l in rules ==> PlainRepeats(rules[l])
  }

  lemma RepeatExactInLowered(min: nat, max: Option<nat>, a: Language)
    ensures RepeatLang(Exact, min, max, a) <= RepeatLang(Lowered, min, max, a)
    ensures min <= 1 && max.None? ==> RepeatLang(Exact, min, max, a) == RepeatLang(Lowered, min, max, a)
  {
    var lo, hi := RepeatAsIterate(Lowered, min, max, a);
    var lo', hi' := RepeatAsIterate(Exact, min, max, a);
    forall w | w in Iterate(a, lo', hi') ensures w in Iterate(a, lo, hi) {
      var n: nat :| lo' <= n && (hi' < 0 || n <= hi') && Rounds(a, n, w);
    }
  }

  lemma {:induction false} ExactAtInLowered(rules: Rules, g: Grammar, h: nat)
    ensures LangAt(Exact, rules, g, h) <= LangAt(Lowered, rules, g, h)
    ensures PlainRules(rules) && PlainRepeats(g) ==> LangAt(Exact, rules, g, h) == LangAt(Lowered, rules, g, h)
    decreases h, g
  {
    match g
    case GToken(_, _) =>
    case GConcat(_, children) => ExactSeqInLowered(rules, children, h);
    case GChoice(_, children) => ExactAltInLowered(rules, children, h);
    case GRepeat(_, body, min, max) =>
      ExactAtInLowered(rules, body, h);
      assert body in ChildrenOf(g);
      RepeatMono(Exact, min, max, LangAt(Exact, rules, body, h), LangAt(Lowered, rules, body, h));
      RepeatExactInLowered(min, max, LangAt(Lowered, rules, body, h));
    case GOptional(_, body) =>
      ExactAtInLowered(rules, body, h);
      assert body in ChildrenOf(g);
    case GEpsilon(_) =>
    case GNest(_, open, close, body) =>
      ExactAtInLowered(rules, body, h);
      assert body in ChildrenOf(g);
      var a, b := LangAt(Exact, rules, body, h), LangAt(Lowered, rules, body, h);
      CatMono(a, Single(close), b, Single(close));
      CatMono(Single(open), Cat(a, Single(close)), Single(open), Cat(b, Single(close)));
    case GReference(_, target) =>
      if h > 0 && target in rules {
        ExactAtInLowered(rules, rules[target], h - 1);
      }
  }

  lemma {:induction false} ExactSeqInLowered(rules: Rules, gs: seq<Grammar>, h: nat)
    ensures SeqAt(Exact, rules, gs, h) <= SeqAt(Lowered, rules, gs, h)
    ensures PlainRules(rules) && (forall g :: g in gs ==> PlainRepeats(g)) ==>
              SeqAt(Exact, rules, gs, h) == SeqAt(Lowered, rules, gs, h)
    decreases h, gs
  {
    if gs != [] {
      ExactAtInLowered(rules, gs[0], h);
      ExactSeqInLowered(rules, gs[1..], h);
      CatMono(LangAt(Exact, rules, gs[0], h), SeqAt(Exact, rules, gs[1..], h),
              LangAt(Lowered, rules, gs[0], h), SeqAt(Lowered, rules, gs[1..], h));
    }
  }

  lemma {:induction false} ExactAltInLowered(rules: Rules, gs: seq<Grammar>, h: nat)
    ensures AltAt(Exact, rules, gs, h) <= AltAt(Lowered, rules, gs, h)
    ensures PlainRules(rules) && (forall g :: g in gs ==> PlainRepeats(g)) ==>
              AltAt(Exact, rules, gs, h) == AltAt(Lowered, rules, gs, h)
    decreases h, gs
  {
    if gs != [] {
      ExactAtInLowered(rules, gs[0], h);
      ExactAltInLowered(rules, gs[1..], h);
    }
  }

  /** Lowering never loses a word, and adds none when every repetition is a plain star or plus. */
  lemma {:induction false} LoweredCoversExact(rules: Rules, g: Grammar)
    ensures Lang(Exact, rules, g) <= Lang(Lowered, rules, g)
    ensures PlainRules(rules) && PlainRepeats(g) ==> Lang(Exact, rules, g) == Lang(Lowered, rules, g)
  {
    forall w | w in Lang(Exact, rules, g) ensures w in Lang(Lowered, rules, g) {
      var h := LangElim(Exact, rules, g, w);
      ExactAtInLowered(rules, g, h);
      LangAtInLang(Lowered, rules, g, h);
    }
    if PlainRules(rules) && PlainRepeats(g) {
      forall w | w in Lang(Lowered, rules, g) ensures w in Lang(Exact, rules, g) {
        var h := LangElim(Lowered, rules, g, w);
        ExactAtInLowered(rules, g, h);
        LangAtInLang(Exact, rules, g, h);
      }
    }
  }
}
