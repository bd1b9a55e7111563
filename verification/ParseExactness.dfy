/**
 A parse by predictive rules accepts exactly the words of the grammar they publish, for all
 inputs. No word of a grammar holds the end-of-file token, so nothing can go on an input that
 has been read to its end.
 */
module ParseExactness {
  import opened Languages
  import opened Grammars
  import opened Semantics
  import opened TokenStreams
  import opened Sources
  import opened Rules
  import opened Engine
  import opened EngineIdle
  import opened Determinacy
  import opened Predictability
  import opened EngineTermination
  import opened EngineParse
  import ListRule
  import DueBodies
  import EngineCompleteness

  // ---------------------------------------------------------- words without a token

  ghost predicate Avoids(l: Language, t: Token) {
    forall w :: w in l ==> t !in w
  }

  lemma AvoidsCat(a: Language, b: Language, t: Token)
    requires Avoids(a, t) && Avoids(b, t)
    ensures Avoids(Cat(a, b), t)
  {
    forall w | w in Cat(a, b) ensures t !in w {
      var u, v := CatElim(a, b, w);
    }
  }

  lemma {:induction false} AvoidsPower(a: Language, n: nat, t: Token)
    requires Avoids(a, t)
    ensures Avoids(Power(a, n), t)
    decreases n
  {
    if n > 0 {
      AvoidsPower(a, n - 1, t);
      AvoidsCat(a, Power(a, n - 1), t);
    }
  }

  lemma {:induction false} AvoidsIterate(a: Language, min: nat, max: int, t: Token)
    requires Avoids(a, t)
    ensures Avoids(Iterate(a, min, max), t)
  {
    forall w | w in Iterate(a, min, max) ensures t !in w {
      var n: nat :| min <= n && (max < 0 || n <= max) && Rounds(a, n, w);
      AvoidsPower(a, n, t);
    }
  }

  /** The token is nowhere in the grammar. */
  predicate Free(g: Grammar, t: Token)
    decreases g, 1
  {
    match g
    case GToken(_, token) => token != t
    case GConcat(_, children) => AllFree(children, t)
    case GChoice(_, children) => AllFree(children, t)
    case GRepeat(_, body, _, _) => Free(body, t)
    case GOptional(_, body) => Free(body, t)
    case GEpsilon(_) => true
    case GNest(_, open, close, body) => open != t && close != t && Free(body, t)
    case GReference(_, _) => true
  }

  predicate AllFree(gs: seq<Grammar>, t: Token)
    decreases gs, 0
  {
    gs == [] || (Free(gs[0], t) && AllFree(gs[1..], t))
  }

  ghost predicate RulesFree(rules: Grammars.Rules, t: Token) {
    forall l :: l in rules ==> Free(rules[l], t)
  }

  lemma {:induction false} FreeAvoids(rules: Grammars.Rules, g: Grammar, t: Token, h: nat)
    requires RulesFree(rules, t) && Free(g, t)
    ensures Avoids(LangAt(Exact, rules, g, h), t)
    decreases h, g
  {
    match g
    case GToken(_, _) =>
    case GConcat(_, children) => FreeSeqAvoids(rules, children, t, h);
    case GChoice(_, children) => FreeAltAvoids(rules, children, t, h);
    case GRepeat(_, body, min, max) =>
      FreeAvoids(rules, body, t, h);
      AvoidsIterate(LangAt(Exact, rules, body, h), min, if max.Some? then max.value else -1, t);
    case GOptional(_, body) => FreeAvoids(rules, body, t, h);
    case GEpsilon(_) =>
    case GNest(_, open, close, body) =>
      var l := LangAt(Exact, rules, body, h);
      FreeAvoids(rules, body, t, h);
      AvoidsCat(l, Single(close), t);
      AvoidsCat(Single(open), Cat(l, Single(close)), t);
    case GReference(_, target) =>
      if h > 0 && target in rules {
        FreeAvoids(rules, rules[target], t, h - 1);
      }
  }

  lemma {:induction false} FreeSeqAvoids(rules: Grammars.Rules, gs: seq<Grammar>, t: Token, h: nat)
    requires RulesFree(rules, t) && AllFree(gs, t)
    ensures Avoids(SeqAt(Exact, rules, gs, h), t)
    decreases h, gs
  {
    if gs != [] {
      FreeAvoids(rules, gs[0], t, h);
      FreeSeqAvoids(rules, gs[1..], t, h);
      AvoidsCat(LangAt(Exact, rules, gs[0], h), SeqAt(Exact, rules, gs[1..], h), t);
    }
  }

  lemma {:induction false} FreeAltAvoids(rules: Grammars.Rules, gs: seq<Grammar>, t: Token, h: nat)
    requires RulesFree(rules, t) && AllFree(gs, t)
    ensures Avoids(AltAt(Exact, rules, gs, h), t)
    decreases h, gs
  {
    if gs != [] {
      FreeAvoids(rules, gs[0], t, h);
      FreeAltAvoids(rules, gs[1..], t, h);
    }
  }

  // ----------------------------------------------------- rules that never ask for it

  lemma {:induction false} ListFree(id: Label, spec: ListRule.ListSpec, eof: Token)
    requires ListRule.NoEof(spec, eof)
    ensures Free(ListRule.ListGrammar(id, spec), eof)
  {
    var elem, sep := GToken(ListRule.Node(id), spec.element), GToken(ListRule.Node(id), spec.separator);
    PairFree(ListRule.Node(id), sep, elem, eof);
    var pairs := GRepeat(ListRule.Node(id), GConcat(ListRule.Node(id), [sep, elem]), 0, None);
    PairFree(ListRule.Node(id), elem, pairs, eof);
    var body := GConcat(ListRule.Node(id), [elem, pairs]);
    PairFree(ListRule.Node(id), body, sep, eof);
    PairFree(ListRule.Node(id), body, GOptional(ListRule.Node(id), sep), eof);
  }

  lemma {:induction false} PairFree(info: NodeInfo, a: Grammar, b: Grammar, t: Token)
    requires Free(a, t) && Free(b, t)
    ensures Free(GConcat(info, [a, b]), t)
  {
    var gs := [a, b];
    assert gs[1..] == [b] && [b][1..] == [];
    assert AllFree(gs[1..], t) && AllFree(gs, t);
  }

  lemma {:induction false} TokensFree(gs: seq<Grammar>, eof: Token)
    requires forall g :: g in gs ==> g.GToken? && g.token != eof
    ensures AllFree(gs, eof)
    decreases |gs|
  {
    if gs != [] {
      assert gs[0] in gs && forall g :: g in gs[1..] ==> g in gs;
      TokensFree(gs[1..], eof);
    }
  }

  lemma {:induction false} RuleFree(rule: Rule, eof: Token)
    requires WithoutEof(rule, eof)
    ensures Free(GrammarOf(rule), eof)
    decreases rule, 1
  {
    match rule.body
    case Expect(tokens, _) =>
      if |tokens| != 1 {
        TokensFree(GrammarOf(rule).children, eof);
      }
    case ListOf(spec, _, _) => ListFree(rule.grammarLabel, spec, eof);
    case Sequence(_, rules) => AllRulesFree(rules, eof);
    case Root(_, rules) => AllRulesFree(rules, eof);
    case Choice(rules) => AllRulesFree(rules, eof);
    case Reference(_) =>
    case OptionalSuffix(_, inner, suffix) =>
      RuleFree(inner, eof);
      PairFree(InfoOf(rule), GrammarOf(inner), GOptional(InfoOf(rule), TokenOf(rule, suffix)), eof);
    case Prefixed(prefix, inner) =>
      RuleFree(inner, eof);
      PairFree(InfoOf(rule), TokenOf(rule, prefix), GrammarOf(inner), eof);
    case Wrap(_, inner) =>
      RuleFree(inner, eof);
      assert [GrammarOf(inner)][1..] == [];
    case Nest(_, _, _, inner) => RuleFree(inner, eof);
    case Optional(inner) => RuleFree(inner, eof);
    case OptionalWhen(_, inner) => RuleFree(inner, eof);
    case Predict(_, inner) => RuleFree(inner, eof);
    case Required(inner) => RuleFree(inner, eof);
    case Repetition(_, _, inner) => RuleFree(inner, eof);
    case BoundedRepetition(_, _, _, inner) => RuleFree(inner, eof);
    case RecoverSync(inner) => RuleFree(inner, eof);
  }

  lemma {:induction false} AllRulesFree(rules: seq<Rule>, eof: Token)
    requires AllWithoutEof(rules, eof)
    ensures AllFree(GrammarsOf(rules), eof)
    decreases rules, 0
  {
    if rules != [] {
      RuleFree(rules[0], eof);
      AllRulesFree(rules[1..], eof);
      assert GrammarsOf(rules)[1..] == GrammarsOf(rules[1..]);
    }
  }

  /** No word of a rule's grammar holds the end of file. */
  lemma {:induction false} WordsAvoidEof(m: Setup, rule: Rule)
    requires RegistryWithoutEof(m.registry, m.src.eof) && WithoutEof(rule, m.src.eof)
    ensures Avoids(LangOf(m, rule), m.src.eof)
  {
    var gs := GrammarMap(m.registry);
    RuleFree(rule, m.src.eof);
    forall l | l in gs ensures Free(gs[l], m.src.eof) {
      RuleFree(m.registry[l], m.src.eof);
    }
    forall w | w in LangOf(m, rule) ensures m.src.eof !in w {
      var h := LangElim(Exact, gs, GrammarOf(rule), w);
      FreeAvoids(gs, GrammarOf(rule), m.src.eof, h);
    }
  }

  // ------------------------------------------------------------------- the whole input

  /** Reading all that is shown leads to the end of file. */
  lemma {:induction false} ReadsAll(src: Source, c: Position) returns (d: Position)
    requires Within(src, c)
    ensures Within(src, d) && Reads(src, c, TokenKinds(Visible(src.lexemes[c..], src.eof, src.skip)), d) && PeekAt(src, d, 0).token == src.eof
    decreases |src.lexemes| - c
  {
    var w := TokenKinds(Visible(src.lexemes[c..], src.eof, src.skip));
    if PeekAt(src, c, 0).token == src.eof {
      FirstShown(src.lexemes[c..], src.eof, src.skip);
      d := c;
    } else {
      AdvanceTakes(src, c);
      FirstVisible(src, c);
      d := ReadsAll(src, Advance(src, c));
      assert w[1..] == TokenKinds(Visible(src.lexemes[Advance(src, c)..], src.eof, src.skip));
    }
  }

  /**
   Every parse that answers answers rightly: it succeeds if and only if the visible input is a
   word of the entry rule's grammar.
   */
  lemma {:induction false} ParseDecides(m: Setup, k: Classes, rule: Rule, fuel: nat)
    requires Classified(m, k) && Predictive(m, k, rule) && rule.grammarLabel == m.program
    requires RegistryWithoutEof(m.registry, m.src.eof) && WithoutEof(rule, m.src.eof)
    ensures var o := Parse(m, rule, fuel);
            o.Finished? && o.ok <==> o != ParseOutOfFuel && InputTokens(m.src) in LangOf(m, rule)
  {
    var o := Parse(m, rule, fuel);
    if o.Finished? && o.ok {
      ParseSound(m, rule, fuel);
    }
    if o != ParseOutOfFuel && InputTokens(m.src) in LangOf(m, rule) {
      var d := ReadsAll(m.src, 0);
      assert m.src.lexemes[0..] == m.src.lexemes;
      WordsAvoidEof(m, rule);
      forall v ensures InputTokens(m.src) + ([PeekAt(m.src, d, 0).token] + v) !in LangOf(m, rule) {
        assert m.src.eof in InputTokens(m.src) + ([m.src.eof] + v);
      }
      EngineCompleteness.WordsAreTaken(m, k, rule, Normal, INITIAL, InputTokens(m.src), d, fuel);
    }
  }

  /** And with a ranking of the productions it does answer: acceptance is membership. */
  lemma {:induction false} ParseExact(m: Setup, k: Classes, z: Ranking, rule: Rule) returns (fuel: nat)
    requires Classified(m, k) && Predictive(m, k, rule) && rule.grammarLabel == m.program && Ranks(m, z) && Fine(m, z, rule)
    ensures var o := Parse(m, rule, fuel);
            o != ParseOutOfFuel && (o.Finished? && o.ok <==> InputTokens(m.src) in LangOf(m, rule))
  {
    fuel := ParseTerminates(m, z, rule);
    ParseDecides(m, k, rule, fuel);
  }

  // ------------------------------------------------------------------------ an instance

  /** An optional token and a token after it, under a root: the contracts are those the combinators give. */
  predicate OptionThenToken(m: Setup, rule: Rule, opt: Rule, a: Rule, b: Rule, s: Token, t: Token) {
    && rule.body.Root? && rule.body.rules == [opt, b] && opt.body == Optional(a)
    && a.body.Expect? && a.body.tokens == [s] && a.body.kind.Some? && b.body.Expect? && b.body.tokens == [t] && b.body.kind.Some?
    && rule.contract == Contract(true, true) && opt.contract == Contract(false, false)
    && a.contract == Contract(true, true) && b.contract == Contract(true, true)
  }

  lemma {:induction false} TokenPredictive(m: Setup, k: Classes, rule: Rule, t: Token)
    requires rule.body.Expect? && rule.body.tokens == [t] && rule.body.kind.Some?
    ensures LangOf(m, rule) == Single(t) && Predictive(m, k, rule)
  {
    LangToken(Exact, GrammarMap(m.registry), TokenOf(rule, t));
  }

  lemma OptionSeparated(s: Token, t: Token)
    requires s != t
    ensures Separated(Epsilon + Single(s), Single(t))
  {
    assert !HasLonger(Epsilon + Single(s), 1);
    forall x | Starts(Single(t), x) ensures !Extends(Epsilon + Single(s), x) {
      StartsOnly(t, x);
      forall w | w in Epsilon + Single(s) ensures !Continues(Epsilon + Single(s), w, x) {
        if Continues(Epsilon + Single(s), w, x) {
          if w == [] {
            ContinuesNothing(Epsilon + Single(s), x);
            StartsOption(s, x);
          } else {
            ContinuesLonger(Epsilon + Single(s), w, x);
          }
        }
      }
    }
  }

  lemma OptionWords(s: Token, t: Token)
    ensures var l := Cat(Epsilon + Single(s), Single(t)); [s, t] in l && [t] in l && [] !in l
  {
    var l := Epsilon + Single(s);
    CatIntro(l, Single(t), [s], [t]);
    CatIntro(l, Single(t), [], [t]);
    assert [s] + [t] == [s, t] && [] + [t] == [t];
    CatNullable(l, Single(t));
  }

  lemma {:induction false} OptionAlone(m: Setup, k: Classes, opt: Rule, a: Rule, s: Token)
    requires opt.body == Optional(a) && opt.contract == Contract(false, false)
    requires LangOf(m, a) == Single(s) && Predictive(m, k, a) && a.body.Expect?
    ensures LangOf(m, opt) == Epsilon + Single(s) && Predictive(m, k, opt)
  {
    OptionLang(m, opt, a);
  }

  lemma {:induction false} OptionInRow(m: Setup, k: Classes, opt: Rule, b: Rule, s: Token, t: Token)
    requires LangOf(m, opt) == Epsilon + Single(s) && Predictive(m, k, opt) && LangOf(m, b) == Single(t) && Predictive(m, k, b) && s != t
    ensures InRow(m, k, [opt, b]) && SeqLangOf(m, [opt, b]) == Cat(Epsilon + Single(s), Single(t))
  {
    var rules := [opt, b];
    DueBodies.RowOfOne(m, k, b);
    assert rules[1..] == [b];
    OptionSeparated(s, t);
  }

  /** It is predictive when the tokens differ, so a parse takes the optional token where it stands. */
  lemma {:induction false} OptionIsPredictive(m: Setup, k: Classes, rule: Rule, opt: Rule, a: Rule, b: Rule, s: Token, t: Token)
    requires OptionThenToken(m, rule, opt, a, b, s, t) && s != t
    ensures Predictive(m, k, rule) && [s, t] in LangOf(m, rule) && [t] in LangOf(m, rule)
  {
    TokenPredictive(m, k, a, s);
    TokenPredictive(m, k, b, t);
    OptionAlone(m, k, opt, a, s);
    OptionInRow(m, k, opt, b, s, t);
    SequenceLang(m, rule, [opt, b]);
    OptionWords(s, t);
  }
}
