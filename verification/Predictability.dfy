/**
 Rules that can be parsed from left to right without a second thought. Each combinator has its
 own condition: what follows a part cannot also go on it, what is tried first declines where
 something behind it is meant, guards hold wherever the words they guard stand, and contracts
 promise no more than the grammar gives.
 */
module Predictability {
  import opened Languages
  import opened Grammars
  import opened Semantics
  import opened Guards
  import opened Rules
  import opened Engine
  import opened EngineIdle
  import opened Determinacy
  import EngineSoundness
  import ListRule
  import ChoiceDispatch

  /** What is known of productions: those that demand nothing before their first token, those that always return a node, those of the good shape. */
  datatype Classes = Classes(calm: set<Label>, noded: set<Label>, good: set<Label>)

  // ------------------------------------------------------------------ rules with a node

  /** Whenever the rule succeeds it returns a node. */
  predicate Noded(noded: set<Label>, rule: Rule)
    decreases rule, 1
  {
    match rule.body
    case Expect(_, kind) => kind.Some?
    case ListOf(_, _, _) => true
    case Sequence(_, _) => true
    case Wrap(_, _) => true
    case Root(_, _) => true
    case Repetition(_, _, _) => true
    case BoundedRepetition(_, _, _, _) => true
    case Choice(rules) => AllNoded(noded, rules)
    case Optional(_) => false
    case OptionalWhen(_, _) => false
    case Nest(kind, _, _, inner) => kind.Some? || Noded(noded, inner)
    case Reference(target) => target in noded
    case Predict(_, inner) => Noded(noded, inner)
    case OptionalSuffix(_, inner, _) => Noded(noded, inner)
    case Required(inner) => Noded(noded, inner)
    case RecoverSync(inner) => Noded(noded, inner)
    case Prefixed(_, inner) => Noded(noded, inner)
  }

  predicate AllNoded(noded: set<Label>, rules: seq<Rule>)
    decreases rules, 0
  {
    rules == [] || (Noded(noded, rules[0]) && AllNoded(noded, rules[1..]))
  }

  /** The contract the rule is held to is one its grammar and its shape keep. */
  ghost predicate KeepsContract(m: Setup, k: Classes, rule: Rule) {
    && (ContractOf(m, rule).mustConsume ==> !Nullable(LangOf(m, rule)))
    && (ContractOf(m, rule).mustReturnNode ==> Noded(k.noded, rule))
  }

  // ------------------------------------------------------------------------ declining

  /** Before these tokens the rule answers "no match": it demands nothing and has no word there, or its own guard fails. */
  ghost predicate Declining(m: Setup, k: Classes, rule: Rule, p: Stream) {
    && Tentative(m, k.calm, rule)
    && ((!Nullable(LangOf(m, rule)) && !Starts(LangOf(m, rule), p(0))) || !Matches(p, LookaheadsOf(rule)))
  }

  /** A list, or a reference to one: where it cannot start it reports an error, which a probe takes back. */
  predicate Listing(m: Setup, rule: Rule) {
    rule.body.ListOf? || (rule.body.Reference? && rule.body.target in m.registry && m.registry[rule.body.target].body.ListOf?)
  }

  /** The guard holds wherever a word of l stands. */
  ghost predicate GuardsWords(l: Language, guard: Guard) {
    forall w, p: Stream :: w in l && Begins(p, w) ==> Matches(p, guard)
  }

  // -------------------------------------------------------------------------- choices

  /** Dispatch leaves the arm in before these tokens: something is unknown of it, or all that is known fits. */
  ghost predicate Tried(m: Setup, rules: seq<Rule>, i: nat, p: Stream)
    requires i < |rules|
  {
    m.analysis.Some? ==> ChoiceDispatch.Called(m.analysis.value, Arms(rules)[i], p)
  }

  /** The arm is tried wherever a word of it stands. */
  ghost predicate Kept(m: Setup, rules: seq<Rule>, i: nat)
    requires i < |rules|
  {
    forall w, p: Stream :: w in LangOf(m, rules[i]) && Begins(p, w) ==> Tried(m, rules, i, p)
  }

  /** Where a word of arm i stands, arm j before it is not tried or declines. */
  ghost predicate Yields(m: Setup, k: Classes, rules: seq<Rule>, j: nat, i: nat)
    requires j < i < |rules|
  {
    && (Nullable(LangOf(m, rules[i])) ==> Tentative(m, k.calm, rules[j]) && !Nullable(LangOf(m, rules[j])))
    && forall w, p: Stream :: w in LangOf(m, rules[i]) && w != [] && Begins(p, w) ==> !Tried(m, rules, j, p) || Declining(m, k, rules[j], p)
  }

  ghost predicate Decided(m: Setup, k: Classes, rules: seq<Rule>) {
    && (forall i: nat :: i < |rules| ==> Kept(m, rules, i))
    && (forall j: nat, i: nat :: j < i < |rules| ==> Yields(m, k, rules, j, i))
  }

  // ------------------------------------------------------------------------- the shape

  ghost predicate Predictive(m: Setup, k: Classes, rule: Rule)
    decreases rule, 1
  {
    && KeepsContract(m, k, rule)
    && match rule.body
       case Expect(_, _) => true
       case ListOf(spec, _, _) => ListRule.Distinct(spec) && ListRule.NoEof(spec, m.src.eof)
       case Sequence(_, rules) => InRow(m, k, rules)
       case Root(_, rules) => InRow(m, k, rules)
       case Wrap(_, inner) => Predictive(m, k, inner)
       case Choice(rules) => AllPredictive(m, k, rules) && Decided(m, k, rules)
       case Optional(inner) =>
         Predictive(m, k, inner) && (Nullable(LangOf(m, inner)) || Tentative(m, k.calm, inner) || Listing(m, inner))
       case OptionalWhen(start, inner) =>
         && Predictive(m, k, inner) && GuardsWords(LangOf(m, inner) - Epsilon, start)
         && (Nullable(LangOf(m, inner)) || forall p: Stream :: Matches(p, start) ==> Starts(LangOf(m, inner), p(0)))
       case Predict(when, inner) => Predictive(m, k, inner) && GuardsWords(LangOf(m, inner), when)
       case Required(inner) => Predictive(m, k, inner)
       case RecoverSync(inner) => Predictive(m, k, inner)
       case OptionalSuffix(_, inner, suffix) => Predictive(m, k, inner) && !Extends(LangOf(m, inner), suffix)
       case Repetition(_, _, inner) => Predictive(m, k, inner) && Repeats(m, k, inner)
       case BoundedRepetition(_, _, _, inner) => Predictive(m, k, inner) && Repeats(m, k, inner)
       case Nest(_, _, close, inner) => Predictive(m, k, inner) && !Extends(LangOf(m, inner), close)
       case Prefixed(_, inner) => Predictive(m, k, inner)
       case Reference(target) => target in k.good
  }

  /** Nothing that can start the rest can also go on the first. */
  ghost predicate InRow(m: Setup, k: Classes, rules: seq<Rule>)
    decreases rules, 0
  {
    rules == [] || (Predictive(m, k, rules[0]) && Separated(LangOf(m, rules[0]), SeqLangOf(m, rules[1..])) && InRow(m, k, rules[1..]))
  }

  ghost predicate AllPredictive(m: Setup, k: Classes, rules: seq<Rule>)
    decreases rules, 0
  {
    rules == [] || (Predictive(m, k, rules[0]) && AllPredictive(m, k, rules[1..]))
  }

  /** A body that can be told from one more of itself, and declines where there is none. */
  ghost predicate Repeats(m: Setup, k: Classes, inner: Rule) {
    Tentative(m, k.calm, inner) && !Nullable(LangOf(m, inner)) && Separated(LangOf(m, inner), LangOf(m, inner))
  }

  /** The productions are in the classes they are said to be in. */
  ghost predicate Classified(m: Setup, k: Classes) {
    && CalmOnly(m, k.calm)
    && (forall l :: l in k.noded && l in m.registry ==> Noded(k.noded, m.registry[l]))
    && (forall l :: l in k.good ==> l in m.registry && Predictive(m, k, m.registry[l]))
  }

  // ------------------------------------------------------- the plain case for choices

  /** Arms that start with different tokens, demand nothing but in the last place, and are nullable only there. */
  ghost predicate Disjoint(m: Setup, k: Classes, rules: seq<Rule>) {
    && (forall j, i, t :: 0 <= j < i < |rules| ==> !(Starts(LangOf(m, rules[j]), t) && Starts(LangOf(m, rules[i]), t)))
    && (forall j :: 0 <= j < |rules| - 1 ==> Tentative(m, k.calm, rules[j]) && !Nullable(LangOf(m, rules[j])))
  }

  lemma {:induction false} DisjointDecides(m: Setup, k: Classes, rules: seq<Rule>)
    requires Disjoint(m, k, rules) && forall i: nat :: i < |rules| ==> Kept(m, rules, i)
    ensures Decided(m, k, rules)
  {
    forall j: nat, i: nat | j < i < |rules| ensures Yields(m, k, rules, j, i) {
      forall w, p: Stream | w in LangOf(m, rules[i]) && w != [] && Begins(p, w) ensures Declining(m, k, rules[j], p) {
        StartsHead(LangOf(m, rules[i]), w);
        assert p(0) == w[0];
      }
    }
  }

  // ------------------------------------------------------------------------ languages

  lemma {:induction false} AltElim(rules: Grammars.Rules, gs: seq<Grammar>, w: Word) returns (i: nat)
    requires w in AltLang(Exact, rules, gs)
    ensures i < |gs| && w in Lang(Exact, rules, gs[i])
    decreases |gs|
  {
    if w in Lang(Exact, rules, gs[0]) {
      i := 0;
    } else {
      var j := AltElim(rules, gs[1..], w);
      i := j + 1;
    }
  }

  /** A word of a token rule is one of its tokens. */
  lemma {:induction false} ExpectWord(m: Setup, rule: Rule, w: Word)
    requires rule.body.Expect? && w in LangOf(m, rule)
    ensures |w| == 1 && w[0] in rule.body.tokens
  {
    var tokens, gs := rule.body.tokens, GrammarMap(m.registry);
    if |tokens| == 1 {
      LangToken(Exact, gs, TokenOf(rule, tokens[0]));
    } else {
      LangChoice(Exact, gs, GrammarOf(rule));
      var i := AltElim(gs, GrammarOf(rule).children, w);
      LangToken(Exact, gs, TokenOf(rule, tokens[i]));
    }
  }

  /** A word of a choice is a word of an arm, and words of arms are words of the choice. */
  lemma {:induction false} ArmWord(m: Setup, rule: Rule, w: Word) returns (i: nat)
    requires rule.body.Choice? && w in LangOf(m, rule)
    ensures i < |rule.body.rules| && w in LangOf(m, rule.body.rules[i]) && LangOf(m, rule.body.rules[i]) <= LangOf(m, rule)
  {
    var gs := GrammarMap(m.registry);
    LangChoice(Exact, gs, GrammarOf(rule));
    i := AltElim(gs, GrammarsOf(rule.body.rules), w);
    EngineSoundness.AltHas(gs, GrammarsOf(rule.body.rules), i);
  }

  /** The words of a rule with a suffix, taken apart. */
  lemma {:induction false} SuffixLang(m: Setup, rule: Rule)
    requires rule.body.OptionalSuffix?
    ensures LangOf(m, rule) == Cat(LangOf(m, rule.body.inner), Epsilon + Single(rule.body.suffix))
  {
    var tail := GOptional(InfoOf(rule), TokenOf(rule, rule.body.suffix));
    EngineSoundness.ConcatTwo(m, GrammarOf(rule), GrammarOf(rule.body.inner), tail);
    LangOptional(Exact, GrammarMap(m.registry), tail);
    EngineSoundness.TokenLang(m, rule, rule.body.suffix);
  }

  lemma {:induction false} PrefixedLang(m: Setup, rule: Rule)
    requires rule.body.Prefixed?
    ensures LangOf(m, rule) == Cat(Single(rule.body.prefix), LangOf(m, rule.body.inner))
  {
    EngineSoundness.TokenLang(m, rule, rule.body.prefix);
    EngineSoundness.ConcatTwo(m, GrammarOf(rule), TokenOf(rule, rule.body.prefix), GrammarOf(rule.body.inner));
  }

  lemma {:induction false} RepeatLanguage(m: Setup, rule: Rule)
    requires rule.body.Repetition? || rule.body.BoundedRepetition?
    ensures LangOf(m, rule) == Iterate(LangOf(m, rule.body.inner), rule.body.min, Upper(if rule.body.Repetition? then None else rule.body.max))
  {
    LangRepeat(Exact, GrammarMap(m.registry), GrammarOf(rule));
  }
}
