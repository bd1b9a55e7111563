/**
 Parser rules as the factory builds them: one constructor per combinator, with the grammar
 each of them publishes.
 */
module Rules {
  import opened Languages
  import opened Grammars
  import opened Guards
  import ListRule

  type Kind = int

  datatype Contract = Contract(mustConsume: bool, mustReturnNode: bool)

  /** The envelope of a rule: identity, contract, recovery sets, and the node its grammar got in the package. */
  datatype Rule = Rule(
    grammarLabel: Label,
    contract: Contract,
    recoveryTokens: seq<Token>,
    noConsumeTokens: seq<Token>,
    isBarrier: bool,
    nodePath: Option<Path>,
    body: Body)

  /** A missing kind marks the transparent form of a combinator. */
  datatype Body =
    | Expect(tokens: seq<Token>, kind: Option<Kind>)
    | ListOf(spec: ListRule.ListSpec, listKind: Kind, elementKind: Kind)
    | Sequence(sequenceKind: Option<Kind>, rules: seq<Rule>)
    | Wrap(wrapKind: Kind, inner: Rule)
    | Optional(inner: Rule)
    | OptionalWhen(start: Guard, inner: Rule)
    | Predict(when: Guard, inner: Rule)
    | OptionalSuffix(suffixKind: Kind, inner: Rule, suffix: Token)
    | Required(inner: Rule)
    | Root(rootKind: Kind, rules: seq<Rule>)
    | Repetition(repeatKind: Option<Kind>, min: nat, inner: Rule)
    | BoundedRepetition(repeatKind: Option<Kind>, min: nat, max: Option<nat>, inner: Rule)
    | Nest(nestKind: Option<Kind>, open: Token, close: Token, inner: Rule)
    | Reference(target: Label)
    | RecoverSync(inner: Rule)
    | Prefixed(prefix: Token, inner: Rule)
    | Choice(rules: seq<Rule>)

  type Registry = map<Label, Rule>

  function InfoOf(rule: Rule): NodeInfo {
    NodeInfo(rule.nodePath, rule.grammarLabel, [], |rule.recoveryTokens| > 0)
  }

  function TokenOf(rule: Rule, t: Token): Grammar {
    GToken(InfoOf(rule), t)
  }

  /** The grammar a rule publishes; wrappers that add no structure share that of their inner rule. */
  function GrammarOf(rule: Rule): Grammar
    decreases rule, 1
  {
    match rule.body
    case Expect(tokens, _) =>
      if |tokens| == 1 then TokenOf(rule, tokens[0])
      else GChoice(InfoOf(rule), seq(|tokens|, i requires 0 <= i < |tokens| => TokenOf(rule, tokens[i])))
    case ListOf(spec, _, _) => ListRule.ListGrammar(rule.grammarLabel, spec)
    case Sequence(_, rules) => GConcat(InfoOf(rule), GrammarsOf(rules))
    case Wrap(_, inner) => GConcat(InfoOf(rule), [GrammarOf(inner)])
    case Optional(inner) => GOptional(InfoOf(rule), GrammarOf(inner))
    case OptionalWhen(_, inner) => GOptional(InfoOf(rule), GrammarOf(inner))
    case Predict(_, inner) => GrammarOf(inner)
    case OptionalSuffix(_, inner, suffix) =>
      GConcat(InfoOf(rule), [GrammarOf(inner), GOptional(InfoOf(rule), TokenOf(rule, suffix))])
    case Required(inner) => GrammarOf(inner)
    case Root(_, rules) => GConcat(InfoOf(rule), GrammarsOf(rules))
    case Repetition(_, min, inner) => GRepeat(InfoOf(rule), GrammarOf(inner), min, None)
    case BoundedRepetition(_, min, max, inner) => GRepeat(InfoOf(rule), GrammarOf(inner), min, max)
    case Nest(_, open, close, inner) => GNest(InfoOf(rule), open, close, GrammarOf(inner))
    case Reference(target) => GReference(InfoOf(rule), target)
    case RecoverSync(inner) => GrammarOf(inner)
    case Prefixed(prefix, inner) => GConcat(InfoOf(rule), [TokenOf(rule, prefix), GrammarOf(inner)])
    case Choice(rules) => GChoice(InfoOf(rule), GrammarsOf(rules))
  }

  function GrammarsOf(rules: seq<Rule>): (gs: seq<Grammar>)
    ensures |gs| == |rules| && forall i :: 0 <= i < |rules| ==> gs[i] == GrammarOf(rules[i])
    decreases rules, 0
  {
    if rules == [] then [] else [GrammarOf(rules[0])] + GrammarsOf(rules[1..])
  }

  /** The production a rule's grammar node refers to, also through wrappers that share the node. */
  function ReferenceOf(rule: Rule): Option<Label>
    decreases rule
  {
    match rule.body
    case Reference(target) => Some(target)
    case Predict(_, inner) => ReferenceOf(inner)
    case Required(inner) => ReferenceOf(inner)
    case RecoverSync(inner) => ReferenceOf(inner)
    case _ => None
  }

  lemma {:induction false} ReferenceOfIs(rule: Rule, target: Label)
    ensures ReferenceOf(rule) == Some(target) <==> GrammarOf(rule).GReference? && GrammarOf(rule).target == target
    decreases rule
  {
    match rule.body
    case Predict(_, inner) => ReferenceOfIs(inner, target);
    case Required(inner) => ReferenceOfIs(inner, target);
    case RecoverSync(inner) => ReferenceOfIs(inner, target);
    case _ =>
  }

  /** The productions references resolve to. */
  function GrammarMap(registry: Registry): Grammars.Rules {
    map l | l in registry :: GrammarOf(registry[l])
  }

  /** No combinator asks for the end-of-file token, and list tokens are distinct. */
  ghost predicate WithoutEof(rule: Rule, eof: Token)
    decreases rule, 1
  {
    match rule.body
    case Expect(tokens, _) => eof !in tokens
    case ListOf(spec, _, _) => ListRule.NoEof(spec, eof) && ListRule.Distinct(spec) && spec.open != spec.element
    case Sequence(_, rules) => AllWithoutEof(rules, eof)
    case Root(_, rules) => AllWithoutEof(rules, eof)
    case Choice(rules) => AllWithoutEof(rules, eof)
    case Reference(_) => true
    case OptionalSuffix(_, inner, suffix) => suffix != eof && WithoutEof(inner, eof)
    case Nest(_, open, close, inner) => open != eof && close != eof && WithoutEof(inner, eof)
    case Prefixed(prefix, inner) => prefix != eof && WithoutEof(inner, eof)
    case Wrap(_, inner) => WithoutEof(inner, eof)
    case Optional(inner) => WithoutEof(inner, eof)
    case OptionalWhen(_, inner) => WithoutEof(inner, eof)
    case Predict(_, inner) => WithoutEof(inner, eof)
    case Required(inner) => WithoutEof(inner, eof)
    case Repetition(_, _, inner) => WithoutEof(inner, eof)
    case BoundedRepetition(_, _, _, inner) => WithoutEof(inner, eof)
    case RecoverSync(inner) => WithoutEof(inner, eof)
  }

  ghost predicate AllWithoutEof(rules: seq<Rule>, eof: Token)
    decreases rules, 0
  {
    rules == [] || (WithoutEof(rules[0], eof) && AllWithoutEof(rules[1..], eof))
  }

  ghost predicate RegistryWithoutEof(registry: Registry, eof: Token) {
    forall l :: l in registry ==> WithoutEof(registry[l], eof)
  }
}
