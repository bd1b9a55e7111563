/**
 Rules that demand. Some rules never answer "no match", whatever lies ahead: lists, required
 rules, options, and what begins with them without a way back. Others answer with an error where
 no word of their grammar can start: what begins with a list or a required rule.
 */
module EngineDemands {
  import opened Languages
  import opened Grammars
  import opened TokenStreams
  import opened Rules
  import opened Engine
  import opened EngineTransaction
  import opened EngineIdle
  import ListRule

  /** The outcome ends an ordered choice. */
  ghost predicate Decides(o: Outcome) {
    o.Done? && (o.result.Failure? ==> o.result.kind.FailureError?)
  }

  ghost predicate DecidesAt(exec: Exec, rule: Rule, s: State) {
    exec(rule, Normal, s).Done? ==> Decides(exec(rule, Normal, s))
  }

  /** Whatever it answers, the rule ends an ordered choice. */
  ghost predicate NeverDeclines(exec: Exec, rule: Rule) {
    forall s :: DecidesAt(exec, rule, s)
  }

  // ------------------------------------------------------------ rules that never decline

  /** The rule never answers "no match", when the productions in firm never do. */
  predicate Demanding(firm: set<Label>, rule: Rule)
    decreases rule, 1
  {
    match rule.body
    case ListOf(_, _, _) => true
    case Required(_) => true
    case Optional(_) => true
    case Repetition(_, min, _) => min == 0
    case BoundedRepetition(_, min, _, _) => min == 0
    case Reference(target) => target in firm
    case Sequence(_, rules) => AllDemanding(firm, rules)
    case Root(_, rules) => rules == [] || Demanding(firm, rules[0])
    case Wrap(_, inner) => Demanding(firm, inner)
    case OptionalWhen(_, inner) => Demanding(firm, inner)
    case OptionalSuffix(_, inner, _) => Demanding(firm, inner)
    case RecoverSync(inner) => Demanding(firm, inner)
    case Expect(_, _) => false
    case Predict(_, _) => false
    case Nest(_, _, _, _) => false
    case Prefixed(_, _) => false
    case Choice(_) => false
  }

  predicate AllDemanding(firm: set<Label>, rules: seq<Rule>)
    decreases rules, 0
  {
    rules == [] || (Demanding(firm, rules[0]) && AllDemanding(firm, rules[1..]))
  }

  ghost predicate FirmOnly(m: Setup, firm: set<Label>) {
    forall l :: l in firm && l in m.registry ==> Demanding(firm, m.registry[l])
  }

  ghost predicate RunsFirm(exec: Exec, firm: set<Label>, rule: Rule, s: State) {
    Demanding(firm, rule) ==> DecidesAt(exec, rule, s)
  }

  ghost predicate FirmExec(exec: Exec, firm: set<Label>) {
    forall rule, s :: RunsFirm(exec, firm, rule, s)
  }

  lemma {:induction false} SequenceDemands(m: Setup, firm: set<Label>, exec: Exec, owner: Rule, kind: Option<Kind>, rules: seq<Rule>, marker: nat,
                                           children: seq<Tree>, s: State)
    requires FirmExec(exec, firm) && AllDemanding(firm, rules)
    ensures var o := RunSequence(m, exec, owner, kind, rules, marker, children, s); o.Done? ==> Decides(o)
    decreases |rules|
  {
    if rules != [] {
      assert RunsFirm(exec, firm, rules[0], s);
      var c := exec(rules[0], Normal, s);
      if c.Done? {
        var v := Judge(m, owner, rules[0], marker, c.result, c.state);
        if v.Keep? {
          SequenceDemands(m, firm, exec, owner, kind, rules[1..], marker, Attached(children, v.result), v.state);
        }
      }
    }
  }

  /** A root never declines once its first part has answered. */
  lemma {:induction false} RootDemands(m: Setup, firm: set<Label>, exec: Exec, owner: Rule, kind: Kind, id: nat, rules: seq<Rule>, committed: bool,
                                       children: seq<Tree>, s: State)
    requires FirmExec(exec, firm) && (committed || rules == [] || Demanding(firm, rules[0]))
    ensures var o := RunRoot(m, exec, owner, kind, id, rules, committed, children, s); o.Done? ==> Decides(o)
    decreases |rules|
  {
    if rules != [] {
      assert RunsFirm(exec, firm, rules[0], s);
      var c := exec(rules[0], Normal, s);
      if c.Done? && c.result.Success? {
        RootDemands(m, firm, exec, owner, kind, id, rules[1..], true, Attached(children, c.result), c.state);
      }
    }
  }

  lemma {:induction false} LoopFailsWithError(m: Setup, exec: Exec, inner: Rule, max: Option<nat>, retries: bool, count: nat, children: seq<Tree>,
                                              s: State, turns: nat)
    ensures var o := RunLoop(m, exec, inner, max, retries, count, children, s, turns);
            o.LoopFailed? ==> o.result.Failure? && o.result.kind.FailureError?
    decreases turns
  {
    if !(max.Some? && count >= max.value) && turns > 0 {
      var c := exec(inner, Normal, s);
      if c.Done? {
        var turn := NextTurn(m, retries, count, children, s, c.result, c.state);
        if turn.Again? {
          LoopFailsWithError(m, exec, inner, max, retries, turn.count, turn.children, c.state, turns - 1);
        }
      }
    }
  }

  lemma {:induction false} RepetitionDemands(m: Setup, exec: Exec, kind: Option<Kind>, max: Option<nat>, retries: bool, inner: Rule, s: State, turns: nat)
    ensures var o := RunRepetition(m, exec, kind, 0, max, retries, inner, s, turns); o.Done? ==> Decides(o)
  {
    LoopFailsWithError(m, exec, inner, max, retries, 0, [], if kind.Some? then NewNode(s) else s, turns);
  }

  predicate RunsOneInner(b: Body) {
    b.Required? || b.Optional? || b.OptionalWhen? || b.OptionalSuffix? || b.RecoverSync?
  }

  lemma {:induction false} InnerDemands(m: Setup, firm: set<Label>, exec: Exec, rule: Rule, s: State, turns: nat)
    requires FirmExec(exec, firm) && Demanding(firm, rule) && RunsOneInner(rule.body)
    ensures var o := RunBody(m, exec, rule, s, turns); o.Done? ==> Decides(o)
  {
    assert RunsFirm(exec, firm, rule.body.inner, s);
  }

  lemma {:induction false} BodyDemands(m: Setup, firm: set<Label>, exec: Exec, rule: Rule, s: State, turns: nat)
    requires FirmOnly(m, firm) && FirmExec(exec, firm) && Demanding(firm, rule)
    ensures var o := RunBody(m, exec, rule, s, turns); o.Done? ==> Decides(o)
    decreases turns
  {
    if RunsOneInner(rule.body) {
      InnerDemands(m, firm, exec, rule, s, turns);
      return;
    }
    match rule.body
    case ListOf(_, _, _) =>
    case Sequence(kind, rules) => SequenceDemands(m, firm, exec, rule, kind, rules, Marker(m, s), [], s);
    case Wrap(kind, inner) =>
      assert [inner][1..] == [];
      SequenceDemands(m, firm, exec, rule, Some(kind), [inner], Marker(m, s), [], s);
    case Root(kind, rules) => RootDemands(m, firm, exec, rule, kind, s.nextID + 1, rules, false, [], NewNode(s));
    case Repetition(kind, _, inner) => RepetitionDemands(m, exec, kind, None, true, inner, s, turns);
    case BoundedRepetition(kind, _, max, inner) => RepetitionDemands(m, exec, kind, max, false, inner, s, turns);
    case Reference(target) =>
      if target in m.registry && turns > 0 {
        BodyDemands(m, firm, exec, m.registry[target], WithRecovery(m.registry[target], s), turns - 1);
      }
  }

  lemma {:induction false} ErrorStays(m: Setup, rule: Rule, start: State, pre: Lexeme, r: Result, s: State)
    requires r.Failure? && r.kind.FailureError?
    ensures var (q, u) := HandleFailure(m, rule, Normal, start, pre, r, s); q.Failure? ==> q.kind.FailureError?
    ensures var (q, u) := HandleFailure(m, rule, Normal, start, pre, r, s); !rule.isBarrier ==> q.Failure?
  {
  }

  /** The envelope keeps an error an error, and may turn it into a success only for a barrier. */
  lemma {:induction false} EnvelopeDecides(m: Setup, exec: Exec, rule: Rule, s: State, turns: nat)
    requires var c := RunBody(m, exec, rule, Enter(m, rule, Normal, s), turns); c.Done? ==> Decides(c)
    ensures var o := RunEnvelope(m, exec, rule, Normal, s, turns); o.Done? ==> Decides(o)
    ensures var c, o := RunBody(m, exec, rule, Enter(m, rule, Normal, s), turns), RunEnvelope(m, exec, rule, Normal, s, turns);
            o.Done? ==> c.Done? && (c.result.Failure? && !rule.isBarrier ==> o.result.Failure?)
  {
    var c := RunBody(m, exec, rule, Enter(m, rule, Normal, s), turns);
    if c.Done? && c.result.Failure? {
      ErrorStays(m, rule, s, Peek(m, s), c.result, Truncated(c.state, |s.created|));
    }
  }

  lemma {:induction false} EngineRunsFirm(m: Setup, firm: set<Label>, rule: Rule, s: State, fuel: nat)
    requires FirmOnly(m, firm) && (fuel > 0 ==> FirmExec(EngineAt(m, fuel - 1), firm))
    ensures RunsFirm(EngineAt(m, fuel), firm, rule, s)
  {
    if fuel > 0 && Demanding(firm, rule) {
      BodyDemands(m, firm, EngineAt(m, fuel - 1), rule, Enter(m, rule, Normal, s), fuel - 1);
      EnvelopeDecides(m, EngineAt(m, fuel - 1), rule, s, fuel - 1);
    }
    EngineUnfolds(m, rule, Normal, s, fuel);
  }

  lemma {:induction false} EngineFirm(m: Setup, firm: set<Label>, fuel: nat)
    requires FirmOnly(m, firm)
    ensures FirmExec(EngineAt(m, fuel), firm)
    decreases fuel
  {
    if fuel > 0 {
      EngineFirm(m, firm, fuel - 1);
    }
    forall rule, s ensures RunsFirm(EngineAt(m, fuel), firm, rule, s) {
      EngineRunsFirm(m, firm, rule, s, fuel);
    }
  }

  /** A rule that demands never answers "no match". */
  lemma {:induction false} DemandingNeverDeclines(m: Setup, firm: set<Label>, rule: Rule, fuel: nat)
    requires FirmOnly(m, firm) && Demanding(firm, rule)
    ensures NeverDeclines(EngineAt(m, fuel), rule)
  {
    EngineFirm(m, firm, fuel);
    forall s ensures DecidesAt(EngineAt(m, fuel), rule, s) {
      assert RunsFirm(EngineAt(m, fuel), firm, rule, s);
    }
  }

  // ------------------------------------------- rules that refuse what they cannot start with

  /** The body begins with a list or a required rule that cannot be empty. */
  ghost predicate BeginsDemanding(m: Setup, calm: set<Label>, rule: Rule)
    decreases rule, 0
  {
    match rule.body
    case ListOf(_, _, _) => true
    case Required(inner) => Tentative(m, calm, inner) && !Nullable(LangOf(m, inner))
    case RecoverSync(inner) => Refusing(m, calm, inner)
    case Sequence(_, rules) => rules != [] && Refusing(m, calm, rules[0]) && SeqLangOf(m, rules[1..]) != Empty
    case Root(_, rules) => rules != [] && Refusing(m, calm, rules[0]) && SeqLangOf(m, rules[1..]) != Empty
    case Wrap(_, inner) => Refusing(m, calm, inner)
    case _ => false
  }

  /** And no recovery of its own turns the error into a success. */
  ghost predicate Refusing(m: Setup, calm: set<Label>, rule: Rule)
    decreases rule, 1
  {
    !rule.isBarrier && BeginsDemanding(m, calm, rule)
  }

  /** The outcome is a syntax error, if it is any. */
  ghost predicate Refused(o: Outcome) {
    o.Done? ==> o.result.Failure? && o.result.kind.FailureError?
  }

  lemma {:induction false} ListStarts(m: Setup, rule: Rule, spec: ListRule.ListSpec)
    requires rule.body.ListOf? && rule.body.spec == spec
    ensures Starts(LangOf(m, rule), spec.open)
  {
    var tail := if spec.mode.TrailingRequired? then [spec.separator, spec.close] else [spec.close];
    var w := [spec.open, spec.element] + tail;
    assert w[2..] == tail;
    ListRule.GrammarWords(GrammarMap(m.registry), rule.grammarLabel, spec, w);
    assert w == [spec.open] + w[1..];
    StartsIn(LangOf(m, rule), spec.open, w[1..]);
  }

  lemma {:induction false} FirstRefuses(m: Setup, calm: set<Label>, first: Rule, rest: seq<Rule>, s: State, fuel: nat)
    requires fuel > 0 && CalmOnly(m, calm) && InEntry(m, s) && Refusing(m, calm, first) && SeqLangOf(m, rest) != Empty
    requires !Starts(Cat(LangOf(m, first), SeqLangOf(m, rest)), Peek(m, s).token)
    ensures Refused(EngineAt(m, fuel - 1)(first, Normal, s))
    decreases fuel, 0
  {
    StartsCat(LangOf(m, first), SeqLangOf(m, rest), Peek(m, s).token);
    EngineRefuses(m, calm, first, s, fuel - 1);
  }

  lemma {:induction false} RequiredRefuses(m: Setup, calm: set<Label>, owner: Rule, inner: Rule, s: State, fuel: nat)
    requires CalmOnly(m, calm) && InEntry(m, s) && Tentative(m, calm, inner) && !Nullable(LangOf(m, inner))
    requires !Starts(LangOf(m, inner), Peek(m, s).token)
    ensures Refused(RunRequired(m, EngineAt(m, fuel), owner, inner, s))
  {
    EngineIdles(m, calm, fuel);
    assert RunsIdle(m, calm, EngineAt(m, fuel), inner, Normal, s);
  }

  lemma {:induction false} GroupRefuses(m: Setup, calm: set<Label>, rule: Rule, s: State, fuel: nat)
    requires fuel > 0 && CalmOnly(m, calm) && InEntry(m, s) && BeginsDemanding(m, calm, rule)
    requires (rule.body.Sequence? || rule.body.Root?) && !Starts(LangOf(m, rule), Peek(m, s).token)
    ensures Refused(RunBody(m, EngineAt(m, fuel - 1), rule, s, fuel - 1))
    decreases fuel, 1
  {
    var rules := rule.body.rules;
    SequenceLang(m, rule, rules);
    FirstRefuses(m, calm, rules[0], rules[1..], if rule.body.Root? then NewNode(s) else s, fuel);
  }

  lemma {:induction false} WrapRefuses(m: Setup, calm: set<Label>, rule: Rule, kind: Kind, inner: Rule, s: State, fuel: nat)
    requires fuel > 0 && CalmOnly(m, calm) && InEntry(m, s) && Refusing(m, calm, inner)
    requires rule.body == Wrap(kind, inner) && !Starts(LangOf(m, rule), Peek(m, s).token)
    ensures Refused(RunBody(m, EngineAt(m, fuel - 1), rule, s, fuel - 1))
    decreases fuel, 1
  {
    assert GrammarsOf([inner]) == [GrammarOf(inner)] && [inner][1..] == [];
    SequenceLang(m, rule, [inner]);
    OneAsSequence(m, calm, inner);
    EngineRefuses(m, calm, inner, s, fuel - 1);
  }

  lemma {:induction false} BodyRefuses(m: Setup, calm: set<Label>, rule: Rule, s: State, fuel: nat)
    requires fuel > 0 && CalmOnly(m, calm) && InEntry(m, s) && BeginsDemanding(m, calm, rule)
    requires !Starts(LangOf(m, rule), Peek(m, s).token)
    ensures Refused(RunBody(m, EngineAt(m, fuel - 1), rule, s, fuel - 1))
    decreases fuel, 2
  {
    match rule.body
    case ListOf(spec, _, _) => ListStarts(m, rule, spec);
    case Required(inner) => RequiredRefuses(m, calm, rule, inner, s, fuel - 1);
    case RecoverSync(inner) => EngineRefuses(m, calm, inner, s, fuel - 1);
    case Wrap(kind, inner) => WrapRefuses(m, calm, rule, kind, inner, s, fuel);
    case Sequence(_, _) => GroupRefuses(m, calm, rule, s, fuel);
    case Root(_, _) => GroupRefuses(m, calm, rule, s, fuel);
  }

  /** Where no word of its grammar can start, a refusing rule answers with an error. */
  lemma {:induction false} EngineRefuses(m: Setup, calm: set<Label>, rule: Rule, s: State, fuel: nat)
    requires CalmOnly(m, calm) && InEntry(m, s) && Refusing(m, calm, rule) && !Starts(LangOf(m, rule), Peek(m, s).token)
    ensures Refused(EngineAt(m, fuel)(rule, Normal, s))
    decreases fuel, 3
  {
    if fuel > 0 {
      EnterInEntry(m, rule, Normal, s);
      BodyRefuses(m, calm, rule, Enter(m, rule, Normal, s), fuel);
      EnvelopeDecides(m, EngineAt(m, fuel - 1), rule, s, fuel - 1);
    }
    EngineUnfolds(m, rule, Normal, s, fuel);
  }

  /** And what begins with one ends an ordered choice there, be it by a recovery. */
  lemma {:induction false} BeginningDecides(m: Setup, calm: set<Label>, rule: Rule, s: State, fuel: nat)
    requires CalmOnly(m, calm) && InEntry(m, s) && BeginsDemanding(m, calm, rule) && !Starts(LangOf(m, rule), Peek(m, s).token)
    ensures DecidesAt(EngineAt(m, fuel), rule, s)
  {
    if fuel > 0 {
      EnterInEntry(m, rule, Normal, s);
      BodyRefuses(m, calm, rule, Enter(m, rule, Normal, s), fuel);
      EnvelopeDecides(m, EngineAt(m, fuel - 1), rule, s, fuel - 1);
    }
    EngineUnfolds(m, rule, Normal, s, fuel);
  }
}
