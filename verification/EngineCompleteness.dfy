/**
 Completeness of the engine. A predictive rule that meets a word of its grammar, with nothing
 behind it that could go on that word, succeeds at the end of the word and leaves no error,
 whatever fuel it takes to answer; and some fuel is enough.
 */
module EngineCompleteness {
  import opened Languages
  import opened Grammars
  import opened Sources
  import opened ErrorScopes
  import opened Rules
  import opened Engine
  import opened EngineTransaction
  import opened EngineIdle
  import opened Determinacy
  import opened Predictability
  import opened DueBodies
  import opened EngineTermination
  import ListRule
  import ChoiceDispatch

  // ------------------------------------------------------------------ declining bodies

  /** No word of the rule can stand here, not even the empty one. */
  ghost predicate Absent(m: Setup, l: Language, s: State)
    requires Ready(m, s)
  {
    !Nullable(l) && !Starts(l, Peek(m, s).token)
  }

  lemma EmptyRow(m: Setup)
    ensures Nullable(SeqLangOf(m, []))
  {
  }

  lemma {:induction false} SequenceRefuses(m: Setup, k: Classes, exec: Exec, owner: Rule, kind: Option<Kind>, rules: seq<Rule>,
                                           children: seq<Tree>, s: State)
    requires Able(m, k, exec, s) && InRow(m, k, rules) && TentativeInOrder(m, k.calm, rules) && Absent(m, SeqLangOf(m, rules), s)
    ensures Refuses(RunSequence(m, exec, owner, kind, rules, Marker(m, s), children, s))
    decreases |rules|
  {
    EmptyRow(m);
    if rules != [] {
      var first, rest := LangOf(m, rules[0]), SeqLangOf(m, rules[1..]);
      StartsCat(first, rest, Peek(m, s).token);
      CatNullable(first, rest);
      var c := exec(rules[0], Normal, s);
      if Nullable(first) {
        ChildInPlace(m, k, exec, rules[0], Normal, s);
        if c.Done? {
          SequenceRefuses(m, k, exec, owner, kind, rules[1..], Attached(children, c.result), c.state);
        }
      } else {
        ChildRefuses(m, k, exec, rules[0], Normal, s);
      }
    }
  }

  lemma {:induction false} RootRefuses(m: Setup, k: Classes, exec: Exec, owner: Rule, kind: Kind, id: nat, rules: seq<Rule>, s: State)
    requires Able(m, k, exec, s) && InRow(m, k, rules) && TentativeInOrder(m, k.calm, rules) && Absent(m, SeqLangOf(m, rules), s)
    requires |rules| > 1 ==> !Nullable(LangOf(m, rules[0]))
    ensures Refuses(RunRoot(m, exec, owner, kind, id, rules, false, [], s))
  {
    EmptyRow(m);
    if rules != [] {
      var first, rest := LangOf(m, rules[0]), SeqLangOf(m, rules[1..]);
      StartsCat(first, rest, Peek(m, s).token);
      CatNullable(first, rest);
      assert |rules| == 1 ==> rest == Epsilon;
      ChildRefuses(m, k, exec, rules[0], Normal, s);
    }
  }

  lemma {:induction false} WrapRefuses(m: Setup, k: Classes, exec: Exec, rule: Rule, kind: Kind, inner: Rule, s: State)
    requires Able(m, k, exec, s) && rule.body == Wrap(kind, inner) && Predictive(m, k, inner) && Tentative(m, k.calm, inner)
    requires Absent(m, LangOf(m, rule), s)
    ensures Refuses(RunSequence(m, exec, rule, Some(kind), [inner], Marker(m, s), [], s))
  {
    RowOfOne(m, k, inner);
    OneAsSequence(m, k.calm, inner);
    assert GrammarsOf([inner]) == [GrammarOf(inner)];
    SequenceLang(m, rule, [inner]);
    SequenceRefuses(m, k, exec, rule, Some(kind), [inner], [], s);
  }

  lemma {:induction false} RowRefuses(m: Setup, k: Classes, exec: Exec, rule: Rule, s: State, turns: nat)
    requires Able(m, k, exec, s) && Predictive(m, k, rule) && Tentative(m, k.calm, rule) && Absent(m, LangOf(m, rule), s)
    requires rule.body.Sequence? || rule.body.Root?
    ensures Refuses(RunBody(m, exec, rule, s, turns))
  {
    match rule.body
    case Sequence(kind, rules) =>
      SequenceLang(m, rule, rules);
      SequenceRefuses(m, k, exec, rule, kind, rules, [], s);
    case Root(kind, rules) =>
      SequenceLang(m, rule, rules);
      RootRefuses(m, k, exec, rule, kind, s.nextID + 1, rules, NewNode(s));
  }

  lemma {:induction false} SuffixRefuses(m: Setup, k: Classes, exec: Exec, rule: Rule, kind: Kind, inner: Rule, suffix: Token, s: State)
    requires Able(m, k, exec, s) && rule.body == OptionalSuffix(kind, inner, suffix) && Predictive(m, k, rule) && Tentative(m, k.calm, inner)
    requires Absent(m, LangOf(m, rule), s)
    ensures Refuses(RunSuffix(m, exec, kind, inner, suffix, s))
  {
    var tail := Epsilon + Single(suffix);
    SuffixLang(m, rule);
    assert [] in tail;
    StartsCat(LangOf(m, inner), tail, Peek(m, s).token);
    CatNullable(LangOf(m, inner), tail);
    ChildRefuses(m, k, exec, inner, Normal, s);
  }

  /** An iteration that is absent here asks for a round, and no round can start here. */
  lemma AbsentRounds(l: Language, min: nat, max: Option<nat>, t: Token)
    requires !Nullable(Iterate(l, min, Upper(max))) && !Starts(Iterate(l, min, Upper(max)), t) && (max == Some(0) || AllowsOne(min, max))
    ensures min > 0 && (max != Some(0) ==> !Starts(l, t))
  {
    if min == 0 {
      assert [] in Power(l, 0);
      RoundsIn(l, 0, 0, max);
    }
    if max != Some(0) && Starts(l, t) {
      StartsIterate(l, min, max, t);
    }
  }

  /** A loop whose body refuses at once has counted nothing. */
  lemma {:induction false} NoRound(m: Setup, exec: Exec, inner: Rule, max: Option<nat>, retries: bool, s: State, turns: nat)
    requires max == Some(0) || Refuses(exec(inner, Normal, s))
    ensures var o := RunLoop(m, exec, inner, max, retries, 0, [], s, turns); o.LoopOutOfFuel? || (o.LoopDone? && o.count == 0)
  {
  }

  lemma {:induction false} RepetitionRefuses(m: Setup, k: Classes, exec: Exec, rule: Rule, kind: Option<Kind>, min: nat, max: Option<nat>, retries: bool,
                                             inner: Rule, s: State, turns: nat)
    requires Able(m, k, exec, s) && Predictive(m, k, rule) && Tentative(m, k.calm, rule) && Absent(m, LangOf(m, rule), s)
    requires rule.body == if retries then Repetition(kind, min, inner) else BoundedRepetition(kind, min, max, inner)
    requires retries ==> max.None?
    ensures Refuses(RunRepetition(m, exec, kind, min, max, retries, inner, s, turns))
  {
    var e := if kind.Some? then NewNode(s) else s;
    RepeatLanguage(m, rule);
    AbsentRounds(LangOf(m, inner), min, max, Peek(m, s).token);
    if max != Some(0) {
      ChildRefuses(m, k, exec, inner, Normal, e);
    }
    NoRound(m, exec, inner, max, retries, e, turns);
  }

  lemma {:induction false} ArmsRefuse(m: Setup, k: Classes, exec: Exec, rules: seq<Rule>, s: State)
    requires Able(m, k, exec, s) && forall r :: r in rules ==> Predictive(m, k, r) && Declining(m, k, r, Ahead(m, s))
    ensures Refuses(RunArms(exec, rules, s))
    decreases |rules|
  {
    if rules != [] {
      assert rules[0] in rules;
      ChildRefuses(m, k, exec, rules[0], Normal, s);
      var c := exec(rules[0], Normal, s);
      if c.Done? {
        assert forall r :: r in rules[1..] ==> r in rules;
        ArmsRefuse(m, k, exec, rules[1..], c.state);
      }
    }
  }

  lemma {:induction false} ChoiceRefuses(m: Setup, k: Classes, exec: Exec, rule: Rule, rules: seq<Rule>, s: State)
    requires Able(m, k, exec, s) && rule.body == Choice(rules) && AllPredictive(m, k, rules) && Tentative(m, k.calm, rule)
    requires Absent(m, LangOf(m, rule), s)
    ensures Refuses(RunChoice(m, exec, rules, s))
  {
    ChoiceArms(m, k.calm, rule, rules, Peek(m, s).token);
    forall r | r in rules ensures Predictive(m, k, r) && Declining(m, k, r, Ahead(m, s)) {
      var i: nat :| i < |rules| && rules[i] == r;
      EachPredictive(m, k, rules, i);
    }
    match ChoiceDispatch.DispatchOf(m.analysis, Arms(rules), Ahead(m, s))
    case NoArm =>
    case Candidates(indices) =>
      SelectedIn(rules, indices);
      ArmsRefuse(m, k, exec, Selected(rules, indices), s);
    case Fallback => ArmsRefuse(m, k, exec, rules, s);
  }

  /** A guard in front or nothing around the inner rule: it has no word here either, or its guard fails too. */
  lemma {:induction false} AsInnerRefuses(m: Setup, k: Classes, exec: Exec, rule: Rule, s: State, turns: nat)
    requires Able(m, k, exec, s) && Predictive(m, k, rule) && Declining(m, k, rule, Ahead(m, s)) && (rule.body.Predict? || rule.body.RecoverSync?)
    ensures Refuses(RunBody(m, exec, rule, s, turns))
  {
    var inner := rule.body.inner;
    assert LangOf(m, rule) == LangOf(m, inner);
    if Declining(m, k, inner, Ahead(m, s)) {
      ChildRefuses(m, k, exec, inner, Normal, s);
    }
  }

  lemma {:induction false} OptionNullable(m: Setup, rule: Rule)
    requires rule.body.Optional? || rule.body.OptionalWhen?
    ensures Nullable(LangOf(m, rule))
  {
    OptionLang(m, rule, rule.body.inner);
  }

  /** A tentative rule without a word here answers "no match". */
  lemma {:induction false} AbsentRefuses(m: Setup, k: Classes, exec: Exec, rule: Rule, s: State, turns: nat)
    requires Able(m, k, exec, s) && Predictive(m, k, rule) && Tentative(m, k.calm, rule) && Absent(m, LangOf(m, rule), s)
    requires !rule.body.Predict? && !rule.body.RecoverSync? && !rule.body.Reference?
    ensures Refuses(RunBody(m, exec, rule, s, turns))
  {
    match rule.body
    case Expect(tokens, kind) => ExpectIdle(m, rule, tokens, kind, s);
    case Nest(_, _, _, _) => BracketIdle(m, k.calm, exec, rule, s, turns);
    case Prefixed(_, _) => BracketIdle(m, k.calm, exec, rule, s, turns);
    case Sequence(_, _) => RowRefuses(m, k, exec, rule, s, turns);
    case Root(_, _) => RowRefuses(m, k, exec, rule, s, turns);
    case Wrap(kind, inner) => WrapRefuses(m, k, exec, rule, kind, inner, s);
    case Choice(rules) => ChoiceRefuses(m, k, exec, rule, rules, s);
    case Repetition(kind, min, inner) => RepetitionRefuses(m, k, exec, rule, kind, min, None, true, inner, s, turns);
    case BoundedRepetition(kind, min, max, inner) => RepetitionRefuses(m, k, exec, rule, kind, min, max, false, inner, s, turns);
    case OptionalSuffix(kind, inner, suffix) => SuffixRefuses(m, k, exec, rule, kind, inner, suffix, s);
    case Optional(_) => OptionNullable(m, rule);
    case OptionalWhen(_, _) => OptionNullable(m, rule);
  }

  /** A target's body runs as its production would, under one more recovery set. */
  lemma {:induction false} BodyRefuses(m: Setup, k: Classes, exec: Exec, rule: Rule, s: State, turns: nat)
    requires Able(m, k, exec, s) && Predictive(m, k, rule) && Declining(m, k, rule, Ahead(m, s))
    ensures Refuses(RunBody(m, exec, rule, s, turns))
    decreases turns
  {
    if rule.body.Predict? || rule.body.RecoverSync? {
      AsInnerRefuses(m, k, exec, rule, s, turns);
    } else if rule.body.Reference? {
      var target := rule.body.target;
      if turns > 0 {
        ReferenceLang(m, rule, target);
        BodyRefuses(m, k, exec, m.registry[target], WithRecovery(m.registry[target], s), turns - 1);
      }
    } else {
      AbsentRefuses(m, k, exec, rule, s, turns);
    }
  }

  // --------------------------------------------------------------------- lists, barred

  lemma ListStarts(m: Setup, rule: Rule)
    requires rule.body.ListOf?
    ensures Starts(LangOf(m, rule), rule.body.spec.open)
  {
    var spec := rule.body.spec;
    var tail := if spec.mode.TrailingRequired? then [spec.separator, spec.close] else [spec.close];
    var w := [spec.open, spec.element] + tail;
    assert w[2..] == tail;
    ListRule.GrammarWords(GrammarMap(m.registry), rule.grammarLabel, spec, w);
    StartsHead(LangOf(m, rule), w);
  }

  lemma {:induction false} BarredFails(m: Setup, exec: Exec, rule: Rule, s: State, turns: nat)
    requires Ready(m, s) && ListBarred(m, rule, s)
    ensures Fails(RunBody(m, exec, rule, s, turns))
    decreases turns
  {
    if rule.body.ListOf? {
      ListStarts(m, rule);
    } else if turns > 0 {
      var target := rule.body.target;
      ReferenceLang(m, rule, target);
      BarredFails(m, exec, m.registry[target], WithRecovery(m.registry[target], s), turns - 1);
    }
  }

  // ------------------------------------------------------------------------- all bodies

  lemma {:induction false} OneRuleThrough(m: Setup, k: Classes, exec: Exec, rule: Rule, s: State, turns: nat, w: Word, d: Position)
    requires Able(m, k, exec, s) && Predictive(m, k, rule) && Due(m.src, LangOf(m, rule), s.cursor, w, d) && EngineTransaction.RunsOneRule(rule.body)
    ensures Through(s, d, RunBody(m, exec, rule, s, turns))
  {
    match rule.body
    case Optional(inner) => OptionalThrough(m, k, exec, rule, inner, s, w, d);
    case OptionalWhen(start, inner) => WhenThrough(m, k, exec, rule, start, inner, s, turns, w, d);
    case Predict(_, _) => AsInnerThrough(m, k, exec, rule, s, turns, w, d);
    case Required(_) => AsInnerThrough(m, k, exec, rule, s, turns, w, d);
    case RecoverSync(_) => AsInnerThrough(m, k, exec, rule, s, turns, w, d);
    case OptionalSuffix(kind, inner, suffix) => SuffixThrough(m, k, exec, rule, kind, inner, suffix, s, w, d);
    case Prefixed(prefix, inner) => PrefixedThrough(m, k, exec, rule, prefix, inner, s, turns, w, d);
  }

  lemma {:induction false} LoopBodyThrough(m: Setup, k: Classes, exec: Exec, rule: Rule, s: State, turns: nat, w: Word, d: Position)
    requires Able(m, k, exec, s) && Predictive(m, k, rule) && Due(m.src, LangOf(m, rule), s.cursor, w, d)
    requires rule.body.Repetition? || rule.body.BoundedRepetition?
    ensures Through(s, d, RunBody(m, exec, rule, s, turns))
  {
    match rule.body
    case Repetition(kind, min, inner) => RepetitionThrough(m, k, exec, rule, kind, min, None, true, inner, s, turns, w, d);
    case BoundedRepetition(kind, min, max, inner) => RepetitionThrough(m, k, exec, rule, kind, min, max, false, inner, s, turns, w, d);
  }

  lemma {:induction false} PartsThrough(m: Setup, k: Classes, exec: Exec, rule: Rule, s: State, turns: nat, w: Word, d: Position)
    requires Able(m, k, exec, s) && Predictive(m, k, rule) && Due(m.src, LangOf(m, rule), s.cursor, w, d)
    requires !EngineTransaction.RunsOneRule(rule.body) && !rule.body.Reference? && !rule.body.Repetition? && !rule.body.BoundedRepetition?
    ensures Through(s, d, RunBody(m, exec, rule, s, turns))
  {
    match rule.body
    case Expect(tokens, kind) => ExpectThrough(m, rule, tokens, kind, s, w, d);
    case ListOf(spec, lk, ek) => ListThrough(m, rule, spec, lk, ek, s, w, d);
    case Sequence(kind, rules) => SequenceBodyThrough(m, k, exec, rule, kind, rules, s, w, d);
    case Root(kind, rules) => RootBodyThrough(m, k, exec, rule, kind, rules, s, w, d);
    case Wrap(kind, inner) => WrapThrough(m, k, exec, rule, kind, inner, s, w, d);
    case Nest(kind, open, close, inner) => NestThrough(m, k, exec, rule, kind, open, close, inner, s, w, d);
    case Choice(rules) => ChoiceThrough(m, k, exec, rule, rules, s, w, d);
  }

  lemma {:induction false} BodyThrough(m: Setup, k: Classes, exec: Exec, rule: Rule, s: State, turns: nat, w: Word, d: Position)
    requires Able(m, k, exec, s) && Predictive(m, k, rule) && Due(m.src, LangOf(m, rule), s.cursor, w, d)
    ensures Through(s, d, RunBody(m, exec, rule, s, turns))
    decreases turns
  {
    if EngineTransaction.RunsOneRule(rule.body) {
      OneRuleThrough(m, k, exec, rule, s, turns, w, d);
    } else if rule.body.Reference? {
      var target := rule.body.target;
      if turns > 0 {
        ReferenceLang(m, rule, target);
        BodyThrough(m, k, exec, m.registry[target], WithRecovery(m.registry[target], s), turns - 1, w, d);
      }
    } else if rule.body.Repetition? || rule.body.BoundedRepetition? {
      LoopBodyThrough(m, k, exec, rule, s, turns, w, d);
    } else {
      PartsThrough(m, k, exec, rule, s, turns, w, d);
    }
  }

  // ----------------------------------------------------------------- rules with a node

  ghost predicate NodedExec(k: Classes, exec: Exec) {
    forall rule, mode, s :: HasNode(k, rule, exec(rule, mode, s))
  }

  lemma {:induction false} ArmsHaveNodes(k: Classes, exec: Exec, rules: seq<Rule>, s: State)
    requires NodedExec(k, exec) && forall r :: r in rules ==> Noded(k.noded, r)
    ensures var o := RunArms(exec, rules, s); o.Done? && o.result.Success? ==> o.result.node.Some?
    decreases |rules|
  {
    if rules != [] {
      assert HasNode(k, rules[0], exec(rules[0], Normal, s));
      assert rules[0] in rules && forall r :: r in rules[1..] ==> r in rules;
      var c := exec(rules[0], Normal, s);
      if c.Done? {
        ArmsHaveNodes(k, exec, rules[1..], c.state);
      }
    }
  }

  lemma {:induction false} EachNoded(noded: set<Label>, rules: seq<Rule>)
    requires AllNoded(noded, rules)
    ensures forall r :: r in rules ==> Noded(noded, r)
    decreases |rules|
  {
    if rules != [] {
      EachNoded(noded, rules[1..]);
      assert rules == [rules[0]] + rules[1..];
    }
  }

  lemma {:induction false} ChoiceHasNode(m: Setup, k: Classes, exec: Exec, rules: seq<Rule>, s: State)
    requires NodedExec(k, exec) && AllNoded(k.noded, rules)
    ensures var o := RunChoice(m, exec, rules, s); o.Done? && o.result.Success? ==> o.result.node.Some?
  {
    EachNoded(k.noded, rules);
    match ChoiceDispatch.DispatchOf(m.analysis, Arms(rules), Ahead(m, s))
    case NoArm =>
    case Candidates(indices) =>
      SelectedIn(rules, indices);
      ArmsHaveNodes(k, exec, Selected(rules, indices), s);
    case Fallback => ArmsHaveNodes(k, exec, rules, s);
  }

  lemma {:induction false} SequenceHasNode(m: Setup, exec: Exec, owner: Rule, kind: Option<Kind>, rules: seq<Rule>, marker: nat, children: seq<Tree>, s: State)
    ensures var o := RunSequence(m, exec, owner, kind, rules, marker, children, s); o.Done? && o.result.Success? ==> o.result.node.Some?
    decreases |rules|
  {
    if rules != [] {
      var c := exec(rules[0], Normal, s);
      if c.Done? {
        var v := Judge(m, owner, rules[0], marker, c.result, c.state);
        if v.Keep? {
          SequenceHasNode(m, exec, owner, kind, rules[1..], marker, Attached(children, v.result), v.state);
        }
      }
    }
  }

  lemma {:induction false} RootHasNode(m: Setup, exec: Exec, owner: Rule, kind: Kind, id: nat, rules: seq<Rule>, committed: bool, children: seq<Tree>, s: State)
    ensures var o := RunRoot(m, exec, owner, kind, id, rules, committed, children, s); o.Done? && o.result.Success? ==> o.result.node.Some?
    decreases |rules|
  {
    if rules != [] {
      var c := exec(rules[0], Normal, s);
      if c.Done? && c.result.Success? {
        RootHasNode(m, exec, owner, kind, id, rules[1..], true, Attached(children, c.result), c.state);
      }
    }
  }

  lemma {:induction false} LoopFails(m: Setup, exec: Exec, inner: Rule, max: Option<nat>, retries: bool, count: nat, children: seq<Tree>, s: State, turns: nat)
    ensures var o := RunLoop(m, exec, inner, max, retries, count, children, s, turns); o.LoopFailed? ==> o.result.Failure?
    decreases turns
  {
    if !(max.Some? && count >= max.value) && turns > 0 {
      var c := exec(inner, Normal, s);
      if c.Done? {
        var turn := NextTurn(m, retries, count, children, s, c.result, c.state);
        if turn.Again? {
          LoopFails(m, exec, inner, max, retries, turn.count, turn.children, c.state, turns - 1);
        }
      }
    }
  }

  lemma {:induction false} InnerHasNode(m: Setup, k: Classes, exec: Exec, rule: Rule, s: State, turns: nat)
    requires NodedExec(k, exec) && Noded(k.noded, rule)
    requires rule.body.Predict? || rule.body.Required? || rule.body.RecoverSync? || rule.body.Prefixed? || rule.body.OptionalSuffix? || rule.body.Nest?
    ensures HasNode(k, rule, RunBody(m, exec, rule, s, turns))
  {
    var inner := rule.body.inner;
    assert HasNode(k, inner, exec(inner, Normal, s));
    assert HasNode(k, inner, exec(inner, Normal, Take(m, s)));
    assert HasNode(k, inner, exec(inner, Normal, Opened(m, s)));
  }

  lemma {:induction false} BodyHasNode(m: Setup, k: Classes, exec: Exec, rule: Rule, s: State, turns: nat)
    requires NodedExec(k, exec) && Classified(m, k) && Noded(k.noded, rule)
    ensures HasNode(k, rule, RunBody(m, exec, rule, s, turns))
    decreases turns
  {
    match rule.body
    case Expect(_, _) =>
    case ListOf(_, _, _) =>
    case Sequence(kind, rules) => SequenceHasNode(m, exec, rule, kind, rules, Marker(m, s), [], s);
    case Wrap(kind, inner) => SequenceHasNode(m, exec, rule, Some(kind), [inner], Marker(m, s), [], s);
    case Root(kind, rules) => RootHasNode(m, exec, rule, kind, s.nextID + 1, rules, false, [], NewNode(s));
    case Repetition(kind, _, inner) => LoopFails(m, exec, inner, None, true, 0, [], if kind.Some? then NewNode(s) else s, turns);
    case BoundedRepetition(kind, _, max, inner) => LoopFails(m, exec, inner, max, false, 0, [], if kind.Some? then NewNode(s) else s, turns);
    case Choice(rules) => ChoiceHasNode(m, k, exec, rules, s);
    case Reference(target) =>
      if target in m.registry && turns > 0 {
        BodyHasNode(m, k, exec, m.registry[target], WithRecovery(m.registry[target], s), turns - 1);
      }
    case _ => InnerHasNode(m, k, exec, rule, s, turns);
  }

  // -------------------------------------------------------------------- the envelope

  /** A rule's own scope closes without a trace when nothing was reported in it. */
  lemma ScopeUntouched(s: State, n: Nested)
    requires s.errors == PushScope(n)
    ensures Pop(s, true) == s.(errors := n)
  {
    LastOf(n.entries, Scope(None, []));
    AddNone(n.entries);
    assert n.errors + [] + [] == n.errors;
    assert [] + AsList(None) == [];
  }

  /** A body that led through a due word keeps the rule's contract. */
  lemma {:induction false} KeptContract(m: Setup, k: Classes, rule: Rule, s: State, w: Word, d: Position, r: Result, t: State)
    requires Ready(m, s) && Predictive(m, k, rule) && Due(m.src, LangOf(m, rule), s.cursor, w, d)
    requires r.Success? && t.cursor == d && (Noded(k.noded, rule) ==> r.node.Some?)
    ensures !Violates(m, rule, s, Peek(m, s), r, t)
  {
    ReadsBegins(m.src, s.cursor, w, d);
  }

  lemma {:induction false} EnvelopeThrough(m: Setup, k: Classes, exec: Exec, rule: Rule, mode: Mode, s: State, turns: nat, w: Word, d: Position)
    requires Able(m, k, exec, Enter(m, rule, mode, s)) && NodedExec(k, exec) && Predictive(m, k, rule)
    requires Due(m.src, LangOf(m, rule), s.cursor, w, d)
    ensures Through(s, d, RunEnvelope(m, exec, rule, mode, s, turns))
  {
    var e := Enter(m, rule, mode, s);
    BodyThrough(m, k, exec, rule, e, turns, w, d);
    var c := RunBody(m, exec, rule, e, turns);
    if c.Done? {
      if Noded(k.noded, rule) {
        BodyHasNode(m, k, exec, rule, e, turns);
      }
      KeptContract(m, k, rule, s, w, d, c.result, c.state);
      ScopeUntouched(c.state, s.errors);
    }
  }

  lemma {:induction false} EnvelopeRefuses(m: Setup, k: Classes, exec: Exec, rule: Rule, mode: Mode, s: State, turns: nat)
    requires Able(m, k, exec, Enter(m, rule, mode, s)) && Predictive(m, k, rule) && Declining(m, k, rule, Ahead(m, s))
    ensures Refuses(RunEnvelope(m, exec, rule, mode, s, turns))
  {
    var e := Enter(m, rule, mode, s);
    assert Ahead(m, e) == Ahead(m, s);
    BodyRefuses(m, k, exec, rule, e, turns);
  }

  lemma {:induction false} EnvelopeFails(m: Setup, exec: Exec, rule: Rule, s: State, turns: nat)
    requires Ready(m, s) && ListBarred(m, rule, s)
    ensures Fails(RunEnvelope(m, exec, rule, Probe, s, turns))
  {
    BarredFails(m, exec, rule, Enter(m, rule, Probe, s), turns);
  }

  lemma {:induction false} EnvelopeHasNode(m: Setup, k: Classes, exec: Exec, rule: Rule, mode: Mode, s: State, turns: nat)
    requires NodedExec(k, exec) && Classified(m, k)
    ensures HasNode(k, rule, RunEnvelope(m, exec, rule, mode, s, turns))
  {
    var c := RunBody(m, exec, rule, Enter(m, rule, mode, s), turns);
    if Noded(k.noded, rule) && c.Done? {
      BodyHasNode(m, k, exec, rule, Enter(m, rule, mode, s), turns);
      if c.result.Failure? {
        var (r', u) := HandleFailure(m, rule, mode, s, Peek(m, s), c.result, Truncated(c.state, |s.created|));
        assert r'.Success? ==> r'.node.Some?;
      }
    }
  }

  lemma {:induction false} EnvelopeComplete(m: Setup, k: Classes, exec: Exec, rule: Rule, mode: Mode, s: State, turns: nat, o: Outcome)
    requires Transactional(m, exec) && CompleteExec(m, k, exec) && Classified(m, k) && o == RunEnvelope(m, exec, rule, mode, s, turns)
    ensures Complete(m, k, rule, mode, s, o)
  {
    forall r, md, t ensures HasNode(k, r, exec(r, md, t)) {
      assert Complete(m, k, r, md, t, exec(r, md, t));
    }
    EnvelopeHasNode(m, k, exec, rule, mode, s, turns);
    if InEntry(m, Enter(m, rule, mode, s)) && Predictive(m, k, rule) {
      forall w, d | Due(m.src, LangOf(m, rule), s.cursor, w, d) ensures Through(s, d, o) {
        EnvelopeThrough(m, k, exec, rule, mode, s, turns, w, d);
      }
      if Declining(m, k, rule, Ahead(m, s)) {
        EnvelopeRefuses(m, k, exec, rule, mode, s, turns);
      }
      if mode.Probe? && ListBarred(m, rule, s) {
        EnvelopeFails(m, exec, rule, s, turns);
      }
    }
  }

  // ------------------------------------------------------------------------ the engine

  lemma {:induction false} CompleteIsKept(m: Setup, k: Classes, exec: Exec, p: (Rule, Mode, State, Outcome) -> bool)
    requires Classified(m, k) && forall rule, mode, s, o :: p(rule, mode, s, o) <==> Complete(m, k, rule, mode, s, o)
    ensures EnvelopeKeeps(m, exec, p)
  {
    if Transactional(m, exec) && AllRuns(exec, p) {
      forall rule, mode, s ensures Complete(m, k, rule, mode, s, exec(rule, mode, s)) {
        assert p(rule, mode, s, exec(rule, mode, s));
      }
      forall rule, mode, s, turns ensures p(rule, mode, s, RunEnvelope(m, exec, rule, mode, s, turns)) {
        EnvelopeComplete(m, k, exec, rule, mode, s, turns, RunEnvelope(m, exec, rule, mode, s, turns));
      }
    }
  }

  lemma {:induction false} EngineComplete(m: Setup, k: Classes, fuel: nat)
    requires Classified(m, k)
    ensures CompleteExec(m, k, EngineAt(m, fuel))
  {
    var p := (r: Rule, md: Mode, st: State, o: Outcome) => Complete(m, k, r, md, st, o);
    forall exec {
      CompleteIsKept(m, k, exec, p);
    }
    forall rule, mode, s ensures p(rule, mode, s, OutOfFuel) {
      assert Complete(m, k, rule, mode, s, OutOfFuel);
    }
    EngineInduction(m, p, fuel);
    forall rule, mode, s ensures Complete(m, k, rule, mode, s, EngineAt(m, fuel)(rule, mode, s)) {
      assert p(rule, mode, s, EngineAt(m, fuel)(rule, mode, s));
    }
  }

  /**
   Every answer is the right one: where a word of a predictive rule's grammar stands, and the
   token behind it goes on no word of the grammar after this one, the rule succeeds just behind
   the word with the errors it started with, whatever fuel it answers with.
   */
  lemma {:induction false} WordsAreTaken(m: Setup, k: Classes, rule: Rule, mode: Mode, s: State, w: Word, d: Position, fuel: nat)
    requires Classified(m, k) && Predictive(m, k, rule) && InEntry(m, Enter(m, rule, mode, s))
    requires w in LangOf(m, rule) && Reads(m.src, s.cursor, w, d) && Within(m.src, d)
    requires forall v :: w + ([PeekAt(m.src, d, 0).token] + v) !in LangOf(m, rule)
    ensures var o := ExecuteRule(m, rule, mode, s, fuel);
            o == OutOfFuel || (o.Done? && o.result.Success? && o.state.cursor == d && o.state.errors == s.errors)
  {
    var t := PeekAt(m.src, d, 0).token;
    if Continues(LangOf(m, rule), w, t) {
      var v := ContinuesElim(LangOf(m, rule), w, t);
    }
    EngineComplete(m, k, fuel);
    assert Due(m.src, LangOf(m, rule), s.cursor, w, d);
    assert Complete(m, k, rule, mode, s, EngineAt(m, fuel)(rule, mode, s));
  }

  /** And with a ranking of the productions some fuel is enough. */
  lemma {:induction false} Completeness(m: Setup, k: Classes, z: Ranking, rule: Rule, mode: Mode, s: State, w: Word, d: Position) returns (fuel: nat)
    requires Classified(m, k) && Predictive(m, k, rule) && InEntry(m, Enter(m, rule, mode, s)) && Ranks(m, z) && Fine(m, z, rule)
    requires w in LangOf(m, rule) && Reads(m.src, s.cursor, w, d) && Within(m.src, d)
    requires forall v :: w + ([PeekAt(m.src, d, 0).token] + v) !in LangOf(m, rule)
    ensures var o := ExecuteRule(m, rule, mode, s, fuel);
            o.Done? && o.result.Success? && o.state.cursor == d && o.state.errors == s.errors
  {
    fuel := EngineTerminates(m, z, rule, mode, s);
    WordsAreTaken(m, k, rule, mode, s, w, d, fuel);
  }
}
