/**
 Rules that consume. Whether a rule can succeed without consuming anything is read off its
 shape: expecting a token, a list, a nest or a prefix consumes, and options need not. A barrier
 that recovers takes the token it lands on, unless its own tokens to be left in place hold it.
 */
module EngineProgress {
  import opened Languages
  import opened Grammars
  import opened Sources
  import opened Recovery
  import opened Rules
  import opened Engine
  import opened EngineTransaction
  import ListRule
  import ChoiceDispatch

  /** The body takes a token before anything in it can go wrong. */
  predicate ErrsBehindToken(b: Body) {
    b.Expect? || b.Nest? || b.Prefixed?
  }

  /** The rule may recover and succeed at a token it leaves in place. */
  predicate MayRecoverInPlace(rule: Rule) {
    rule.isBarrier && rule.noConsumeTokens != [] && !ErrsBehindToken(rule.body)
  }

  /** The rule can succeed on the spot, when the productions in empty can. */
  predicate MayBeEmpty(empty: set<Label>, rule: Rule)
    decreases rule, 2
  {
    MayRecoverInPlace(rule) || BodyMayBeEmpty(empty, rule)
  }

  predicate BodyMayBeEmpty(empty: set<Label>, rule: Rule)
    decreases rule, 1
  {
    match rule.body
    case Expect(_, _) => false
    case ListOf(_, _, _) => false
    case Nest(_, _, _, _) => false
    case Prefixed(_, _) => false
    case Optional(_) => true
    case OptionalWhen(_, _) => true
    case Sequence(_, rules) => AllMayBeEmpty(empty, rules)
    case Root(_, rules) => AllMayBeEmpty(empty, rules)
    case Choice(rules) => SomeMayBeEmpty(empty, rules)
    case Repetition(_, min, inner) => min == 0 || MayBeEmpty(empty, inner)
    case BoundedRepetition(_, min, _, inner) => min == 0 || MayBeEmpty(empty, inner)
    case Reference(target) => target in empty
    case Wrap(_, inner) => MayBeEmpty(empty, inner)
    case Predict(_, inner) => MayBeEmpty(empty, inner)
    case OptionalSuffix(_, inner, _) => MayBeEmpty(empty, inner)
    case Required(inner) => MayBeEmpty(empty, inner)
    case RecoverSync(inner) => MayBeEmpty(empty, inner)
  }

  predicate AllMayBeEmpty(empty: set<Label>, rules: seq<Rule>)
    decreases rules, 0
  {
    rules == [] || (MayBeEmpty(empty, rules[0]) && AllMayBeEmpty(empty, rules[1..]))
  }

  predicate SomeMayBeEmpty(empty: set<Label>, rules: seq<Rule>)
    decreases rules, 0
  {
    rules != [] && (MayBeEmpty(empty, rules[0]) || SomeMayBeEmpty(empty, rules[1..]))
  }

  /** empty holds every production whose body can succeed on the spot. */
  ghost predicate HoldsTheEmpty(m: Setup, empty: set<Label>) {
    forall l :: l in m.registry && BodyMayBeEmpty(empty, m.registry[l]) ==> l in empty
  }

  // ----------------------------------------------------------------- outcomes that move

  /** The cursor does not go back, and a success of a consuming body moves it. */
  ghost predicate Goes(m: Setup, s: State, consuming: bool, o: Outcome) {
    o.Done? ==> s.cursor <= o.state.cursor <= |m.src.lexemes| && (consuming && o.result.Success? ==> s.cursor < o.state.cursor)
  }

  ghost predicate RunsConsume(m: Setup, empty: set<Label>, exec: Exec, rule: Rule, mode: Mode, s: State) {
    Ready(m, s) && WithoutEof(rule, m.src.eof) ==> Goes(m, s, !MayBeEmpty(empty, rule), exec(rule, mode, s))
  }

  ghost predicate ConsumingExec(m: Setup, empty: set<Label>, exec: Exec) {
    forall rule, mode, s :: RunsConsume(m, empty, exec, rule, mode, s)
  }

  ghost predicate Going(m: Setup, empty: set<Label>, exec: Exec, s: State) {
    Transactional(m, exec) && ConsumingExec(m, empty, exec) && Ready(m, s)
  }

  lemma {:induction false} ChildGoes(m: Setup, empty: set<Label>, exec: Exec, rule: Rule, mode: Mode, s: State)
    requires Going(m, empty, exec, s) && WithoutEof(rule, m.src.eof)
    ensures var o := exec(rule, mode, s);
            && Goes(m, s, !MayBeEmpty(empty, rule), o)
            && (o.Done? && o.result.Failure? && o.result.kind.FailureNoMatch? ==> o.state.cursor == s.cursor)
            && (o.Done? ==> Going(m, empty, exec, o.state))
  {
    assert RunsConsume(m, empty, exec, rule, mode, s);
    assert RunsOk(m, exec, rule, mode, s);
  }

  lemma TokenMoves(m: Setup, s: State)
    requires Ready(m, s) && Peek(m, s).token != m.src.eof
    ensures s.cursor < Take(m, s).cursor <= |m.src.lexemes|
  {
    AdvanceTakes(m.src, s.cursor);
  }

  lemma TakeGoes(m: Setup, s: State)
    requires Ready(m, s)
    ensures s.cursor <= Take(m, s).cursor <= |m.src.lexemes|
  {
  }

  // ---------------------------------------------------------------------- the bodies

  lemma {:induction false} NewNodesStay(s: State, n: nat)
    ensures NewNodes(s, n).cursor == s.cursor
    decreases n
  {
    if n > 0 {
      NewNodesStay(s, n - 1);
    }
  }

  lemma ListGoes(m: Setup, rule: Rule, spec: ListRule.ListSpec, lk: Kind, ek: Kind, s: State)
    requires Ready(m, s) && spec.open != m.src.eof
    ensures Goes(m, s, true, RunListOf(m, rule, spec, lk, ek, s))
  {
    var run := ListRule.RunList(m.src, s.cursor, spec);
    match run
    case Accepted(at, elements) =>
      AdvanceTakes(m.src, s.cursor);
      NewNodesStay(s.(cursor := at), 1 + |elements|);
    case Rejected(at, blame, made) => NewNodesStay(s.(cursor := at), made);
  }

  /** A kept element moved on, or the sequence had already moved. */
  lemma JudgeGoes(m: Setup, owner: Rule, element: Rule, start: nat, r: Result, t: State)
    requires start <= t.cursor
    ensures var v := Judge(m, owner, element, PeekRawAt(m.src, start).start, r, t);
            v.state.cursor == t.cursor && (v.Keep? ==> r.Success? || start < t.cursor)
  {
  }

  lemma {:induction false} SequenceGoes(m: Setup, empty: set<Label>, exec: Exec, owner: Rule, kind: Option<Kind>, rules: seq<Rule>,
                                        start: nat, children: seq<Tree>, s: State)
    requires Going(m, empty, exec, s) && AllWithoutEof(rules, m.src.eof) && start <= s.cursor
    ensures var o := RunSequence(m, exec, owner, kind, rules, PeekRawAt(m.src, start).start, children, s);
            && Goes(m, s, false, o)
            && (o.Done? && o.result.Success? && (start < s.cursor || !AllMayBeEmpty(empty, rules)) ==> start < o.state.cursor)
    decreases |rules|
  {
    if rules != [] {
      ChildGoes(m, empty, exec, rules[0], Normal, s);
      var c := exec(rules[0], Normal, s);
      if c.Done? {
        var marker := PeekRawAt(m.src, start).start;
        JudgeGoes(m, owner, rules[0], start, c.result, c.state);
        var v := Judge(m, owner, rules[0], marker, c.result, c.state);
        if v.Keep? {
          SequenceGoes(m, empty, exec, owner, kind, rules[1..], start, Attached(children, v.result), v.state);
        }
      }
    }
  }

  lemma {:induction false} RootGoes(m: Setup, empty: set<Label>, exec: Exec, owner: Rule, kind: Kind, id: nat, rules: seq<Rule>,
                                    start: nat, committed: bool, children: seq<Tree>, s: State)
    requires Going(m, empty, exec, s) && AllWithoutEof(rules, m.src.eof) && start <= s.cursor
    ensures var o := RunRoot(m, exec, owner, kind, id, rules, committed, children, s);
            && Goes(m, s, false, o)
            && (o.Done? && o.result.Success? && (start < s.cursor || !AllMayBeEmpty(empty, rules)) ==> start < o.state.cursor)
    decreases |rules|
  {
    if rules != [] {
      ChildGoes(m, empty, exec, rules[0], Normal, s);
      var c := exec(rules[0], Normal, s);
      if c.Done? && c.result.Success? {
        RootGoes(m, empty, exec, owner, kind, id, rules[1..], start, true, Attached(children, c.result), c.state);
      }
    }
  }

  ghost predicate LoopGoes(m: Setup, s: State, o: LoopOutcome) {
    (o.LoopDone? || o.LoopFailed? ==> s.cursor <= o.state.cursor <= |m.src.lexemes|) && (o.LoopFailed? ==> o.result.Failure?)
  }

  lemma {:induction false} RoundsGo(m: Setup, empty: set<Label>, exec: Exec, inner: Rule, max: Option<nat>, retries: bool, start: nat, count: nat,
                                    children: seq<Tree>, s: State, turns: nat)
    requires Going(m, empty, exec, s) && WithoutEof(inner, m.src.eof) && start <= s.cursor
    requires count > 0 && !MayBeEmpty(empty, inner) ==> start < s.cursor
    ensures var o := RunLoop(m, exec, inner, max, retries, count, children, s, turns);
            LoopGoes(m, s, o) && (o.LoopDone? && o.count > 0 && !MayBeEmpty(empty, inner) ==> start < o.state.cursor)
    decreases turns
  {
    if !(max.Some? && count >= max.value) && turns > 0 {
      ChildGoes(m, empty, exec, inner, Normal, s);
      var c := exec(inner, Normal, s);
      if c.Done? {
        var turn := NextTurn(m, retries, count, children, s, c.result, c.state);
        if turn.Again? {
          RoundsGo(m, empty, exec, inner, max, retries, start, turn.count, turn.children, c.state, turns - 1);
        }
      }
    }
  }

  lemma {:induction false} RepetitionGoes(m: Setup, empty: set<Label>, exec: Exec, kind: Option<Kind>, min: nat, max: Option<nat>, retries: bool, inner: Rule,
                       s: State, turns: nat)
    requires Going(m, empty, exec, s) && WithoutEof(inner, m.src.eof)
    ensures Goes(m, s, min > 0 && !MayBeEmpty(empty, inner), RunRepetition(m, exec, kind, min, max, retries, inner, s, turns))
  {
    RoundsGo(m, empty, exec, inner, max, retries, s.cursor, 0, [], if kind.Some? then NewNode(s) else s, turns);
  }

  lemma {:induction false} CommittedGoes(m: Setup, empty: set<Label>, exec: Exec, inner: Rule, s: State)
    requires Going(m, empty, exec, s) && WithoutEof(inner, m.src.eof)
    ensures Goes(m, s, false, RunCommitted(m, exec, inner, s))
  {
    ChildGoes(m, empty, exec, inner, Normal, s);
  }

  lemma CloseGoes(m: Setup, owner: Rule, kind: Option<Kind>, close: Token, r: Result, t: State)
    requires Ready(m, t)
    ensures Goes(m, t, false, CloseNest(m, owner, kind, close, r, t))
  {
    TakeGoes(m, t);
  }

  lemma {:induction false} NestGoes(m: Setup, empty: set<Label>, exec: Exec, owner: Rule, kind: Option<Kind>, open: Token, close: Token, inner: Rule, s: State)
    requires Going(m, empty, exec, s) && WithoutEof(inner, m.src.eof) && open != m.src.eof
    ensures Goes(m, s, true, RunNest(m, exec, owner, kind, open, close, inner, s))
  {
    if Peek(m, s).token == open {
      TokenMoves(m, s);
      CommittedGoes(m, empty, exec, inner, Opened(m, s));
      var c := RunCommitted(m, exec, inner, Opened(m, s));
      if c.Done? {
        CloseGoes(m, owner, kind, close, c.result, c.state);
      }
    }
  }

  lemma {:induction false} PrefixedGoes(m: Setup, empty: set<Label>, exec: Exec, inner: Rule, s: State)
    requires Going(m, empty, exec, s) && WithoutEof(inner, m.src.eof) && Peek(m, s).token != m.src.eof
    ensures Goes(m, s, true, RunCommitted(m, exec, inner, Take(m, s)))
  {
    TokenMoves(m, s);
    CommittedGoes(m, empty, exec, inner, Take(m, s));
  }

  ghost predicate ArmsFine(m: Setup, empty: set<Label>, rules: seq<Rule>, consuming: bool) {
    forall r :: r in rules ==> WithoutEof(r, m.src.eof) && (consuming ==> !MayBeEmpty(empty, r))
  }

  lemma {:induction false} ArmsGo(m: Setup, empty: set<Label>, exec: Exec, rules: seq<Rule>, s: State, consuming: bool)
    requires Going(m, empty, exec, s) && ArmsFine(m, empty, rules, consuming)
    ensures Goes(m, s, consuming, RunArms(exec, rules, s))
    decreases |rules|
  {
    if rules != [] {
      assert rules[0] in rules;
      ChildGoes(m, empty, exec, rules[0], Normal, s);
      var c := exec(rules[0], Normal, s);
      if c.Done? && c.result.Failure? && c.result.kind.FailureNoMatch? {
        ArmsGo(m, empty, exec, rules[1..], c.state, consuming);
      }
    }
  }

  lemma {:induction false} ArmsAreFine(m: Setup, empty: set<Label>, rules: seq<Rule>)
    requires AllWithoutEof(rules, m.src.eof)
    ensures ArmsFine(m, empty, rules, !SomeMayBeEmpty(empty, rules))
    decreases |rules|
  {
    if rules != [] {
      ArmsAreFine(m, empty, rules[1..]);
      assert rules == [rules[0]] + rules[1..];
    }
  }

  lemma {:induction false} SelectedIn(rules: seq<Rule>, indices: seq<nat>)
    ensures forall r :: r in Selected(rules, indices) ==> r in rules
    decreases |indices|
  {
    if indices != [] {
      SelectedIn(rules, indices[1..]);
    }
  }

  lemma {:induction false} ChoiceGoes(m: Setup, empty: set<Label>, exec: Exec, rules: seq<Rule>, s: State)
    requires Going(m, empty, exec, s) && AllWithoutEof(rules, m.src.eof)
    ensures Goes(m, s, !SomeMayBeEmpty(empty, rules), RunChoice(m, exec, rules, s))
  {
    ArmsAreFine(m, empty, rules);
    match ChoiceDispatch.DispatchOf(m.analysis, Arms(rules), Ahead(m, s))
    case NoArm =>
    case Candidates(indices) =>
      SelectedIn(rules, indices);
      ArmsGo(m, empty, exec, Selected(rules, indices), s, !SomeMayBeEmpty(empty, rules));
    case Fallback => ArmsGo(m, empty, exec, rules, s, !SomeMayBeEmpty(empty, rules));
  }

  lemma {:induction false} SuffixGoes(m: Setup, empty: set<Label>, exec: Exec, kind: Kind, inner: Rule, suffix: Token, s: State)
    requires Going(m, empty, exec, s) && WithoutEof(inner, m.src.eof)
    ensures Goes(m, s, !MayBeEmpty(empty, inner), RunSuffix(m, exec, kind, inner, suffix, s))
  {
    ChildGoes(m, empty, exec, inner, Normal, s);
    var c := exec(inner, Normal, s);
    if c.Done? {
      TakeGoes(m, c.state);
    }
  }

  predicate RunsParts(b: Body) {
    b.Sequence? || b.Root? || b.Wrap? || b.Repetition? || b.BoundedRepetition? || b.Choice?
  }

  lemma {:induction false} PartsGo(m: Setup, empty: set<Label>, exec: Exec, rule: Rule, s: State, turns: nat)
    requires Going(m, empty, exec, s) && WithoutEof(rule, m.src.eof) && RunsParts(rule.body)
    ensures Goes(m, s, !BodyMayBeEmpty(empty, rule), RunBody(m, exec, rule, s, turns))
  {
    match rule.body
    case Sequence(kind, rules) => SequenceGoes(m, empty, exec, rule, kind, rules, s.cursor, [], s);
    case Wrap(kind, inner) =>
      assert [inner][1..] == [];
      SequenceGoes(m, empty, exec, rule, Some(kind), [inner], s.cursor, [], s);
    case Root(kind, rules) => RootGoes(m, empty, exec, rule, kind, s.nextID + 1, rules, s.cursor, false, [], NewNode(s));
    case Repetition(kind, min, inner) => RepetitionGoes(m, empty, exec, kind, min, None, true, inner, s, turns);
    case BoundedRepetition(kind, min, max, inner) => RepetitionGoes(m, empty, exec, kind, min, max, false, inner, s, turns);
    case Choice(rules) => ChoiceGoes(m, empty, exec, rules, s);
  }

  lemma {:induction false} OneGoes(m: Setup, empty: set<Label>, exec: Exec, rule: Rule, s: State, turns: nat)
    requires Going(m, empty, exec, s) && WithoutEof(rule, m.src.eof) && !RunsParts(rule.body) && !rule.body.Reference?
    ensures Goes(m, s, !BodyMayBeEmpty(empty, rule), RunBody(m, exec, rule, s, turns))
  {
    match rule.body
    case Expect(tokens, kind) =>
      TakeGoes(m, s);
      if Peek(m, s).token in tokens {
        TokenMoves(m, s);
      }
    case ListOf(spec, lk, ek) => ListGoes(m, rule, spec, lk, ek, s);
    case Optional(inner) => ChildGoes(m, empty, exec, inner, Probe, s);
    case OptionalWhen(_, inner) => ChildGoes(m, empty, exec, inner, Normal, s);
    case Predict(_, inner) => ChildGoes(m, empty, exec, inner, Normal, s);
    case OptionalSuffix(kind, inner, suffix) => SuffixGoes(m, empty, exec, kind, inner, suffix, s);
    case Required(inner) => ChildGoes(m, empty, exec, inner, Normal, s);
    case RecoverSync(inner) => ChildGoes(m, empty, exec, inner, Normal, s);
    case Nest(kind, open, close, inner) => NestGoes(m, empty, exec, rule, kind, open, close, inner, s);
    case Prefixed(prefix, inner) =>
      if Peek(m, s).token == prefix {
        PrefixedGoes(m, empty, exec, inner, s);
      }
  }

  lemma {:induction false} BodyGoes(m: Setup, empty: set<Label>, exec: Exec, rule: Rule, s: State, turns: nat)
    requires HoldsTheEmpty(m, empty) && RegistryWithoutEof(m.registry, m.src.eof)
    requires Going(m, empty, exec, s) && WithoutEof(rule, m.src.eof)
    ensures Goes(m, s, !BodyMayBeEmpty(empty, rule), RunBody(m, exec, rule, s, turns))
    decreases turns
  {
    if rule.body.Reference? {
      var target := rule.body.target;
      if target in m.registry && turns > 0 {
        BodyGoes(m, empty, exec, m.registry[target], WithRecovery(m.registry[target], s), turns - 1);
      }
    } else if RunsParts(rule.body) {
      PartsGo(m, empty, exec, rule, s, turns);
    } else {
      OneGoes(m, empty, exec, rule, s, turns);
    }
  }

  // -------------------------------------------------------------------- rules and engine

  /** Inside a rule its own recovery set is on top. */
  ghost predicate OwnSetOnTop(rule: Rule, s: State) {
    s.recovery != [] && s.recovery[|s.recovery| - 1] == RecoverySet(rule.recoveryTokens, rule.noConsumeTokens, rule.isBarrier)
  }

  /** A barrier that recovers takes the token it lands on, unless it is one of its own to be left in place. */
  lemma {:induction false} LandingTaken(m: Setup, rule: Rule, s: State)
    requires OwnSetOnTop(rule, s)
    ensures var (r, t) := Landed(m, rule, s);
            r.Success? ==> t.cursor == if PeekRawAt(m.src, s.cursor).token in rule.noConsumeTokens then s.cursor else s.cursor + 1
  {
    var token := PeekRawAt(m.src, s.cursor).token;
    if token in rule.recoveryTokens || token in rule.noConsumeTokens {
      OwnerDecides(s.recovery, token, |s.recovery| - 1);
    }
  }

  lemma {:induction false} RecoveryMoves(m: Setup, rule: Rule, start: State, r: Result, s: State)
    requires r.Failure? && Ready(m, s) && start.cursor <= s.cursor && OwnSetOnTop(rule, s)
    requires !rule.isBarrier || rule.noConsumeTokens == [] || start.cursor < s.cursor
    ensures var (r', t) := Recovered(m, rule, start, r, s); r'.Success? ==> start.cursor < t.cursor
  {
    match Landing(m, s)
    case None =>
    case Some(n) =>
      LandingTaken(m, rule, s.(cursor := Clamped(m, s) + n));
  }

  /** A failure that ends in a success has moved the cursor. */
  lemma {:induction false} FailureMoves(m: Setup, rule: Rule, mode: Mode, s: State, r: Result, t: State)
    requires r.Failure? && Ready(m, s) && Inside(m, rule, mode, s, t) && OwnScope(s.errors, t.errors)
    requires !rule.isBarrier || rule.noConsumeTokens == [] || (r.kind.FailureError? ==> s.cursor < t.cursor)
    ensures var (r', u) := HandleFailure(m, rule, mode, s, Peek(m, s), r, t); r'.Success? ==> s.cursor < u.cursor
  {
    if mode.Normal? && r.kind.FailureError? {
      NoteKeepsOwnScope(m, rule, s, Peek(m, s), t, s.errors);
      var noted := NoteUnexpected(m, rule, s, Peek(m, s), t);
      PopOwnScope(noted, s.errors);
      assert OwnSetOnTop(rule, Enter(m, rule, mode, s));
      RecoveryMoves(m, rule, s, r, Pop(noted, true));
    }
  }

  /** Behind its first token a body has moved. */
  lemma {:induction false} ErrsBehind(m: Setup, exec: Exec, rule: Rule, s: State, turns: nat)
    requires Transactional(m, exec) && Ready(m, s) && ErrsBehindToken(rule.body)
    requires WithoutEof(rule, m.src.eof) || Peek(m, s).token != m.src.eof
    ensures var o := RunBody(m, exec, rule, s, turns);
            o.Done? && o.result.Failure? && o.result.kind.FailureError? ==> s.cursor < o.state.cursor
  {
    match rule.body
    case Expect(_, _) =>
    case Nest(kind, open, close, inner) =>
      if Peek(m, s).token == open {
        TokenMoves(m, s);
        BracketErrs(m, exec, rule, kind, close, inner, Opened(m, s));
      }
    case Prefixed(prefix, inner) =>
      if Peek(m, s).token == prefix {
        TokenMoves(m, s);
        ChildOnward(m, exec, inner, Take(m, s));
      }
  }

  lemma {:induction false} ChildOnward(m: Setup, exec: Exec, rule: Rule, s: State)
    requires Transactional(m, exec) && Ready(m, s)
    ensures Goes(m, s, false, exec(rule, Normal, s))
  {
    assert RunsOk(m, exec, rule, Normal, s);
  }

  lemma {:induction false} BracketErrs(m: Setup, exec: Exec, owner: Rule, kind: Option<Kind>, close: Token, inner: Rule, s: State)
    requires Transactional(m, exec) && Ready(m, s)
    ensures var c := RunCommitted(m, exec, inner, s);
            c.Done? ==> s.cursor <= CloseNest(m, owner, kind, close, c.result, c.state).state.cursor
  {
    ChildOnward(m, exec, inner, s);
    var c := RunCommitted(m, exec, inner, s);
    if c.Done? {
      CloseGoes(m, owner, kind, close, c.result, c.state);
    }
  }

  /** What a failed body leaves for the envelope to handle. */
  lemma {:induction false} FailedBody(m: Setup, exec: Exec, rule: Rule, mode: Mode, s: State, turns: nat, c: Outcome)
    requires Transactional(m, exec) && Ready(m, s) && !MayRecoverInPlace(rule)
    requires WithoutEof(rule, m.src.eof) || Peek(m, s).token != m.src.eof
    requires c == RunBody(m, exec, rule, Enter(m, rule, mode, s), turns) && c.Done? && c.result.Failure?
    ensures var (r, u) := HandleFailure(m, rule, mode, s, Peek(m, s), c.result, Truncated(c.state, |s.created|));
            r.Success? ==> s.cursor < u.cursor
  {
    var e := Enter(m, rule, mode, s);
    EnterInScope(m, rule, mode, s);
    BodyMoves(m, exec, rule, e, turns);
    BodyInside(m, rule, mode, s, c.state);
    if ErrsBehindToken(rule.body) {
      assert Peek(m, e) == Peek(m, s);
      ErrsBehind(m, exec, rule, e, turns);
    }
    FailureMoves(m, rule, mode, s, c.result, Truncated(c.state, |s.created|));
  }

  lemma {:induction false} SuccessGoes(m: Setup, empty: set<Label>, exec: Exec, rule: Rule, mode: Mode, s: State, turns: nat, o: Outcome)
    requires HoldsTheEmpty(m, empty) && RegistryWithoutEof(m.registry, m.src.eof)
    requires Going(m, empty, exec, s) && WithoutEof(rule, m.src.eof) && o == RunEnvelope(m, exec, rule, mode, s, turns)
    ensures o.Done? && o.result.Success? && !MayBeEmpty(empty, rule) ==> s.cursor < o.state.cursor
  {
    var e := Enter(m, rule, mode, s);
    BodyGoes(m, empty, exec, rule, e, turns);
    var c := RunBody(m, exec, rule, e, turns);
    if c.Done? && c.result.Failure? && !MayBeEmpty(empty, rule) {
      FailedBody(m, exec, rule, mode, s, turns, c);
    }
  }

  lemma EngineOnward(m: Setup, rule: Rule, mode: Mode, s: State, fuel: nat)
    requires Ready(m, s)
    ensures Goes(m, s, false, EngineAt(m, fuel)(rule, mode, s))
  {
    EngineTransactional(m, fuel);
    assert RunsOk(m, EngineAt(m, fuel), rule, mode, s);
  }

  /** An envelope around a consuming executor consumes. */
  lemma {:induction false} EnvelopeGoes(m: Setup, empty: set<Label>, exec: Exec, rule: Rule, mode: Mode, s: State, turns: nat)
    requires HoldsTheEmpty(m, empty) && RegistryWithoutEof(m.registry, m.src.eof)
    requires Going(m, empty, exec, s) && WithoutEof(rule, m.src.eof)
    ensures Goes(m, s, !MayBeEmpty(empty, rule), RunEnvelope(m, exec, rule, mode, s, turns))
  {
    EnvelopeTransaction(m, exec, rule, mode, s, turns);
    SuccessGoes(m, empty, exec, rule, mode, s, turns, RunEnvelope(m, exec, rule, mode, s, turns));
  }

  lemma {:induction false} ConsumingIsKept(m: Setup, empty: set<Label>, exec: Exec, p: (Rule, Mode, State, Outcome) -> bool)
    requires HoldsTheEmpty(m, empty) && RegistryWithoutEof(m.registry, m.src.eof)
    requires forall rule, mode, s, o ::
               p(rule, mode, s, o) <==> (Ready(m, s) && WithoutEof(rule, m.src.eof) ==> Goes(m, s, !MayBeEmpty(empty, rule), o))
    ensures EnvelopeKeeps(m, exec, p)
  {
    if Transactional(m, exec) && AllRuns(exec, p) {
      forall rule, mode, s ensures RunsConsume(m, empty, exec, rule, mode, s) {
        assert p(rule, mode, s, exec(rule, mode, s));
      }
      forall rule, mode, s, turns ensures p(rule, mode, s, RunEnvelope(m, exec, rule, mode, s, turns)) {
        if Ready(m, s) && WithoutEof(rule, m.src.eof) {
          EnvelopeGoes(m, empty, exec, rule, mode, s, turns);
        }
      }
    }
  }

  /** A rule that cannot succeed on the spot moves the cursor whenever it succeeds, and no rule moves it back. */
  lemma {:induction false} EngineConsumes(m: Setup, empty: set<Label>, fuel: nat)
    requires HoldsTheEmpty(m, empty) && RegistryWithoutEof(m.registry, m.src.eof)
    ensures ConsumingExec(m, empty, EngineAt(m, fuel))
  {
    var p := (r: Rule, md: Mode, st: State, o: Outcome) =>
      Ready(m, st) && WithoutEof(r, m.src.eof) ==> Goes(m, st, !MayBeEmpty(empty, r), o);
    forall exec {
      ConsumingIsKept(m, empty, exec, p);
    }
    forall rule, mode, s ensures p(rule, mode, s, OutOfFuel) {
      assert Goes(m, s, !MayBeEmpty(empty, rule), OutOfFuel);
    }
    EngineInduction(m, p, fuel);
    forall rule, mode, s ensures RunsConsume(m, empty, EngineAt(m, fuel), rule, mode, s) {
      assert p(rule, mode, s, EngineAt(m, fuel)(rule, mode, s));
    }
  }
}
