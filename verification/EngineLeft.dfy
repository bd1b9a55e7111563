/**
 A synchronisation token left for an ancestor. A rule that recovers onto a token it leaves in
 place fails and says so. Every rule that hands such a failure on leaves the cursor at that
 token and does not scan again, until a rule that reissues the failure as its own, a sequence, a
 wrap, a nest or a prefix rule, is handled with the token still ahead.
 */
module EngineLeft {
  import opened Languages
  import opened Grammars
  import opened Guards
  import opened Recovery
  import opened Rules
  import opened Engine
  import opened EngineTransaction
  import opened EngineLoops
  import ChoiceDispatch

  /** The failure of a rule that has recovered onto a token and left it. */
  const LEFT := Failure(FailureError, false)

  /** The run from s has moved on to a token and left it there, at position d. */
  ghost predicate LeavesAt(o: Outcome, s: State, d: nat) {
    o.Done? && o.result == LEFT && o.state.cursor == d != s.cursor
  }

  // ------------------------------------------------------------------- the envelope

  /** The rule a body belongs to does not recover once more: same failure, same place. */
  lemma {:induction false} EnvelopeHandsOn(m: Setup, exec: Exec, rule: Rule, s: State, turns: nat, d: nat)
    requires LeavesAt(RunBody(m, exec, rule, Enter(m, rule, Normal, s), turns), s, d)
    ensures LeavesAt(RunEnvelope(m, exec, rule, Normal, s, turns), s, d)
  {
  }

  // --------------------------------------------------------------- bodies that hand on

  /** The arms before the i-th decline one after the other, which leads from s to u. */
  ghost predicate ArmReached(exec: Exec, rules: seq<Rule>, s: State, i: nat, u: State)
    decreases i
  {
    i < |rules| &&
    if i == 0 then u == s
    else
      var o := exec(rules[0], Normal, s);
      o.Done? && o.result.Failure? && o.result.kind.FailureNoMatch? && ArmReached(exec, rules[1..], o.state, i - 1, u)
  }

  lemma {:induction false} ArmHandsOn(exec: Exec, rules: seq<Rule>, s: State, i: nat, u: State)
    requires ArmReached(exec, rules, s, i, u) && exec(rules[i], Normal, u).Done? && exec(rules[i], Normal, u).result == LEFT
    ensures RunArms(exec, rules, s) == exec(rules[i], Normal, u)
    decreases i
  {
    if i > 0 {
      ArmHandsOn(exec, rules[1..], exec(rules[0], Normal, s).state, i - 1, u);
    }
  }

  /** The parts before the i-th succeed one after the other. */
  ghost predicate PartReached(exec: Exec, rules: seq<Rule>, s: State, i: nat, u: State)
    decreases i
  {
    i < |rules| &&
    if i == 0 then u == s
    else
      var o := exec(rules[0], Normal, s);
      o.Done? && o.result.Success? && PartReached(exec, rules[1..], o.state, i - 1, u)
  }

  lemma {:induction false} PartHandsOn(m: Setup, exec: Exec, owner: Rule, kind: Kind, id: nat, rules: seq<Rule>, committed: bool,
                                       children: seq<Tree>, s: State, i: nat, u: State)
    requires PartReached(exec, rules, s, i, u) && exec(rules[i], Normal, u).Done? && exec(rules[i], Normal, u).result == LEFT
    ensures RunRoot(m, exec, owner, kind, id, rules, committed, children, s) == exec(rules[i], Normal, u)
    decreases i
  {
    if i > 0 {
      var o := exec(rules[0], Normal, s);
      PartHandsOn(m, exec, owner, kind, id, rules[1..], true, Attached(children, o.result), o.state, i - 1, u);
    }
  }

  /**
   A loop whose k-th round leaves a token for an ancestor fails there: neither does it go
   round again nor does it end well with what it has.
   */
  lemma {:induction false} LoopFailsThere(m: Setup, exec: Exec, inner: Rule, max: Option<nat>, retries: bool, count: nat, children: seq<Tree>,
                                          s: State, k: nat, turns: nat)
    requires After(m, exec, inner, retries, s, k).Some? && k < turns && (max.Some? ==> count + k < max.value)
    requires var o := exec(inner, Normal, After(m, exec, inner, retries, s, k).value); o.Done? && o.result == LEFT
    ensures var o := exec(inner, Normal, After(m, exec, inner, retries, s, k).value);
            RunLoop(m, exec, inner, max, retries, count, children, s, turns) == LoopFailed(LEFT, o.state)
    decreases k
  {
    if k > 0 {
      var o := exec(inner, Normal, s);
      var turn := NextTurn(m, retries, count, children, s, o.result, o.state);
      LoopFailsThere(m, exec, inner, max, retries, turn.count, turn.children, o.state, k - 1, turns - 1);
    }
  }

  /** The arms a choice tries in e. */
  function Tried(m: Setup, rules: seq<Rule>, e: State): seq<Rule> {
    match ChoiceDispatch.DispatchOf(m.analysis, Arms(rules), Ahead(m, e))
    case NoArm => []
    case Candidates(indices) => Selected(rules, indices)
    case Fallback => rules
  }

  /** The state in which a repetition starts its first round. */
  function LoopStart(kind: Option<Kind>, e: State): State {
    if kind.Some? then NewNode(e) else e
  }

  /** Run from e, the body comes to run inner in u, and a failure of inner is its own. */
  ghost predicate Reaches(m: Setup, exec: Exec, rule: Rule, e: State, turns: nat, inner: Rule, u: State)
    decreases turns
  {
    match rule.body
    case RecoverSync(r) => r == inner && u == e
    case Required(r) => r == inner && u == e
    case OptionalSuffix(_, r, _) => r == inner && u == e
    case Predict(when, r) => r == inner && u == e && Matches(Ahead(m, e), when)
    case OptionalWhen(start, r) => r == inner && u == e && Matches(Ahead(m, e), start)
    case Root(_, rules) => exists i: nat :: PartReached(exec, rules, NewNode(e), i, u) && rules[i] == inner
    case Choice(rules) => exists i: nat :: ArmReached(exec, Tried(m, rules, e), e, i, u) && Tried(m, rules, e)[i] == inner
    case Repetition(kind, _, r) =>
      r == inner && exists k: nat :: k < turns && After(m, exec, r, true, LoopStart(kind, e), k) == Some(u)
    case BoundedRepetition(kind, _, max, r) =>
      r == inner && exists k: nat ::
        k < turns && (max.Some? ==> k < max.value) && After(m, exec, r, false, LoopStart(kind, e), k) == Some(u)
    case Reference(target) =>
      target in m.registry && turns > 0 && Reaches(m, exec, m.registry[target], WithRecovery(m.registry[target], e), turns - 1, inner, u)
    case _ => false
  }

  lemma {:induction false} BodyHandsOn(m: Setup, exec: Exec, rule: Rule, e: State, turns: nat, inner: Rule, u: State)
    requires Reaches(m, exec, rule, e, turns, inner, u) && exec(inner, Normal, u).Done? && exec(inner, Normal, u).result == LEFT
    ensures var o := RunBody(m, exec, rule, e, turns);
            o.Done? && o.result == LEFT && o.state.cursor == exec(inner, Normal, u).state.cursor
    decreases turns
  {
    match rule.body
    case Root(kind, rules) =>
      var i: nat :| PartReached(exec, rules, NewNode(e), i, u) && rules[i] == inner;
      PartHandsOn(m, exec, rule, kind, e.nextID + 1, rules, false, [], NewNode(e), i, u);
    case Choice(rules) =>
      var i: nat :| ArmReached(exec, Tried(m, rules, e), e, i, u) && Tried(m, rules, e)[i] == inner;
      ArmHandsOn(exec, Tried(m, rules, e), e, i, u);
    case Repetition(kind, _, r) =>
      var k: nat :| k < turns && After(m, exec, r, true, LoopStart(kind, e), k) == Some(u);
      LoopFailsThere(m, exec, r, None, true, 0, [], LoopStart(kind, e), k, turns);
    case BoundedRepetition(kind, _, max, r) =>
      var k: nat :| k < turns && (max.Some? ==> k < max.value) && After(m, exec, r, false, LoopStart(kind, e), k) == Some(u);
      LoopFailsThere(m, exec, r, max, false, 0, [], LoopStart(kind, e), k, turns);
    case Reference(target) =>
      BodyHandsOn(m, exec, m.registry[target], WithRecovery(m.registry[target], e), turns - 1, inner, u);
    case _ =>
  }

  // ------------------------------------------------------------------- chains of rules

  lemma {:induction false} ArmForward(m: Setup, exec: Exec, rules: seq<Rule>, s: State, i: nat, u: State)
    requires Transactional(m, exec) && Ready(m, s) && ArmReached(exec, rules, s, i, u)
    ensures Ready(m, u) && s.cursor <= u.cursor
    decreases i
  {
    if i > 0 {
      assert RunsOk(m, exec, rules[0], Normal, s);
      ArmForward(m, exec, rules[1..], exec(rules[0], Normal, s).state, i - 1, u);
    }
  }

  lemma {:induction false} PartForward(m: Setup, exec: Exec, rules: seq<Rule>, s: State, i: nat, u: State)
    requires Transactional(m, exec) && Ready(m, s) && PartReached(exec, rules, s, i, u)
    ensures Ready(m, u) && s.cursor <= u.cursor && u.recovery == s.recovery
    decreases i
  {
    if i > 0 {
      assert RunsOk(m, exec, rules[0], Normal, s);
      PartForward(m, exec, rules[1..], exec(rules[0], Normal, s).state, i - 1, u);
    }
  }

  lemma {:induction false} ReachesForward(m: Setup, exec: Exec, rule: Rule, e: State, turns: nat, inner: Rule, u: State)
    requires Transactional(m, exec) && Ready(m, e) && Reaches(m, exec, rule, e, turns, inner, u)
    ensures Ready(m, u) && e.cursor <= u.cursor
    decreases turns
  {
    match rule.body
    case Root(kind, rules) =>
      var i: nat :| PartReached(exec, rules, NewNode(e), i, u) && rules[i] == inner;
      PartForward(m, exec, rules, NewNode(e), i, u);
    case Choice(rules) =>
      var i: nat :| ArmReached(exec, Tried(m, rules, e), e, i, u) && Tried(m, rules, e)[i] == inner;
      ArmForward(m, exec, Tried(m, rules, e), e, i, u);
    case Repetition(kind, _, r) =>
      var k: nat :| k < turns && After(m, exec, r, true, LoopStart(kind, e), k) == Some(u);
      AfterReady(m, exec, r, true, LoopStart(kind, e), k);
    case BoundedRepetition(kind, _, max, r) =>
      var k: nat :| k < turns && (max.Some? ==> k < max.value) && After(m, exec, r, false, LoopStart(kind, e), k) == Some(u);
      AfterReady(m, exec, r, false, LoopStart(kind, e), k);
    case Reference(target) =>
      ReachesForward(m, exec, m.registry[target], WithRecovery(m.registry[target], e), turns - 1, inner, u);
    case _ =>
  }

  /** Engines by their fuel. */
  type Engines = nat -> Exec

  ghost predicate StepIs(m: Setup, e: Engines, fuel: nat, rule: Rule, s: State) {
    e(fuel + 1)(rule, Normal, s) == RunEnvelope(m, e(fuel), rule, Normal, s, fuel)
  }

  /** Each engine is an envelope around the one with less fuel. */
  ghost predicate EngineSteps(m: Setup, e: Engines) {
    (forall fuel :: Transactional(m, e(fuel))) && forall fuel, rule, s :: StepIs(m, e, fuel, rule, s)
  }

  lemma {:induction false} TheEngineSteps(m: Setup, e: Engines)
    requires forall fuel :: e(fuel) == EngineAt(m, fuel)
    ensures EngineSteps(m, e)
  {
    forall fuel: nat ensures Transactional(m, e(fuel)) {
      EngineTransactional(m, fuel);
    }
    forall fuel: nat, rule, s ensures StepIs(m, e, fuel, rule, s) {
      EngineUnfolds(m, rule, Normal, s, fuel + 1);
      assert e(fuel + 1) == EngineAt(m, fuel + 1) && e(fuel) == EngineAt(m, fuel);
    }
  }

  /** Rule i is run in the body of rule i - 1, which hands its failure on. */
  ghost predicate Link(m: Setup, e: Engines, rules: seq<Rule>, states: seq<State>, fuel: nat, i: nat)
    requires |rules| == |states| && 0 < i < |rules| <= fuel
  {
    Reaches(m, e(fuel - i), rules[i - 1], Enter(m, rules[i - 1], Normal, states[i - 1]), fuel - i, rules[i], states[i])
  }

  /** Rules run one inside the other; the outermost has the most fuel. */
  ghost predicate Chain(m: Setup, e: Engines, rules: seq<Rule>, states: seq<State>, fuel: nat) {
    && |rules| == |states| && 0 < |rules| <= fuel
    && forall i :: 0 < i < |rules| ==> Link(m, e, rules, states, fuel, i)
  }

  /** The innermost rule of a chain leaves a token at position d. */
  ghost predicate ChainLeaves(e: Engines, rules: seq<Rule>, states: seq<State>, fuel: nat, d: nat)
    requires |rules| == |states| && 0 < |rules| <= fuel
  {
    var n := |rules| - 1;
    LeavesAt(e(fuel - n)(rules[n], Normal, states[n]), states[n], d)
  }

  lemma {:induction false} RuleHandsOn(m: Setup, exec: Exec, rule: Rule, s: State, turns: nat, inner: Rule, u: State, d: nat)
    requires Transactional(m, exec) && Ready(m, s) && Reaches(m, exec, rule, Enter(m, rule, Normal, s), turns, inner, u)
    requires LeavesAt(exec(inner, Normal, u), u, d)
    ensures LeavesAt(RunEnvelope(m, exec, rule, Normal, s, turns), s, d) && Ready(m, u)
  {
    var e := Enter(m, rule, Normal, s);
    ReachesForward(m, exec, rule, e, turns, inner, u);
    assert RunsOk(m, exec, inner, Normal, u);
    BodyHandsOn(m, exec, rule, e, turns, inner, u);
    EnvelopeHandsOn(m, exec, rule, s, turns, d);
  }

  lemma {:induction false} ChainReady(m: Setup, e: Engines, rules: seq<Rule>, states: seq<State>, fuel: nat, i: nat)
    requires EngineSteps(m, e) && Chain(m, e, rules, states, fuel) && Ready(m, states[0]) && i < |rules|
    ensures Ready(m, states[i])
    decreases i
  {
    if i > 0 {
      ChainReady(m, e, rules, states, fuel, i - 1);
      assert Link(m, e, rules, states, fuel, i) && Transactional(m, e(fuel - i));
      ReachesForward(m, e(fuel - i), rules[i - 1], Enter(m, rules[i - 1], Normal, states[i - 1]), fuel - i, rules[i], states[i]);
    }
  }

  lemma {:induction false} HandsOneOn(m: Setup, e: Engines, rule: Rule, s: State, fuel: nat, inner: Rule, u: State, d: nat)
    requires EngineSteps(m, e) && Ready(m, s) && Reaches(m, e(fuel), rule, Enter(m, rule, Normal, s), fuel, inner, u)
    requires LeavesAt(e(fuel)(inner, Normal, u), u, d)
    ensures LeavesAt(e(fuel + 1)(rule, Normal, s), s, d)
  {
    assert Transactional(m, e(fuel)) && StepIs(m, e, fuel, rule, s);
    RuleHandsOn(m, e(fuel), rule, s, fuel, inner, u, d);
  }

  /** What rule i leaves, rule i - 1 leaves. */
  lemma {:induction false} LinkHandsOn(m: Setup, e: Engines, rules: seq<Rule>, states: seq<State>, fuel: nat, d: nat, i: nat)
    requires EngineSteps(m, e) && Chain(m, e, rules, states, fuel) && Ready(m, states[0]) && 0 < i < |rules|
    requires LeavesAt(e(fuel - i)(rules[i], Normal, states[i]), states[i], d)
    ensures LeavesAt(e(fuel - (i - 1))(rules[i - 1], Normal, states[i - 1]), states[i - 1], d)
  {
    ChainReady(m, e, rules, states, fuel, i - 1);
    assert Link(m, e, rules, states, fuel, i);
    HandsOneOn(m, e, rules[i - 1], states[i - 1], fuel - i, rules[i], states[i], d);
  }

  /** A token the innermost rule of a chain leaves is where the outermost one ends, and it is still left. */
  lemma {:induction false} ChainHandsOn(m: Setup, e: Engines, rules: seq<Rule>, states: seq<State>, fuel: nat, d: nat)
    requires EngineSteps(m, e) && Chain(m, e, rules, states, fuel) && Ready(m, states[0]) && ChainLeaves(e, rules, states, fuel, d)
    ensures LeavesAt(e(fuel)(rules[0], Normal, states[0]), states[0], d)
  {
    var i := |rules| - 1;
    while i > 0
      invariant 0 <= i < |rules| && LeavesAt(e(fuel - i)(rules[i], Normal, states[i]), states[i], d)
    {
      LinkHandsOn(m, e, rules, states, fuel, d, i);
      i := i - 1;
    }
  }

  // ------------------------------------------------------ the rule that takes it over

  /** Run from e, the body comes to run inner in u, and reissues a failure of inner as its own. */
  ghost predicate Reissues(m: Setup, exec: Exec, rule: Rule, e: State, inner: Rule, u: State) {
    match rule.body
    case Sequence(_, rules) => exists i: nat :: PartReached(exec, rules, e, i, u) && rules[i] == inner
    case Wrap(_, r) => r == inner && u == e
    case Nest(_, open, _, r) => r == inner && Peek(m, e).token == open && u == Opened(m, e)
    case Prefixed(prefix, r) => r == inner && Peek(m, e).token == prefix && u == Take(m, e)
    case _ => false
  }

  lemma {:induction false} ElementTakenOver(m: Setup, exec: Exec, owner: Rule, kind: Option<Kind>, rules: seq<Rule>, marker: nat,
                                            children: seq<Tree>, s: State, i: nat, u: State)
    requires PartReached(exec, rules, s, i, u) && exec(rules[i], Normal, u).Done? && exec(rules[i], Normal, u).result == LEFT
    ensures RunSequence(m, exec, owner, kind, rules, marker, children, s) == Done(Error(), exec(rules[i], Normal, u).state)
    decreases i
  {
    if i > 0 {
      var o := exec(rules[0], Normal, s);
      ElementTakenOver(m, exec, owner, kind, rules[1..], marker, Attached(children, o.result), o.state, i - 1, u);
    }
  }

  lemma {:induction false} BodyTakesOver(m: Setup, exec: Exec, rule: Rule, e: State, turns: nat, inner: Rule, u: State, d: nat)
    requires Reissues(m, exec, rule, e, inner, u) && LeavesAt(exec(inner, Normal, u), u, d)
    ensures var o := RunBody(m, exec, rule, e, turns); o.Done? && o.result == Error() && o.state.cursor == d
  {
    match rule.body
    case Sequence(kind, rules) =>
      var i: nat :| PartReached(exec, rules, e, i, u) && rules[i] == inner;
      ElementTakenOver(m, exec, rule, kind, rules, Marker(m, e), [], e, i, u);
    case Wrap(kind, r) => ElementTakenOver(m, exec, rule, Some(kind), [r], Marker(m, e), [], e, 0, e);
    case _ =>
  }

  lemma {:induction false} LandsAtOnce(m: Setup, s: State)
    requires s.cursor < |m.src.lexemes| && m.src.lexemes[s.cursor].token != m.src.eof
    requires ActiveConsume(s.recovery, [m.src.eof], m.src.lexemes[s.cursor].token)
    ensures Landing(m, s) == Some(0)
  {
    assert m.src.lexemes[s.cursor..][0] == m.src.lexemes[s.cursor];
  }

  /** What recovery makes of a failure at position d, where a token in force stands. */
  lemma {:induction false} RecoversHere(m: Setup, rule: Rule, start: State, s: State, d: nat)
    requires s.cursor == d < |m.src.lexemes| && m.src.lexemes[d].token != m.src.eof
    requires ActiveConsume(s.recovery, [m.src.eof], m.src.lexemes[d].token)
    ensures var (r, t) := Recovered(m, rule, start, Error(), s);
            var token := m.src.lexemes[d].token;
            && t.cursor == (if LeftInPlace(s.recovery, token) then d else d + 1)
            && (r.Success? <==> rule.isBarrier && (token in rule.recoveryTokens || token in rule.noConsumeTokens))
  {
    LandsAtOnce(m, s);
    assert s.(cursor := Clamped(m, s) + 0) == s;
  }

  lemma {:induction false} FailureRecovers(m: Setup, rule: Rule, s: State, t: State, d: nat)
    requires Inside(m, rule, Normal, s, t) && OwnScope(s.errors, t.errors)
    requires t.cursor == d < |m.src.lexemes| && m.src.lexemes[d].token != m.src.eof
    requires ActiveConsume(t.recovery, [m.src.eof], m.src.lexemes[d].token)
    ensures var (r, u) := HandleFailure(m, rule, Normal, s, Peek(m, s), Error(), t);
            var token := m.src.lexemes[d].token;
            && u.cursor == (if LeftInPlace(t.recovery, token) then d else d + 1)
            && (r.Success? <==> rule.isBarrier && (token in rule.recoveryTokens || token in rule.noConsumeTokens))
  {
    NoteKeepsOwnScope(m, rule, s, Peek(m, s), t, s.errors);
    var noted := NoteUnexpected(m, rule, s, Peek(m, s), t);
    PopOwnScope(noted, s.errors);
    RecoversHere(m, rule, s, Pop(noted, true), d);
  }

  /**
   A rule that reissues a failure which left a token finds that token still ahead. If a consume
   set in force lists it, the rule lands right there: a barrier that owns the token succeeds, any
   other rule fails, and the token is taken unless its innermost owner leaves it.
   */
  lemma {:induction false} LeftTokenIsHandled(m: Setup, exec: Exec, rule: Rule, s: State, turns: nat, inner: Rule, u: State, d: nat)
    requires Transactional(m, exec) && Ready(m, s) && d < |m.src.lexemes| && m.src.lexemes[d].token != m.src.eof
    requires var e := Enter(m, rule, Normal, s);
             Reissues(m, exec, rule, e, inner, u) && LeavesAt(exec(inner, Normal, u), u, d) && ActiveConsume(e.recovery, [m.src.eof], m.src.lexemes[d].token)
    ensures var o, token := RunEnvelope(m, exec, rule, Normal, s, turns), m.src.lexemes[d].token;
            && o.Done?
            && o.state.cursor == (if LeftInPlace(Enter(m, rule, Normal, s).recovery, token) then d else d + 1)
            && (o.result.Success? <==> rule.isBarrier && (token in rule.recoveryTokens || token in rule.noConsumeTokens))
  {
    var e := Enter(m, rule, Normal, s);
    BodyTakesOver(m, exec, rule, e, turns, inner, u, d);
    EnterInScope(m, rule, Normal, s);
    BodyMoves(m, exec, rule, e, turns);
    var c := RunBody(m, exec, rule, e, turns);
    BodyInside(m, rule, Normal, s, c.state);
    FailureRecovers(m, rule, s, Truncated(c.state, |s.created|), d);
  }

  /** Inside a rule its own set decides about the tokens it lists. */
  lemma {:induction false} OwnSetDecides(m: Setup, rule: Rule, s: State, token: Token)
    requires token in rule.recoveryTokens && token !in rule.noConsumeTokens
    ensures var sets := Enter(m, rule, Normal, s).recovery; ActiveConsume(sets, [m.src.eof], token) && !LeftInPlace(sets, token)
  {
    var sets := Enter(m, rule, Normal, s).recovery;
    var top := |sets| - 1;
    assert sets[top] == RecoverySet(rule.recoveryTokens, rule.noConsumeTokens, rule.isBarrier);
    OwnerDecides(sets, token, top);
  }

  lemma {:induction false} BlockLands(m: Setup, exec: Exec, block: Rule, s: State, turns: nat, inner: Rule, u: State, d: nat)
    requires Transactional(m, exec) && Ready(m, s) && Reissues(m, exec, block, Enter(m, block, Normal, s), inner, u) && LeavesAt(exec(inner, Normal, u), u, d)
    requires d < |m.src.lexemes| && m.src.lexemes[d].token != m.src.eof
    requires block.isBarrier && m.src.lexemes[d].token in block.recoveryTokens && m.src.lexemes[d].token !in block.noConsumeTokens
    ensures var o := RunEnvelope(m, exec, block, Normal, s, turns); o.Done? && o.result.Success? && o.state.cursor == d + 1
  {
    OwnSetDecides(m, block, s, m.src.lexemes[d].token);
    LeftTokenIsHandled(m, exec, block, s, turns, inner, u, d);
  }

  /** So a block that lists the token, around a chain of rules that hand the failure on, recovers behind it. */
  lemma {:induction false} BlockTakesLeftToken(m: Setup, e: Engines, block: Rule, s: State, rules: seq<Rule>, states: seq<State>, fuel: nat, d: nat)
    requires EngineSteps(m, e) && fuel > 0 && Ready(m, s)
    requires Chain(m, e, rules, states, fuel - 1) && Ready(m, states[0]) && ChainLeaves(e, rules, states, fuel - 1, d)
    requires Reissues(m, e(fuel - 1), block, Enter(m, block, Normal, s), rules[0], states[0])
    requires d < |m.src.lexemes| && m.src.lexemes[d].token != m.src.eof
    requires block.isBarrier && m.src.lexemes[d].token in block.recoveryTokens && m.src.lexemes[d].token !in block.noConsumeTokens
    ensures var o := e(fuel)(block, Normal, s); o.Done? && o.result.Success? && o.state.cursor == d + 1
  {
    ChainHandsOn(m, e, rules, states, fuel - 1, d);
    BlockLands(m, e(fuel - 1), block, s, fuel - 1, rules[0], states[0], d);
    assert StepIs(m, e, fuel - 1, block, s);
  }
}
