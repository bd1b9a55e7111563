/**
 Synchronising inside a reference. Whatever the target's body runs, it runs with the recovery
 tokens registered for the target in force, so a failure in there is recovered at the first of
 them at the latest.
 */
module EngineSync {
  import opened Languages
  import opened Grammars
  import opened TokenStreams
  import opened Recovery
  import opened Rules
  import opened Engine
  import opened EngineTransaction
  import opened EngineLoops
  import opened EngineLeft

  /** Run from e, the body comes to run inner in u. */
  ghost predicate RunsIn(m: Setup, exec: Exec, rule: Rule, e: State, turns: nat, inner: Rule, u: State)
    decreases turns
  {
    || Reaches(m, exec, rule, e, turns, inner, u)
    || Reissues(m, exec, rule, e, inner, u)
    || (rule.body.Reference? && rule.body.target in m.registry && turns > 0 &&
        RunsIn(m, exec, m.registry[rule.body.target], WithRecovery(m.registry[rule.body.target], e), turns - 1, inner, u))
  }

  function SetOf(rule: Rule): RecoverySet {
    RecoverySet(rule.recoveryTokens, rule.noConsumeTokens, rule.isBarrier)
  }

  lemma {:induction false} AfterRecovery(m: Setup, exec: Exec, inner: Rule, retries: bool, s: State, k: nat)
    requires Transactional(m, exec) && Ready(m, s) && After(m, exec, inner, retries, s, k).Some?
    ensures After(m, exec, inner, retries, s, k).value.recovery == s.recovery
    decreases k
  {
    if k > 0 {
      RoundMoves(m, exec, inner, retries, s);
      assert RunsOk(m, exec, inner, Normal, s);
      AfterRecovery(m, exec, inner, retries, exec(inner, Normal, s).state, k - 1);
    }
  }

  lemma {:induction false} ArmRecovery(m: Setup, exec: Exec, rules: seq<Rule>, s: State, i: nat, u: State)
    requires Transactional(m, exec) && Ready(m, s) && ArmReached(exec, rules, s, i, u)
    ensures u.recovery == s.recovery
    decreases i
  {
    if i > 0 {
      assert RunsOk(m, exec, rules[0], Normal, s);
      ArmRecovery(m, exec, rules[1..], exec(rules[0], Normal, s).state, i - 1, u);
    }
  }

  /** The rules a body runs keep the sets that were in force. */
  lemma {:induction false} ReachedRecovery(m: Setup, exec: Exec, rule: Rule, e: State, turns: nat, inner: Rule, u: State)
    requires Transactional(m, exec) && Ready(m, e) && Reaches(m, exec, rule, e, turns, inner, u) && !rule.body.Reference?
    ensures u.recovery == e.recovery
  {
    match rule.body
    case Root(kind, rules) =>
      var i: nat :| PartReached(exec, rules, NewNode(e), i, u) && rules[i] == inner;
      PartForward(m, exec, rules, NewNode(e), i, u);
    case Choice(rules) =>
      var i: nat :| ArmReached(exec, Tried(m, rules, e), e, i, u) && Tried(m, rules, e)[i] == inner;
      ArmRecovery(m, exec, Tried(m, rules, e), e, i, u);
    case Repetition(kind, _, r) =>
      var k: nat :| k < turns && After(m, exec, r, true, LoopStart(kind, e), k) == Some(u);
      AfterRecovery(m, exec, r, true, LoopStart(kind, e), k);
    case BoundedRepetition(kind, _, max, r) =>
      var k: nat :| k < turns && (max.Some? ==> k < max.value) && After(m, exec, r, false, LoopStart(kind, e), k) == Some(u);
      AfterRecovery(m, exec, r, false, LoopStart(kind, e), k);
    case _ =>
  }

  lemma {:induction false} ReissuedRecovery(m: Setup, exec: Exec, rule: Rule, e: State, inner: Rule, u: State)
    requires Transactional(m, exec) && Ready(m, e) && Reissues(m, exec, rule, e, inner, u)
    ensures u.recovery == e.recovery
  {
    if rule.body.Sequence? {
      var i: nat :| PartReached(exec, rule.body.rules, e, i, u) && rule.body.rules[i] == inner;
      PartForward(m, exec, rule.body.rules, e, i, u);
    }
  }

  lemma {:induction false} ReferenceReaches(m: Setup, exec: Exec, rule: Rule, e: State, turns: nat, inner: Rule, u: State)
    requires rule.body.Reference? && RunsIn(m, exec, rule, e, turns, inner, u)
    ensures rule.body.target in m.registry && turns > 0
    ensures RunsIn(m, exec, m.registry[rule.body.target], WithRecovery(m.registry[rule.body.target], e), turns - 1, inner, u)
  {
  }

  lemma {:induction false} RunsInRecovery(m: Setup, exec: Exec, rule: Rule, e: State, turns: nat, inner: Rule, u: State)
    requires Transactional(m, exec) && Ready(m, e) && RunsIn(m, exec, rule, e, turns, inner, u)
    ensures e.recovery <= u.recovery
    decreases turns
  {
    if rule.body.Reference? {
      ReferenceReaches(m, exec, rule, e, turns, inner, u);
      RunsInRecovery(m, exec, m.registry[rule.body.target], WithRecovery(m.registry[rule.body.target], e), turns - 1, inner, u);
    } else if Reaches(m, exec, rule, e, turns, inner, u) {
      ReachedRecovery(m, exec, rule, e, turns, inner, u);
    } else {
      ReissuedRecovery(m, exec, rule, e, inner, u);
    }
  }

  /** Inside a reference the target's registered set is in force. */
  lemma {:induction false} RunsUnderTarget(m: Setup, exec: Exec, rule: Rule, e: State, turns: nat, inner: Rule, u: State)
    requires Transactional(m, exec) && Ready(m, e) && rule.body.Reference? && RunsIn(m, exec, rule, e, turns, inner, u)
    ensures rule.body.target in m.registry && SetOf(m.registry[rule.body.target]) in u.recovery
  {
    ReferenceReaches(m, exec, rule, e, turns, inner, u);
    var target := m.registry[rule.body.target];
    RunsInRecovery(m, exec, target, WithRecovery(target, e), turns - 1, inner, u);
    assert u.recovery[|e.recovery|] == SetOf(target);
  }

  // ---------------------------------------------------------------------- landings

  lemma {:induction false} LandsBy(rest: seq<Lexeme>, eof: Token, sync: Token -> bool, n: nat)
    requires n < |rest| && sync(rest[n].token) && forall k :: 0 <= k <= n ==> rest[k].token != eof
    ensures FirstLanding(rest, eof, sync).Some? && FirstLanding(rest, eof, sync).value <= n
    decreases n
  {
    if n > 0 && !sync(rest[0].token) {
      LandsBy(rest[1..], eof, sync, n - 1);
    }
  }

  /** A token of a consume set stands at position n, with no end of file up to it. */
  predicate Stands(m: Setup, from: nat, n: nat, tokens: seq<Token>) {
    from <= n < |m.src.lexemes| && m.src.lexemes[n].token in tokens &&
    forall k :: from <= k <= n ==> m.src.lexemes[k].token != m.src.eof
  }

  lemma {:induction false} LandsByThen(m: Setup, s: State, tokens: RecoverySet, n: nat)
    requires tokens in s.recovery && Stands(m, s.cursor, n, tokens.consume)
    ensures Landing(m, s).Some? && s.cursor + Landing(m, s).value <= n
  {
    var rest := m.src.lexemes[s.cursor..];
    var i :| 0 <= i < |s.recovery| && s.recovery[i] == tokens;
    assert rest[n - s.cursor] == m.src.lexemes[n];
    assert forall k :: 0 <= k <= n - s.cursor ==> rest[k] == m.src.lexemes[s.cursor + k];
    LandsBy(rest, m.src.eof, Sync(s.recovery, [m.src.eof], true), n - s.cursor);
  }

  lemma {:induction false} RecoversBy(m: Setup, rule: Rule, start: State, s: State, tokens: RecoverySet, n: nat)
    requires tokens in s.recovery && Stands(m, s.cursor, n, tokens.consume)
    ensures var (r, t) := Recovered(m, rule, start, Error(), s); s.cursor <= t.cursor <= n + 1
  {
    LandsByThen(m, s, tokens, n);
  }

  lemma {:induction false} FailureRecoversBy(m: Setup, rule: Rule, s: State, t: State, tokens: RecoverySet, n: nat)
    requires Inside(m, rule, Normal, s, t) && OwnScope(s.errors, t.errors) && tokens in s.recovery && Stands(m, t.cursor, n, tokens.consume)
    ensures var (r, u) := HandleFailure(m, rule, Normal, s, Peek(m, s), Error(), t); t.cursor <= u.cursor <= n + 1
  {
    NoteKeepsOwnScope(m, rule, s, Peek(m, s), t, s.errors);
    var noted := NoteUnexpected(m, rule, s, Peek(m, s), t);
    PopOwnScope(noted, s.errors);
    assert tokens in t.recovery;
    RecoversBy(m, rule, s, Pop(noted, true), tokens, n);
  }

  /** A rule that fails with an error synchronises at the first token of any set in force, at the latest. */
  lemma {:induction false} SynchronisesBy(m: Setup, exec: Exec, rule: Rule, s: State, turns: nat, tokens: RecoverySet, n: nat)
    requires Transactional(m, exec) && Ready(m, s) && tokens in s.recovery
    requires var c := RunBody(m, exec, rule, Enter(m, rule, Normal, s), turns); c.Done? && c.result == Error() && Stands(m, c.state.cursor, n, tokens.consume)
    ensures var c, o := RunBody(m, exec, rule, Enter(m, rule, Normal, s), turns), RunEnvelope(m, exec, rule, Normal, s, turns);
            o.Done? && c.state.cursor <= o.state.cursor <= n + 1
  {
    var e := Enter(m, rule, Normal, s);
    EnterInScope(m, rule, Normal, s);
    BodyMoves(m, exec, rule, e, turns);
    var c := RunBody(m, exec, rule, e, turns);
    BodyInside(m, rule, Normal, s, c.state);
    FailureRecoversBy(m, rule, s, Truncated(c.state, |s.created|), tokens, n);
  }

  /**
   A rule run inside a reference, when it fails with an error, lands at or before the first
   token that the target's registered recovery tokens hold.
   */
  lemma {:induction false} ReferenceSynchronises(m: Setup, exec: Exec, rule: Rule, e: State, turns: nat, inner: Rule, u: State,
                                                 innerTurns: nat, n: nat)
    requires Transactional(m, exec) && Ready(m, e) && Ready(m, u) && rule.body.Reference? && RunsIn(m, exec, rule, e, turns, inner, u)
    requires rule.body.target in m.registry
    requires var c := RunBody(m, exec, inner, Enter(m, inner, Normal, u), innerTurns);
             c.Done? && c.result == Error() && Stands(m, c.state.cursor, n, m.registry[rule.body.target].recoveryTokens)
    ensures var c, o := RunBody(m, exec, inner, Enter(m, inner, Normal, u), innerTurns), RunEnvelope(m, exec, inner, Normal, u, innerTurns);
            o.Done? && c.state.cursor <= o.state.cursor <= n + 1
  {
    RunsUnderTarget(m, exec, rule, e, turns, inner, u);
    SynchronisesBy(m, exec, inner, u, innerTurns, SetOf(m.registry[rule.body.target]), n);
  }
}
