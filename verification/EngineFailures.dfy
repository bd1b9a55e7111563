/**
 What a rule leaves behind when its body fails: where it stands, what it returns and which
 errors it hands to the rules around it, told from the recovery sets in force and from the
 errors it held itself; and what combinators make of the failure of a rule inside them.
 */
module EngineFailures {
  import opened Languages
  import opened Grammars
  import opened ErrorScopes
  import opened Recovery
  import opened Rules
  import opened Engine
  import opened EngineTransaction
  import opened EngineLeft
  import ErrorBuffer
  import EngineSoundness
  import ListRule

  // ------------------------------------------------------------------ where it stands

  predicate EndsAt(m: Setup, k: nat) {
    k >= |m.src.lexemes| || m.src.lexemes[k].token == m.src.eof
  }

  /** Between c and n the input goes on and no consume set in force lists a token. */
  ghost predicate Discarded(m: Setup, sets: seq<RecoverySet>, c: nat, n: nat) {
    c <= n && forall k :: c <= k < n ==> !EndsAt(m, k) && !ActiveConsume(sets, [m.src.eof], m.src.lexemes[k].token)
  }

  /** Position n holds the first token from c on that some consume set in force lists. */
  ghost predicate FirstSync(m: Setup, sets: seq<RecoverySet>, c: nat, n: nat) {
    Discarded(m, sets, c, n) && !EndsAt(m, n) && ActiveConsume(sets, [m.src.eof], m.src.lexemes[n].token)
  }

  /** From c on the input ends at n, before any such token. */
  ghost predicate NoSync(m: Setup, sets: seq<RecoverySet>, c: nat, n: nat) {
    Discarded(m, sets, c, n) && n <= |m.src.lexemes| && EndsAt(m, n)
  }

  /** One or the other there always is. */
  lemma {:induction false} SyncOrEnd(m: Setup, sets: seq<RecoverySet>, c: nat) returns (n: nat)
    requires c <= |m.src.lexemes|
    ensures FirstSync(m, sets, c, n) || NoSync(m, sets, c, n)
    decreases |m.src.lexemes| - c
  {
    if EndsAt(m, c) || ActiveConsume(sets, [m.src.eof], m.src.lexemes[c].token) {
      n := c;
    } else {
      n := SyncOrEnd(m, sets, c + 1);
    }
  }

  lemma {:induction false} SyncIsLanding(m: Setup, s: State, n: nat)
    requires Ready(m, s)
    ensures FirstSync(m, s.recovery, s.cursor, n) ==> Landing(m, s) == Some(n - s.cursor)
    ensures NoSync(m, s.recovery, s.cursor, n) ==> Landing(m, s) == None
  {
    var rest, sync := m.src.lexemes[s.cursor..], Sync(s.recovery, [m.src.eof], true);
    assert forall k :: 0 <= k < |rest| ==> rest[k] == m.src.lexemes[s.cursor + k];
    if FirstSync(m, s.recovery, s.cursor, n) {
      assert LandsAt(rest, m.src.eof, sync, n - s.cursor);
      LandingIs(rest, m.src.eof, sync, n - s.cursor);
    }
    if NoSync(m, s.recovery, s.cursor, n) {
      assert RunsOutAt(rest, m.src.eof, sync, n - s.cursor);
      LandingIs(rest, m.src.eof, sync, n - s.cursor);
    }
  }

  /** The rule has landed on position n: the token is taken unless its innermost owner leaves it, and a barrier that owns it succeeds with an error node. */
  ghost predicate LandsHere(m: Setup, rule: Rule, sets: seq<RecoverySet>, n: nat, r: Result, t: State)
    requires n < |m.src.lexemes|
  {
    var token := m.src.lexemes[n].token;
    var leaves := LeftInPlace(sets, token);
    && t.cursor == (if leaves then n else n + 1)
    && r == if rule.isBarrier && (token in rule.recoveryTokens || token in rule.noConsumeTokens)
            then Success(Some(Tree(t.nextID, m.errorKind, [], [])), false) else Failure(FailureError, !leaves)
  }

  /** The body of a rule in normal mode has failed with an error that the rule has to handle itself. */
  ghost predicate ToHandle(c: Outcome, s: State) {
    c.Done? && c.result.Failure? && c.result.kind.FailureError? && (c.result.consumeSyncToken || c.state.cursor == s.cursor)
  }

  lemma {:induction false} RecoveredExactly(m: Setup, rule: Rule, start: State, r: Result, s: State, n: nat)
    requires Ready(m, s) && r.Failure?
    ensures var (r', t) := Recovered(m, rule, start, r, s);
            && (FirstSync(m, s.recovery, s.cursor, n) ==> LandsHere(m, rule, s.recovery, n, r', t))
            && (NoSync(m, s.recovery, s.cursor, n) ==> r' == r && t.cursor == start.cursor)
  {
    SyncIsLanding(m, s, n);
  }

  lemma {:induction false} HandledExactly(m: Setup, rule: Rule, s: State, r: Result, t: State, n: nat)
    requires Inside(m, rule, Normal, s, t) && OwnScope(s.errors, t.errors) && r.Failure? && r.kind.FailureError?
    requires r.consumeSyncToken || t.cursor == s.cursor
    ensures var (r', u) := HandleFailure(m, rule, Normal, s, Peek(m, s), r, t);
            && (FirstSync(m, t.recovery, t.cursor, n) ==> LandsHere(m, rule, t.recovery, n, r', u))
            && (NoSync(m, t.recovery, t.cursor, n) ==> r' == r && u.cursor == s.cursor)
  {
    NoteKeepsOwnScope(m, rule, s, Peek(m, s), t, s.errors);
    var noted := NoteUnexpected(m, rule, s, Peek(m, s), t);
    PopOwnScope(noted, s.errors);
    RecoveredExactly(m, rule, s, r, Pop(noted, true), n);
  }

  lemma {:induction false} RecoversAt(m: Setup, exec: Exec, rule: Rule, s: State, turns: nat, n: nat)
    requires Transactional(m, exec) && Ready(m, s) && ToHandle(RunBody(m, exec, rule, Enter(m, rule, Normal, s), turns), s)
    ensures var c, o, sets := RunBody(m, exec, rule, Enter(m, rule, Normal, s), turns), RunEnvelope(m, exec, rule, Normal, s, turns),
                              Enter(m, rule, Normal, s).recovery;
            && o.Done?
            && (FirstSync(m, sets, c.state.cursor, n) ==> LandsHere(m, rule, sets, n, o.result, o.state))
            && (NoSync(m, sets, c.state.cursor, n) ==> o.result == c.result && o.state.cursor == s.cursor)
  {
    var e := Enter(m, rule, Normal, s);
    EnterInScope(m, rule, Normal, s);
    BodyMoves(m, exec, rule, e, turns);
    var c := RunBody(m, exec, rule, e, turns);
    BodyInside(m, rule, Normal, s, c.state);
    HandledExactly(m, rule, s, c.result, Truncated(c.state, |s.created|), n);
  }

  /**
   Recovery, exactly. A rule whose body failed with an error scans on from there: at the first
   token a consume set in force lists it stops; if the input ends first, it goes back to where it
   started and hands the failure on.
   */
  lemma {:induction false} RecoversExactly(m: Setup, exec: Exec, rule: Rule, s: State, turns: nat) returns (n: nat)
    requires Transactional(m, exec) && Ready(m, s) && ToHandle(RunBody(m, exec, rule, Enter(m, rule, Normal, s), turns), s)
    ensures var c, o, sets := RunBody(m, exec, rule, Enter(m, rule, Normal, s), turns), RunEnvelope(m, exec, rule, Normal, s, turns),
                              Enter(m, rule, Normal, s).recovery;
            && o.Done?
            && if EndsAt(m, n) then NoSync(m, sets, c.state.cursor, n) && o.result == c.result && o.state.cursor == s.cursor
               else FirstSync(m, sets, c.state.cursor, n) && LandsHere(m, rule, sets, n, o.result, o.state)
  {
    var e := Enter(m, rule, Normal, s);
    EnterInScope(m, rule, Normal, s);
    BodyMoves(m, exec, rule, e, turns);
    n := SyncOrEnd(m, e.recovery, RunBody(m, exec, rule, e, turns).state.cursor);
    RecoversAt(m, exec, rule, s, turns, n);
  }

  // ----------------------------------------------------------------- what it reports

  /**
   The rule reports the token itself: it is not the entry rule, does not synchronise on the token
   it started at, and holds nothing, or its best error lies at an offset equal to the index of the
   lexeme it started at.
   */
  predicate Speaks(m: Setup, rule: Rule, s: State, best: Option<SyntaxError>, errs: seq<SyntaxError>) {
    && rule.grammarLabel != m.program && !OwnRecovery(Enter(m, rule, Normal, s).recovery, [m.src.eof], Peek(m, s).token)
    && if best.None? then errs == [] else best.value.position == s.cursor
  }

  /** A scope on top closes by handing on what it committed and then its best. */
  lemma OwnScopePops(n: Nested, t: State, best: Option<SyntaxError>, errs: seq<SyntaxError>)
    requires t.errors == n.(entries := n.entries + [Scope(best, errs)])
    ensures Pop(t, true) == t.(errors := Publish(n, errs + AsList(best)))
  {
    LastOf(n.entries, Scope(best, errs));
    assert n.errors + errs + AsList(best) == n.errors + (errs + AsList(best));
  }

  lemma {:induction false} NotedExactly(m: Setup, rule: Rule, s: State, t: State, best: Option<SyntaxError>, errs: seq<SyntaxError>)
    requires t.errors == s.errors.(entries := s.errors.entries + [Scope(best, errs)]) && t.recovery == Enter(m, rule, Normal, s).recovery
    ensures var found := if t.cursor != s.cursor then Peek(m, t) else Peek(m, s);
            var says := if Speaks(m, rule, s, best, errs) then Some(SyntaxError(false, found.start, rule.grammarLabel)) else best;
            NoteUnexpected(m, rule, s, Peek(m, s), t) == t.(errors := s.errors.(entries := s.errors.entries + [Scope(says, errs)]))
  {
    var es := s.errors.entries;
    LastOf(es, Scope(best, errs));
    SinceOwn(es, best, errs);
    var found := if t.cursor != s.cursor then Peek(m, t) else Peek(m, s);
    Appended(es, Scope(best, errs), Some(SyntaxError(false, found.start, rule.grammarLabel)));
  }

  /** What was committed since the innermost scope was opened, when that scope is the last entry. */
  lemma {:induction false} SinceOwn(es: seq<Entry>, best: Option<SyntaxError>, errs: seq<SyntaxError>)
    ensures ErrorBuffer.SinceScope(es + [Scope(best, errs)]) == errs
  {
    LastOf(es, Scope(best, errs));
  }

  lemma {:induction false} HandledErrors(m: Setup, rule: Rule, s: State, r: Result, t: State, best: Option<SyntaxError>, errs: seq<SyntaxError>)
    requires r.Failure? && r.kind.FailureError? && t.recovery == Enter(m, rule, Normal, s).recovery
    requires r.consumeSyncToken || t.cursor == s.cursor
    requires t.errors == s.errors.(entries := s.errors.entries + [Scope(best, errs)])
    ensures var found := if t.cursor != s.cursor then Peek(m, t) else Peek(m, s);
            var says := if Speaks(m, rule, s, best, errs) then Some(SyntaxError(false, found.start, rule.grammarLabel)) else best;
            HandleFailure(m, rule, Normal, s, Peek(m, s), r, t).1.errors == Publish(s.errors, errs + AsList(says))
  {
    var found := if t.cursor != s.cursor then Peek(m, t) else Peek(m, s);
    var says := if Speaks(m, rule, s, best, errs) then Some(SyntaxError(false, found.start, rule.grammarLabel)) else best;
    NotedExactly(m, rule, s, t, best, errs);
    OwnScopePops(s.errors, NoteUnexpected(m, rule, s, Peek(m, s), t), says, errs);
  }

  /**
   The errors of a failed body that the rule has to handle, best last, go to the scope around it;
   the rule replaces the best by a report of its own exactly when it speaks.
   */
  lemma {:induction false} ReportsExactly(m: Setup, exec: Exec, rule: Rule, s: State, turns: nat, best: Option<SyntaxError>, errs: seq<SyntaxError>)
    requires Transactional(m, exec) && Ready(m, s) && ToHandle(RunBody(m, exec, rule, Enter(m, rule, Normal, s), turns), s)
    requires RunBody(m, exec, rule, Enter(m, rule, Normal, s), turns).state.errors == s.errors.(entries := s.errors.entries + [Scope(best, errs)])
    ensures var c, o := RunBody(m, exec, rule, Enter(m, rule, Normal, s), turns), RunEnvelope(m, exec, rule, Normal, s, turns);
            var found := if c.state.cursor != s.cursor then Peek(m, c.state) else Peek(m, s);
            var says := if Speaks(m, rule, s, best, errs) then Some(SyntaxError(false, found.start, rule.grammarLabel)) else best;
            o.Done? && o.state.errors == Publish(s.errors, errs + AsList(says))
  {
    var e := Enter(m, rule, Normal, s);
    EnterInScope(m, rule, Normal, s);
    BodyMoves(m, exec, rule, e, turns);
    var c := RunBody(m, exec, rule, e, turns);
    BodyInside(m, rule, Normal, s, c.state);
    HandledErrors(m, rule, s, c.result, Truncated(c.state, |s.created|), best, errs);
  }

  // ------------------------------------------------------------------------ contracts

  /** The contract on record for a rule: the target's when the published node is a reference to a known production. */
  function Held(m: Setup, rule: Rule): Contract {
    var g := GrammarOf(rule);
    if g.GReference? && g.target in m.registry then m.registry[g.target].contract else rule.contract
  }

  /**
   A body that succeeds makes the rule panic exactly when it breaks the contract: no input taken
   although something had to be, short of the end of file, or no node although one was owed.
   */
  lemma {:induction false} ContractEnforced(m: Setup, exec: Exec, rule: Rule, mode: Mode, s: State, turns: nat)
    requires var c := RunBody(m, exec, rule, Enter(m, rule, mode, s), turns); c.Done? && c.result.Success?
    ensures var c := RunBody(m, exec, rule, Enter(m, rule, mode, s), turns);
            RunEnvelope(m, exec, rule, mode, s, turns) == Panicked <==>
              || (c.state.cursor == s.cursor && Held(m, rule).mustConsume && Peek(m, s).token != m.src.eof)
              || (c.result.node.None? && Held(m, rule).mustReturnNode)
  {
    var g := GrammarOf(rule);
    if g.GReference? {
      ReferenceOfIs(rule, g.target);
    } else if ReferenceOf(rule).Some? {
      ReferenceOfIs(rule, ReferenceOf(rule).value);
    }
  }

  // ------------------------------------------------------------ failures in combinators

  /** Behind an opening or prefix token a rule that declines makes the whole rule decline, and one that errs makes it err. */
  lemma {:induction false} BracketFails(m: Setup, exec: Exec, rule: Rule, s: State, turns: nat)
    requires Transactional(m, exec) && Ready(m, s) && (rule.body.Nest? || rule.body.Prefixed?)
    requires Peek(m, s).token == if rule.body.Nest? then rule.body.open else rule.body.prefix
    requires var c := exec(rule.body.inner, Normal, if rule.body.Nest? then Opened(m, s) else Take(m, s)); c.Done? && c.result.Failure?
    ensures var c, o := exec(rule.body.inner, Normal, if rule.body.Nest? then Opened(m, s) else Take(m, s)), RunBody(m, exec, rule, s, turns);
            o.Done? && o.result == Failure(c.result.kind, true) && o.state.cursor == c.state.cursor
  {
    assert RunsOk(m, exec, rule.body.inner, Normal, if rule.body.Nest? then Opened(m, s) else Take(m, s));
  }

  /** Something at or behind the given offset has been committed, or is held as the best of an open scope. */
  ghost predicate Explained(errs: seq<SyntaxError>, entries: seq<Entry>, start: nat) {
    || (exists err :: err in errs && err.position >= start)
    || (exists i :: 0 <= i < |entries| && entries[i].Scope? && entries[i].best.Some? && entries[i].best.value.position >= start)
  }

  /** What the inner rule of a nest commits falls into a region that starts at the opening token, which decides what explains a missing end. */
  lemma {:induction false} RegionOfNest(m: Setup, exec: Exec, inner: Rule, s: State) returns (errs: seq<SyntaxError>, reports: seq<SyntaxError>)
    requires Transactional(m, exec) && Ready(m, s) && HasScope(s.errors.entries) && exec(inner, Normal, Opened(m, s)).Done?
    ensures var t := exec(inner, Normal, Opened(m, s)).state;
            && t.errors == Effect(PushRegion(s.errors, Peek(m, s).start), errs, reports)
            && (ErrorBuffer.ErrorInsideRegion(t.errors.entries) <==> Explained(errs, t.errors.entries, Peek(m, s).start))
  {
    InnerInRegion(m, exec, inner, s);
    var t := exec(inner, Normal, Opened(m, s)).state;
    assert RunCommitted(m, exec, inner, Opened(m, s)).state == t;
    errs, reports :| t.errors == Effect(PushRegion(s.errors, Peek(m, s).start), errs, reports);
    ErrorBuffer.RegionQuery(s.errors, Peek(m, s).start, errs, reports);
  }

  /**
   Without its closing token a nest errs where its inner rule ended. It reports the token there
   unless the inner rule has committed an error at or behind the opening token, or an open scope
   holds one there.
   */
  lemma {:induction false} CloseIsMissing(m: Setup, exec: Exec, owner: Rule, kind: Option<Kind>, open: Token, close: Token, inner: Rule, s: State)
    returns (errs: seq<SyntaxError>, reports: seq<SyntaxError>)
    requires Transactional(m, exec) && Ready(m, s) && HasScope(s.errors.entries)
    requires Peek(m, s).token == open && exec(inner, Normal, Opened(m, s)).Done? && exec(inner, Normal, Opened(m, s)).result.Success?
    requires Peek(m, exec(inner, Normal, Opened(m, s)).state).token != close
    ensures var t, start := exec(inner, Normal, Opened(m, s)).state, Peek(m, s).start;
            && t.errors == Effect(PushRegion(s.errors, start), errs, reports)
            && RunNest(m, exec, owner, kind, open, close, inner, s) ==
               Done(Error(), PopRegionOf(if Explained(errs, t.errors.entries, start) then t else ReportPosition(t, owner, Peek(m, t).start)))
  {
    errs, reports := RegionOfNest(m, exec, inner, s);
  }

  /** A list that is rejected is reported at the lexeme its automaton stopped at. */
  lemma {:induction false} ListReports(m: Setup, rule: Rule, s: State)
    requires Ready(m, s) && rule.body.ListOf? && WithoutEof(rule, m.src.eof)
    ensures var o := RunListOf(m, rule, rule.body.spec, rule.body.listKind, rule.body.elementKind, s);
            o.Done? && (o.result.Failure? ==> o.result == Error() && o.state.errors == Report(s.errors, SyntaxError(false, Peek(m, o.state).start, rule.grammarLabel)))
  {
    var run := ListRule.RunList(m.src, s.cursor, rule.body.spec);
    if run.Rejected? {
      var u := ListRule.ListGetsStuck(m.src, s.cursor, rule.body.spec);
      EngineSoundness.NewNodesKeep(s.(cursor := run.at), run.made);
    }
  }

  /** A required rule that declines is reported at the end of the last lexeme before it, or at the next one where there is none. */
  lemma {:induction false} RequiredReports(m: Setup, exec: Exec, owner: Rule, inner: Rule, s: State)
    requires Transactional(m, exec) && Ready(m, s) && exec(inner, Normal, s).Done?
    requires exec(inner, Normal, s).result.Failure? && exec(inner, Normal, s).result.kind.FailureNoMatch?
    ensures var position := if s.cursor > 0 then m.src.lexemes[s.cursor - 1].end else Peek(m, s).start;
            var o := RunRequired(m, exec, owner, inner, s);
            o.Done? && o.result == Error() && o.state.cursor == s.cursor && o.state.errors == Report(s.errors, SyntaxError(false, position, owner.grammarLabel))
  {
    assert RunsOk(m, exec, inner, Normal, s);
  }

  /**
   A root part that declines. In the first place the root declines too; behind another part it
   errs, and adds a report only if nothing was committed since the entry rule began.
   */
  lemma {:induction false} RootStops(m: Setup, exec: Exec, owner: Rule, kind: Kind, id: nat, rules: seq<Rule>, committed: bool,
                                     children: seq<Tree>, s: State, i: nat, u: State)
    requires PartReached(exec, rules, s, i, u) && exec(rules[i], Normal, u).Done? && exec(rules[i], Normal, u).result == NoMatch()
    ensures var t, o := exec(rules[i], Normal, u).state, RunRoot(m, exec, owner, kind, id, rules, committed, children, s);
            o == if !committed && i == 0 then Done(NoMatch(), t)
                 else Done(Error(), if |ErrorBuffer.Flight(t.errors.entries)| > t.baseline then t else ReportExpected(m, t, owner))
    decreases i
  {
    if i > 0 {
      var o := exec(rules[0], Normal, s);
      RootStops(m, exec, owner, kind, id, rules[1..], true, Attached(children, o.result), o.state, i - 1, u);
    }
  }
}
