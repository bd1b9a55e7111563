/**
 Rules as transactions. A rule that answers "no match", or fails in any way as a probe,
 leaves the state exactly as it found it, although rules inside it may have recovered and
 committed errors. Every other completed rule leaves all stacks balanced, moves the cursor
 only forward, and only adds errors.
 */
module EngineTransaction {
  import opened Languages
  import opened Grammars
  import opened TokenStreams
  import opened ErrorScopes
  import opened Rules
  import opened Engine
  import ListRule
  import ChoiceDispatch

  // ------------------------------------------------------------------ how errors grow

  /** Inside a scope: errors are committed to the innermost list and reports improve the scope's best. */
  ghost predicate Grows(n: Nested, n': Nested) {
    exists errs, reports :: n' == Effect(n, errs, reports)
  }

  /** What a finished rule adds: errors committed in order, published at once outside every scope. */
  function Publish(n: Nested, errs: seq<SyntaxError>): Nested {
    if HasScope(n.entries) then n.(entries := AddErrs(n.entries, errs)) else n.(errors := n.errors + errs)
  }

  ghost predicate Published(n: Nested, n': Nested) {
    exists errs :: n' == Publish(n, errs)
  }

  lemma GrowsSame(n: Nested)
    ensures Grows(n, n)
  {
    SetSameBest(n.entries);
    AddNone(n.entries);
    assert Furthest(BestOf(n.entries), []) == BestOf(n.entries);
    assert n == Effect(n, [], []);
  }

  lemma GrowsTrans(n: Nested, n1: Nested, n2: Nested)
    requires HasScope(n.entries) && Grows(n, n1) && Grows(n1, n2)
    ensures HasScope(n1.entries) && Grows(n, n2)
  {
    var e1, r1 :| n1 == Effect(n, e1, r1);
    var e2, r2 :| n2 == Effect(n1, e2, r2);
    GrowsTwice(n, e1, r1, e2, r2);
  }

  lemma GrowsTwice(n: Nested, e1: seq<SyntaxError>, r1: seq<SyntaxError>, e2: seq<SyntaxError>, r2: seq<SyntaxError>)
    requires HasScope(n.entries)
    ensures HasScope(Effect(n, e1, r1).entries) && Grows(n, Effect(Effect(n, e1, r1), e2, r2))
  {
    EffectTwice(n, e1, r1, e2, r2);
    assert Effect(Effect(n, e1, r1), e2, r2) == Effect(n, e1 + e2, r1 + r2);
  }

  lemma GrowsPublished(n: Nested, n': Nested)
    requires HasScope(n.entries) && Published(n, n')
    ensures Grows(n, n')
  {
    var errs :| n' == Publish(n, errs);
    SetSameBest(n.entries);
    assert Furthest(BestOf(n.entries), []) == BestOf(n.entries);
    assert n' == Effect(n, errs, []);
  }

  lemma GrowsReport(n: Nested, err: SyntaxError)
    requires HasScope(n.entries)
    ensures Grows(n, Report(n, err))
  {
    AddNone(SetBest(n.entries, Improve(BestOf(n.entries), err)));
    assert Furthest(BestOf(n.entries), [err]) == Improve(BestOf(n.entries), err) by {
      assert [err][1..] == [];
    }
    assert Report(n, err) == Effect(n, [], [err]);
  }

  // ------------------------------------------------------------------ steps of a run

  ghost predicate Ready(m: Setup, s: State) {
    s.cursor <= |m.src.lexemes|
  }

  /** The stacks are as before, the cursor has not moved back, the ledger has only grown. */
  ghost predicate Balanced(m: Setup, s: State, t: State) {
    && s.cursor <= t.cursor <= |m.src.lexemes|
    && t.recovery == s.recovery
    && t.entryDepth == s.entryDepth && (s.entryDepth > 0 ==> t.baseline == s.baseline)
    && s.created <= t.created && s.nextID <= t.nextID
  }

  /** Only the id counter moved on, and outside every entry scope the baseline of the last one is left over. */
  ghost predicate Restored(s: State, t: State) {
    t == s.(nextID := t.nextID, baseline := t.baseline) && s.nextID <= t.nextID && (s.entryDepth > 0 ==> t.baseline == s.baseline)
  }

  /** A step inside some scope. */
  ghost predicate Moves(m: Setup, s: State, t: State) {
    Balanced(m, s, t) && Grows(s.errors, t.errors)
  }

  /** What holds after a rule has run through its envelope. */
  ghost predicate RuleOk(m: Setup, mode: Mode, s: State, r: Result, t: State) {
    if r.Failure? && (r.kind.FailureNoMatch? || mode.Probe?) then Restored(s, t)
    else Balanced(m, s, t) && Published(s.errors, t.errors) && (r.Failure? ==> t.created == s.created)
  }

  lemma MovesSame(m: Setup, s: State)
    requires Ready(m, s)
    ensures Moves(m, s, s)
  {
    GrowsSame(s.errors);
  }

  lemma MovesTrans(m: Setup, s: State, t: State, u: State)
    requires HasScope(s.errors.entries) && Moves(m, s, t) && Moves(m, t, u)
    ensures Moves(m, s, u) && HasScope(t.errors.entries)
  {
    GrowsTrans(s.errors, t.errors, u.errors);
  }

  /** A step to t and a run from t. */
  lemma MovesOn(m: Setup, s: State, t: State, o: Outcome)
    requires HasScope(s.errors.entries) && Moves(m, s, t) && (o.Done? ==> Moves(m, t, o.state))
    ensures o.Done? ==> Moves(m, s, o.state)
  {
    if o.Done? {
      MovesTrans(m, s, t, o.state);
    }
  }

  lemma MovesInScope(m: Setup, s: State, t: State)
    requires HasScope(s.errors.entries) && Moves(m, s, t)
    ensures HasScope(t.errors.entries) && Ready(m, t)
  {
    GrowsSame(t.errors);
    GrowsTrans(s.errors, t.errors, t.errors);
  }

  lemma RuleMoves(m: Setup, mode: Mode, s: State, r: Result, t: State)
    requires HasScope(s.errors.entries) && Ready(m, s) && RuleOk(m, mode, s, r, t)
    ensures Moves(m, s, t) && HasScope(t.errors.entries) && Ready(m, t)
  {
    if r.Failure? && (r.kind.FailureNoMatch? || mode.Probe?) {
      GrowsSame(s.errors);
    } else {
      GrowsPublished(s.errors, t.errors);
    }
    MovesInScope(m, s, t);
  }

  lemma {:induction false} NewNodesMoves(m: Setup, s: State, n: nat)
    requires Ready(m, s)
    ensures Moves(m, s, NewNodes(s, n))
    decreases n
  {
    GrowsSame(s.errors);
    if n > 0 {
      NewNodesMoves(m, s, n - 1);
    }
  }

  lemma TakeMoves(m: Setup, s: State)
    requires Ready(m, s)
    ensures Moves(m, s, Take(m, s)) && Moves(m, s, NewNode(s)) && Moves(m, s, NewNode(Take(m, s)))
  {
    GrowsSame(s.errors);
  }

  lemma ReportMoves(m: Setup, s: State, rule: Rule, position: nat)
    requires Ready(m, s) && HasScope(s.errors.entries)
    ensures Moves(m, s, ReportPosition(s, rule, position))
  {
    GrowsReport(s.errors, SyntaxError(false, position, rule.grammarLabel));
  }

  lemma ExpectedMoves(m: Setup, s: State, rule: Rule)
    requires Ready(m, s) && HasScope(s.errors.entries)
    ensures Moves(m, s, ReportExpected(m, s, rule))
  {
    if 0 < s.cursor {
      ReportMoves(m, s, rule, m.src.lexemes[s.cursor - 1].end);
    } else {
      ReportMoves(m, s, rule, Peek(m, s).start);
    }
  }

  // -------------------------------------------------------------------- the envelope

  /** A rule's own scope lies on top of what was there. */
  ghost predicate OwnScope(n: Nested, n': Nested) {
    exists best, errs :: n' == n.(entries := n.entries + [Scope(best, errs)])
  }

  lemma BodyOwnScope(n: Nested, n': Nested)
    requires Grows(PushScope(n), n')
    ensures OwnScope(n, n')
  {
    var errs, reports :| n' == Effect(PushScope(n), errs, reports);
    ScopeEffect(n, errs, reports);
  }

  /** Popping the scope undoes everything or publishes what it holds. */
  lemma PopOwnScope(s: State, n: Nested)
    requires OwnScope(n, s.errors)
    ensures Pop(s, false) == s.(errors := n)
    ensures Pop(s, true) == s.(errors := Pop(s, true).errors) && Published(n, Pop(s, true).errors)
  {
    var best, errs :| s.errors == n.(entries := n.entries + [Scope(best, errs)]);
    LastOf(n.entries, Scope(best, errs));
    assert n.errors + errs + AsList(best) == n.errors + (errs + AsList(best));
    assert Pop(s, true).errors == Publish(n, errs + AsList(best));
  }

  lemma NoteKeepsOwnScope(m: Setup, rule: Rule, start: State, pre: Lexeme, s: State, n: Nested)
    requires OwnScope(n, s.errors)
    ensures OwnScope(n, NoteUnexpected(m, rule, start, pre, s).errors)
    ensures NoteUnexpected(m, rule, start, pre, s) == s.(errors := NoteUnexpected(m, rule, start, pre, s).errors)
  {
    var best, errs :| s.errors == n.(entries := n.entries + [Scope(best, errs)]);
    LastOf(n.entries, Scope(best, errs));
    var t := NoteUnexpected(m, rule, start, pre, s);
    if t != s {
      var b := BestOf(t.errors.entries);
      assert exists e :: t.errors.entries == SetBest(s.errors.entries, Some(e)) by {
        var found := if s.cursor != start.cursor then Peek(m, s) else pre;
        assert t.errors.entries == SetBest(s.errors.entries, Some(SyntaxError(false, found.start, rule.grammarLabel)));
      }
      var e :| t.errors.entries == SetBest(s.errors.entries, Some(e));
      Appended(n.entries, Scope(best, errs), Some(e));
      assert t.errors == n.(entries := n.entries + [Scope(Some(e), errs)]);
    }
  }

  /** Inside the envelope the recovery set and the entry scope are installed on top of those of s. */
  ghost predicate Inside(m: Setup, rule: Rule, mode: Mode, s: State, t: State) {
    var e := Enter(m, rule, mode, s);
    && s.cursor <= t.cursor <= |m.src.lexemes|
    && t.recovery == e.recovery && t.entryDepth == e.entryDepth && (e.entryDepth > 0 ==> t.baseline == e.baseline)
    && s.created <= t.created && s.nextID <= t.nextID
  }

  lemma LeaveBalances(m: Setup, rule: Rule, mode: Mode, s: State, t: State)
    requires Inside(m, rule, mode, s, t)
    ensures Balanced(m, s, Leave(m, rule, mode, t))
  {
    if mode.Normal? {
      assert t.recovery[..|t.recovery| - 1] == s.recovery;
    }
  }

  lemma RecoveredInside(m: Setup, rule: Rule, mode: Mode, s: State, r: Result, t: State)
    requires Inside(m, rule, mode, s, t) && r.Failure? && r.kind.FailureError?
    ensures var (r', u) := Recovered(m, rule, s, r, t);
            Inside(m, rule, mode, s, u) && u.errors == t.errors && (r'.Failure? ==> u.created == t.created && r'.kind.FailureError?)
  {
    match Landing(m, t)
    case None =>
    case Some(n) =>
      var rest := m.src.lexemes[Clamped(m, t)..];
      assert n < |rest|;
  }

  lemma HandleFailureOk(m: Setup, rule: Rule, mode: Mode, s: State, r: Result, t: State)
    requires Ready(m, s) && r.Failure? && Inside(m, rule, mode, s, t) && OwnScope(s.errors, t.errors) && t.created == s.created
    ensures var (r', u) := HandleFailure(m, rule, mode, s, Peek(m, s), r, t);
            RuleOk(m, mode, s, r', Leave(m, rule, mode, u))
  {
    PopOwnScope(t, s.errors);
    if mode.Probe? || r.kind.FailureNoMatch? {
      var u := t.(cursor := s.cursor);
      PopOwnScope(u, s.errors);
      LeaveBalances(m, rule, mode, s, u.(errors := s.errors));
    } else if !r.consumeSyncToken && t.cursor != s.cursor {
      LeaveBalances(m, rule, mode, s, Pop(t, true));
    } else {
      NoteKeepsOwnScope(m, rule, s, Peek(m, s), t, s.errors);
      var noted := NoteUnexpected(m, rule, s, Peek(m, s), t);
      PopOwnScope(noted, s.errors);
      RecoveredInside(m, rule, mode, s, r, Pop(noted, true));
      var (r', u) := Recovered(m, rule, s, r, Pop(noted, true));
      LeaveBalances(m, rule, mode, s, u);
    }
  }

  lemma BodyInside(m: Setup, rule: Rule, mode: Mode, s: State, t: State)
    requires Ready(m, s) && Moves(m, Enter(m, rule, mode, s), t)
    ensures Inside(m, rule, mode, s, t) && OwnScope(s.errors, t.errors)
    ensures Truncated(t, |s.created|) == t.(created := s.created)
  {
    BodyOwnScope(s.errors, t.errors);
    assert t.created[..|s.created|] == s.created;
  }

  lemma EnterInScope(m: Setup, rule: Rule, mode: Mode, s: State)
    ensures HasScope(Enter(m, rule, mode, s).errors.entries)
  {
    LastOf(s.errors.entries, Scope(None, []));
  }

  // ------------------------------------------------------------------ the rule bodies

  ghost predicate RunsOk(m: Setup, exec: Exec, rule: Rule, mode: Mode, s: State) {
    var o := exec(rule, mode, s);
    Ready(m, s) && o.Done? ==> RuleOk(m, mode, s, o.result, o.state)
  }

  /** An executor all of whose runs are transactions. */
  ghost predicate Transactional(m: Setup, exec: Exec) {
    forall rule, mode, s :: RunsOk(m, exec, rule, mode, s)
  }

  /** A completed outcome is a step from s. */
  ghost predicate OutcomeMoves(m: Setup, s: State, o: Outcome) {
    o.Done? ==> Moves(m, s, o.state) && HasScope(o.state.errors.entries) && Ready(m, o.state)
  }

  /** Running a rule inside some scope is a step. */
  lemma ChildMoves(m: Setup, exec: Exec, rule: Rule, mode: Mode, s: State)
    requires Transactional(m, exec) && Ready(m, s) && HasScope(s.errors.entries)
    ensures OutcomeMoves(m, s, exec(rule, mode, s))
  {
    var o := exec(rule, mode, s);
    assert RunsOk(m, exec, rule, mode, s);
    if o.Done? {
      RuleMoves(m, mode, s, o.result, o.state);
    }
  }

  lemma Stays(m: Setup, s: State)
    requires Ready(m, s) && HasScope(s.errors.entries)
    ensures forall r :: OutcomeMoves(m, s, Done(r, s))
  {
    MovesSame(m, s);
  }

  lemma GoesOn(m: Setup, s: State, t: State, o: Outcome)
    requires HasScope(s.errors.entries) && Moves(m, s, t) && OutcomeMoves(m, t, o)
    ensures OutcomeMoves(m, s, o)
  {
    MovesOn(m, s, t, o);
  }

  lemma ListMoves(m: Setup, rule: Rule, spec: ListRule.ListSpec, s: State)
    requires Ready(m, s) && HasScope(s.errors.entries)
    ensures forall lk, ek :: OutcomeMoves(m, s, RunListOf(m, rule, spec, lk, ek, s))
  {
    GrowsSame(s.errors);
    var run := ListRule.RunList(m.src, s.cursor, spec);
    var at := s.(cursor := run.at);
    assert Moves(m, s, at);
    match run
    case Accepted(_, elements) =>
      NewNodesMoves(m, at, 1 + |elements|);
      MovesTrans(m, s, at, NewNodes(at, 1 + |elements|));
      MovesInScope(m, s, NewNodes(at, 1 + |elements|));
    case Rejected(_, blame, made) =>
      NewNodesMoves(m, at, made);
      MovesTrans(m, s, at, NewNodes(at, made));
      MovesInScope(m, s, NewNodes(at, made));
      ReportMoves(m, NewNodes(at, made), rule, blame.start);
      MovesTrans(m, s, NewNodes(at, made), ReportPosition(NewNodes(at, made), rule, blame.start));
      MovesInScope(m, s, ReportPosition(NewNodes(at, made), rule, blame.start));
  }

  lemma JudgeState(m: Setup, owner: Rule, element: Rule, marker: nat, r: Result, t: State)
    ensures var u := Judge(m, owner, element, marker, r, t).state; u == t || u == ReportExpected(m, t, owner)
  {
  }

  lemma JudgeMoves(m: Setup, s: State, owner: Rule, element: Rule, marker: nat, r: Result, t: State)
    requires HasScope(s.errors.entries) && Moves(m, s, t) && Ready(m, t) && HasScope(t.errors.entries)
    ensures var u := Judge(m, owner, element, marker, r, t).state; Moves(m, s, u) && Ready(m, u) && HasScope(u.errors.entries)
  {
    var u := ReportExpected(m, t, owner);
    ExpectedMoves(m, t, owner);
    MovesTrans(m, s, t, u);
    MovesInScope(m, s, u);
    JudgeState(m, owner, element, marker, r, t);
  }

  lemma CloseMoves(m: Setup, kind: Option<Kind>, children: seq<Tree>, s: State)
    requires Ready(m, s) && HasScope(s.errors.entries)
    ensures OutcomeMoves(m, s, Close(kind, children, s))
  {
    Stays(m, s);
    TakeMoves(m, s);
  }

  lemma {:induction false} SequenceMoves(m: Setup, exec: Exec, owner: Rule, kind: Option<Kind>, rules: seq<Rule>, marker: nat,
                                         children: seq<Tree>, s: State)
    requires Transactional(m, exec) && Ready(m, s) && HasScope(s.errors.entries)
    ensures OutcomeMoves(m, s, RunSequence(m, exec, owner, kind, rules, marker, children, s))
    decreases |rules|
  {
    if rules == [] {
      CloseMoves(m, kind, children, s);
    } else {
      ChildMoves(m, exec, rules[0], Normal, s);
      var c := exec(rules[0], Normal, s);
      if c.Done? {
        JudgeMoves(m, s, owner, rules[0], marker, c.result, c.state);
        var v := Judge(m, owner, rules[0], marker, c.result, c.state);
        if v.Keep? {
          SequenceMoves(m, exec, owner, kind, rules[1..], marker, Attached(children, v.result), v.state);
          GoesOn(m, s, v.state, RunSequence(m, exec, owner, kind, rules[1..], marker, Attached(children, v.result), v.state));
        }
      }
    }
  }

  lemma OptionalMoves(m: Setup, exec: Exec, inner: Rule, s: State)
    requires Transactional(m, exec) && Ready(m, s) && HasScope(s.errors.entries)
    ensures OutcomeMoves(m, s, RunOptional(exec, inner, s))
  {
    ChildMoves(m, exec, inner, Probe, s);
  }

  lemma SuffixMoves(m: Setup, exec: Exec, kind: Kind, inner: Rule, suffix: Token, s: State)
    requires Transactional(m, exec) && Ready(m, s) && HasScope(s.errors.entries)
    ensures OutcomeMoves(m, s, RunSuffix(m, exec, kind, inner, suffix, s))
  {
    ChildMoves(m, exec, inner, Normal, s);
    var c := exec(inner, Normal, s);
    if c.Done? {
      TakeMoves(m, c.state);
      MovesTrans(m, s, c.state, NewNode(Take(m, c.state)));
      MovesInScope(m, s, NewNode(Take(m, c.state)));
    }
  }

  lemma RequiredMoves(m: Setup, exec: Exec, owner: Rule, inner: Rule, s: State)
    requires Transactional(m, exec) && Ready(m, s) && HasScope(s.errors.entries)
    ensures OutcomeMoves(m, s, RunRequired(m, exec, owner, inner, s))
  {
    ChildMoves(m, exec, inner, Normal, s);
    var c := exec(inner, Normal, s);
    if c.Done? {
      ExpectedMoves(m, c.state, owner);
      MovesTrans(m, s, c.state, ReportExpected(m, c.state, owner));
      MovesInScope(m, s, ReportExpected(m, c.state, owner));
    }
  }

  lemma RootFailureMoves(m: Setup, owner: Rule, committed: bool, r: Result, s: State)
    requires Ready(m, s) && HasScope(s.errors.entries) && r.Failure?
    ensures Moves(m, s, RootFailure(m, owner, committed, r, s).state)
  {
    MovesSame(m, s);
    ExpectedMoves(m, s, owner);
  }

  lemma {:induction false} RootMoves(m: Setup, exec: Exec, owner: Rule, kind: Kind, id: nat, rules: seq<Rule>, committed: bool,
                                     children: seq<Tree>, s: State)
    requires Transactional(m, exec) && Ready(m, s) && HasScope(s.errors.entries)
    ensures OutcomeMoves(m, s, RunRoot(m, exec, owner, kind, id, rules, committed, children, s))
    decreases |rules|
  {
    if rules == [] {
      Stays(m, s);
    } else {
      ChildMoves(m, exec, rules[0], Normal, s);
      var c := exec(rules[0], Normal, s);
      if c.Done? {
        if c.result.Success? {
          RootMoves(m, exec, owner, kind, id, rules[1..], true, Attached(children, c.result), c.state);
          GoesOn(m, s, c.state, RunRoot(m, exec, owner, kind, id, rules[1..], true, Attached(children, c.result), c.state));
        } else {
          RootFailureMoves(m, owner, committed, c.result, c.state);
          MovesTrans(m, s, c.state, RootFailure(m, owner, committed, c.result, c.state).state);
          MovesInScope(m, s, RootFailure(m, owner, committed, c.result, c.state).state);
        }
      }
    }
  }

  lemma RootBodyMoves(m: Setup, exec: Exec, owner: Rule, kind: Kind, rules: seq<Rule>, s: State)
    requires Transactional(m, exec) && Ready(m, s) && HasScope(s.errors.entries)
    ensures OutcomeMoves(m, s, RunRoot(m, exec, owner, kind, s.nextID + 1, rules, false, [], NewNode(s)))
  {
    TakeMoves(m, s);
    RootMoves(m, exec, owner, kind, s.nextID + 1, rules, false, [], NewNode(s));
    GoesOn(m, s, NewNode(s), RunRoot(m, exec, owner, kind, s.nextID + 1, rules, false, [], NewNode(s)));
  }

  /** Where a loop outcome leaves the state. */
  ghost predicate LoopMoved(m: Setup, s: State, o: LoopOutcome) {
    o.LoopDone? || o.LoopFailed? ==> Moves(m, s, o.state)
  }

  lemma TurnMoves(m: Setup, retries: bool, count: nat, children: seq<Tree>, s: State, r: Result, t: State)
    requires Moves(m, s, t)
    ensures var turn := NextTurn(m, retries, count, children, s, r, t); turn.Stop? ==> LoopMoved(m, s, turn.outcome)
  {
  }

  lemma LoopMovesOn(m: Setup, s: State, t: State, o: LoopOutcome)
    requires HasScope(s.errors.entries) && Moves(m, s, t) && LoopMoved(m, t, o)
    ensures LoopMoved(m, s, o)
  {
    if o.LoopDone? || o.LoopFailed? {
      MovesTrans(m, s, t, o.state);
    }
  }

  lemma {:induction false} LoopMoves(m: Setup, exec: Exec, inner: Rule, max: Option<nat>, retries: bool, count: nat, children: seq<Tree>,
                                     s: State, turns: nat)
    requires Transactional(m, exec) && Ready(m, s) && HasScope(s.errors.entries)
    ensures LoopMoved(m, s, RunLoop(m, exec, inner, max, retries, count, children, s, turns))
    decreases turns
  {
    if max.Some? && count >= max.value {
      MovesSame(m, s);
    } else if turns > 0 {
      ChildMoves(m, exec, inner, Normal, s);
      var c := exec(inner, Normal, s);
      if c.Done? {
        var turn := NextTurn(m, retries, count, children, s, c.result, c.state);
        TurnMoves(m, retries, count, children, s, c.result, c.state);
        if turn.Again? {
          LoopMoves(m, exec, inner, max, retries, turn.count, turn.children, c.state, turns - 1);
          LoopMovesOn(m, s, c.state, RunLoop(m, exec, inner, max, retries, turn.count, turn.children, c.state, turns - 1));
        }
      }
    }
  }

  lemma RepetitionMoves(m: Setup, exec: Exec, kind: Option<Kind>, min: nat, max: Option<nat>, retries: bool, inner: Rule, s: State, turns: nat)
    requires Transactional(m, exec) && Ready(m, s) && HasScope(s.errors.entries)
    ensures OutcomeMoves(m, s, RunRepetition(m, exec, kind, min, max, retries, inner, s, turns))
  {
    var e := if kind.Some? then NewNode(s) else s;
    MovesSame(m, s);
    TakeMoves(m, s);
    LoopMoves(m, exec, inner, max, retries, 0, [], e, turns);
    var o := RunLoop(m, exec, inner, max, retries, 0, [], e, turns);
    LoopMovesOn(m, s, e, o);
    LoopCloses(m, kind, s.nextID + 1, min, s, o);
  }

  lemma LoopCloses(m: Setup, kind: Option<Kind>, id: nat, min: nat, s: State, o: LoopOutcome)
    requires HasScope(s.errors.entries) && LoopMoved(m, s, o)
    ensures OutcomeMoves(m, s, CloseLoop(kind, id, min, o))
  {
    if o.LoopDone? || o.LoopFailed? {
      MovesInScope(m, s, o.state);
    }
  }

  lemma CommittedMoves(m: Setup, exec: Exec, inner: Rule, s: State)
    requires Transactional(m, exec) && Ready(m, s) && HasScope(s.errors.entries)
    ensures OutcomeMoves(m, s, RunCommitted(m, exec, inner, s))
  {
    ChildMoves(m, exec, inner, Normal, s);
  }

  lemma PrefixedMoves(m: Setup, exec: Exec, inner: Rule, s: State)
    requires Transactional(m, exec) && Ready(m, s) && HasScope(s.errors.entries)
    ensures OutcomeMoves(m, s, RunCommitted(m, exec, inner, Take(m, s)))
  {
    TakeMoves(m, s);
    CommittedMoves(m, exec, inner, Take(m, s));
    GoesOn(m, s, Take(m, s), RunCommitted(m, exec, inner, Take(m, s)));
  }

  // ------------------------------------------------------------------ delimiter regions

  /** Inside a region opened in s; closing it is a step from s. */
  ghost predicate InRegion(m: Setup, s: State, start: nat, t: State) {
    Balanced(m, s, t) && Grows(PushRegion(s.errors, start), t.errors)
  }

  lemma RegionOpens(m: Setup, s: State, t: State, start: nat)
    requires HasScope(s.errors.entries) && Balanced(m, s, t) && t.errors == s.errors
    ensures var u := t.(errors := PushRegion(t.errors, start));
            InRegion(m, s, start, u) && HasScope(u.errors.entries)
  {
    LastOf(s.errors.entries, Region(start, []));
    GrowsSame(PushRegion(s.errors, start));
  }

  lemma RegionStep(m: Setup, s: State, start: nat, t: State, u: State)
    requires HasScope(s.errors.entries) && InRegion(m, s, start, t) && Moves(m, t, u)
    ensures InRegion(m, s, start, u)
  {
    LastOf(s.errors.entries, Region(start, []));
    GrowsTrans(PushRegion(s.errors, start), t.errors, u.errors);
  }

  lemma RegionInScope(m: Setup, s: State, start: nat, t: State)
    requires HasScope(s.errors.entries) && InRegion(m, s, start, t)
    ensures HasScope(t.errors.entries) && Ready(m, t)
  {
    LastOf(s.errors.entries, Region(start, []));
    GrowsSame(t.errors);
    GrowsTrans(PushRegion(s.errors, start), t.errors, t.errors);
  }

  lemma RegionCloses(m: Setup, s: State, start: nat, t: State)
    requires HasScope(s.errors.entries) && InRegion(m, s, start, t)
    ensures Moves(m, s, PopRegionOf(t))
  {
    var errs, reports :| t.errors == Effect(PushRegion(s.errors, start), errs, reports);
    RegionEffect(s.errors, start, errs, reports);
    assert PopRegionOf(t).errors == Effect(s.errors, errs, reports);
  }

  lemma OpenedInRegion(m: Setup, s: State)
    requires Ready(m, s) && HasScope(s.errors.entries)
    ensures InRegion(m, s, Peek(m, s).start, Opened(m, s)) && HasScope(Opened(m, s).errors.entries) && Ready(m, Opened(m, s))
  {
    TakeMoves(m, s);
    RegionOpens(m, s, Take(m, s), Peek(m, s).start);
  }

  lemma InnerInRegion(m: Setup, exec: Exec, inner: Rule, s: State)
    requires Transactional(m, exec) && Ready(m, s) && HasScope(s.errors.entries)
    ensures var c := RunCommitted(m, exec, inner, Opened(m, s)); c.Done? ==> InRegion(m, s, Peek(m, s).start, c.state)
  {
    OpenedInRegion(m, s);
    CommittedMoves(m, exec, inner, Opened(m, s));
    var c := RunCommitted(m, exec, inner, Opened(m, s));
    if c.Done? {
      RegionStep(m, s, Peek(m, s).start, Opened(m, s), c.state);
    }
  }

  lemma NestMoves(m: Setup, exec: Exec, owner: Rule, kind: Option<Kind>, open: Token, close: Token, inner: Rule, s: State)
    requires Transactional(m, exec) && Ready(m, s) && HasScope(s.errors.entries)
    ensures OutcomeMoves(m, s, RunNest(m, exec, owner, kind, open, close, inner, s))
  {
    Stays(m, s);
    InnerInRegion(m, exec, inner, s);
    var c := RunCommitted(m, exec, inner, Opened(m, s));
    if c.Done? {
      NestCloses(m, owner, kind, close, s, Peek(m, s).start, c.result, c.state);
    }
  }

  lemma NestCloses(m: Setup, owner: Rule, kind: Option<Kind>, close: Token, s: State, start: nat, r: Result, t: State)
    requires HasScope(s.errors.entries) && InRegion(m, s, start, t)
    ensures OutcomeMoves(m, s, CloseNest(m, owner, kind, close, r, t))
  {
    RegionInScope(m, s, start, t);
    TakeMoves(m, t);
    MovesSame(m, t);
    ReportMoves(m, t, owner, Peek(m, t).start);
    var u := if r.Failure? then t
             else if Peek(m, t).token != close then CloseMissing(m, owner, t)
             else if kind.None? then Take(m, t) else NewNode(Take(m, t));
    RegionStep(m, s, start, t, u);
    RegionCloses(m, s, start, u);
    MovesInScope(m, s, PopRegionOf(u));
  }

  lemma {:induction false} ReferenceMoves(m: Setup, exec: Exec, target: Label, s: State, turns: nat)
    requires Transactional(m, exec) && Ready(m, s) && HasScope(s.errors.entries)
    ensures OutcomeMoves(m, s, RunReference(m, exec, target, s, turns))
    decreases turns, 0
  {
    if target in m.registry && turns > 0 {
      var e := WithRecovery(m.registry[target], s);
      BodyMoves(m, exec, m.registry[target], e, turns - 1);
      assert e.recovery[..|e.recovery| - 1] == s.recovery;
    }
  }

  lemma {:induction false} ArmsMove(m: Setup, exec: Exec, rules: seq<Rule>, s: State)
    requires Transactional(m, exec) && Ready(m, s) && HasScope(s.errors.entries)
    ensures OutcomeMoves(m, s, RunArms(exec, rules, s))
    decreases |rules|
  {
    if rules == [] {
      Stays(m, s);
    } else {
      ChildMoves(m, exec, rules[0], Normal, s);
      var c := exec(rules[0], Normal, s);
      if c.Done? {
        ArmsMove(m, exec, rules[1..], c.state);
        GoesOn(m, s, c.state, RunArms(exec, rules[1..], c.state));
      }
    }
  }

  lemma ChoiceMoves(m: Setup, exec: Exec, rules: seq<Rule>, s: State)
    requires Transactional(m, exec) && Ready(m, s) && HasScope(s.errors.entries)
    ensures OutcomeMoves(m, s, RunChoice(m, exec, rules, s))
  {
    Stays(m, s);
    var d := ChoiceDispatch.DispatchOf(m.analysis, Arms(rules), Ahead(m, s));
    ArmsMove(m, exec, rules, s);
    if d.Candidates? {
      ArmsMove(m, exec, Selected(rules, d.indices), s);
    }
  }

  predicate RunsOneRule(b: Body) {
    b.Optional? || b.OptionalWhen? || b.Predict? || b.RecoverSync? || b.OptionalSuffix? || b.Required? || b.Prefixed?
  }

  lemma {:induction false} OneRuleMoves(m: Setup, exec: Exec, rule: Rule, s: State, turns: nat)
    requires Transactional(m, exec) && Ready(m, s) && HasScope(s.errors.entries) && RunsOneRule(rule.body)
    ensures OutcomeMoves(m, s, RunBody(m, exec, rule, s, turns))
  {
    Stays(m, s);
    match rule.body
    case Optional(inner) => OptionalMoves(m, exec, inner, s);
    case OptionalWhen(_, inner) => ChildMoves(m, exec, inner, Normal, s);
    case Predict(_, inner) => ChildMoves(m, exec, inner, Normal, s);
    case OptionalSuffix(kind, inner, suffix) => SuffixMoves(m, exec, kind, inner, suffix, s);
    case Required(inner) => RequiredMoves(m, exec, rule, inner, s);
    case RecoverSync(inner) => ChildMoves(m, exec, inner, Normal, s);
    case Prefixed(_, inner) => PrefixedMoves(m, exec, inner, s);
  }

  lemma ExpectMoves(m: Setup, tokens: seq<Token>, kind: Option<Kind>, s: State)
    requires Ready(m, s) && HasScope(s.errors.entries)
    ensures OutcomeMoves(m, s, RunExpect(m, tokens, kind, s))
  {
    Stays(m, s);
    TakeMoves(m, s);
  }

  /** Every body keeps the balance, provided the rules inside it are transactions. */
  lemma {:induction false} BodyMoves(m: Setup, exec: Exec, rule: Rule, s: State, turns: nat)
    requires Transactional(m, exec) && Ready(m, s) && HasScope(s.errors.entries)
    ensures OutcomeMoves(m, s, RunBody(m, exec, rule, s, turns))
    decreases turns, 1
  {
    if RunsOneRule(rule.body) {
      OneRuleMoves(m, exec, rule, s, turns);
      return;
    }
    match rule.body
    case Expect(tokens, kind) => ExpectMoves(m, tokens, kind, s);
    case ListOf(spec, _, _) => ListMoves(m, rule, spec, s);
    case Sequence(kind, rules) => SequenceMoves(m, exec, rule, kind, rules, Marker(m, s), [], s);
    case Wrap(kind, inner) => SequenceMoves(m, exec, rule, Some(kind), [inner], Marker(m, s), [], s);
    case Root(kind, rules) => RootBodyMoves(m, exec, rule, kind, rules, s);
    case Repetition(kind, min, inner) => RepetitionMoves(m, exec, kind, min, None, true, inner, s, turns);
    case BoundedRepetition(kind, min, max, inner) => RepetitionMoves(m, exec, kind, min, max, false, inner, s, turns);
    case Nest(kind, open, close, inner) => NestMoves(m, exec, rule, kind, open, close, inner, s);
    case Reference(target) => ReferenceMoves(m, exec, target, s, turns);
    case Choice(rules) => ChoiceMoves(m, exec, rules, s);
    case _ =>
  }

  // -------------------------------------------------------------------- the theorem

  /** The engine with a given fuel, as the executor bodies are run with. */
  ghost function EngineAt(m: Setup, fuel: nat): Exec {
    (r: Rule, md: Mode, st: State) => ExecuteRule(m, r, md, st, fuel)
  }

  lemma EnvelopeTransaction(m: Setup, exec: Exec, rule: Rule, mode: Mode, s: State, turns: nat)
    requires Transactional(m, exec) && Ready(m, s)
    ensures var o := RunEnvelope(m, exec, rule, mode, s, turns); o.Done? ==> RuleOk(m, mode, s, o.result, o.state)
  {
    var e := Enter(m, rule, mode, s);
    EnterInScope(m, rule, mode, s);
    BodyMoves(m, exec, rule, e, turns);
    var o := RunBody(m, exec, rule, e, turns);
    if o.Done? {
      BodyInside(m, rule, mode, s, o.state);
      if o.result.Success? {
        PopOwnScope(o.state, s.errors);
        LeaveBalances(m, rule, mode, s, Pop(o.state, true));
      } else {
        HandleFailureOk(m, rule, mode, s, o.result, Truncated(o.state, |s.created|));
      }
    }
  }

  lemma EngineUnfolds(m: Setup, rule: Rule, mode: Mode, s: State, fuel: nat)
    ensures EngineAt(m, fuel)(rule, mode, s) ==
            if fuel == 0 then OutOfFuel else RunEnvelope(m, EngineAt(m, fuel - 1), rule, mode, s, fuel - 1)
  {
  }

  lemma EngineStep(m: Setup, rule: Rule, mode: Mode, s: State, fuel: nat)
    requires fuel > 0 ==> Transactional(m, EngineAt(m, fuel - 1))
    ensures RunsOk(m, EngineAt(m, fuel), rule, mode, s)
  {
    EngineUnfolds(m, rule, mode, s, fuel);
    if fuel > 0 && Ready(m, s) {
      EnvelopeTransaction(m, EngineAt(m, fuel - 1), rule, mode, s, fuel - 1);
    }
  }

  lemma {:induction false} EngineTransactional(m: Setup, fuel: nat)
    ensures Transactional(m, EngineAt(m, fuel))
    decreases fuel
  {
    if fuel > 0 {
      EngineTransactional(m, fuel - 1);
    }
    forall rule, mode, s {
      EngineStep(m, rule, mode, s, fuel);
    }
  }

  /** What an envelope around any transactional executor ensures, the engine ensures. */
  lemma {:induction false} EngineInherits(m: Setup, rule: Rule, mode: Mode, s: State, fuel: nat, p: Outcome -> bool)
    requires p(OutOfFuel) && forall exec, turns | Transactional(m, exec) :: p(RunEnvelope(m, exec, rule, mode, s, turns))
    ensures p(EngineAt(m, fuel)(rule, mode, s))
  {
    if fuel > 0 {
      EngineTransactional(m, fuel - 1);
      assert p(RunEnvelope(m, EngineAt(m, fuel - 1), rule, mode, s, fuel - 1));
    }
    EngineUnfolds(m, rule, mode, s, fuel);
  }

  /** Every run by exec has the property. */
  ghost predicate AllRuns(exec: Exec, p: (Rule, Mode, State, Outcome) -> bool) {
    forall rule, mode, s :: p(rule, mode, s, exec(rule, mode, s))
  }

  ghost predicate EnvelopeKeeps(m: Setup, exec: Exec, p: (Rule, Mode, State, Outcome) -> bool) {
    Transactional(m, exec) && AllRuns(exec, p) ==> forall rule, mode, s, turns :: p(rule, mode, s, RunEnvelope(m, exec, rule, mode, s, turns))
  }

  /** Induction over the engine: what every envelope keeps, given that the rules inside it have it, all runs have. */
  lemma {:induction false} EngineInduction(m: Setup, p: (Rule, Mode, State, Outcome) -> bool, fuel: nat)
    requires forall rule, mode, s :: p(rule, mode, s, OutOfFuel)
    requires forall exec :: EnvelopeKeeps(m, exec, p)
    ensures AllRuns(EngineAt(m, fuel), p)
    decreases fuel
  {
    if fuel > 0 {
      EngineInduction(m, p, fuel - 1);
      EngineTransactional(m, fuel - 1);
      assert EnvelopeKeeps(m, EngineAt(m, fuel - 1), p);
    }
    forall rule, mode, s ensures p(rule, mode, s, EngineAt(m, fuel)(rule, mode, s)) {
      EngineUnfolds(m, rule, mode, s, fuel);
    }
  }

  /**
   The transaction theorem, for every rule, mode, state and fuel. A failure that is not a
   syntax error, and any failure of a probe, undoes everything; any other outcome keeps the
   stacks balanced, never moves the cursor back, only adds errors, and on failure gives
   every node back.
   */
  lemma {:induction false} Transaction(m: Setup, rule: Rule, mode: Mode, s: State, fuel: nat)
    requires Ready(m, s)
    ensures var o := ExecuteRule(m, rule, mode, s, fuel);
            o.Done? ==>
              if o.result.Failure? && (o.result.kind.FailureNoMatch? || mode.Probe?) then Restored(s, o.state)
              else Balanced(m, s, o.state) && Published(s.errors, o.state.errors) &&
                   (o.result.Failure? ==> o.state.created == s.created)
  {
    EngineTransactional(m, fuel);
    assert RunsOk(m, EngineAt(m, fuel), rule, mode, s);
  }
}
