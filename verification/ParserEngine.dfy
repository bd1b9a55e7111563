/**
 The parsing engine as it runs: methods that mutate one shared context, proved step by step
 against the engine's specification. What is proved of the specification (transactions,
 soundness against the grammar, dispatch) therefore holds of these methods.
 */
module ParserEngine {
  import opened Languages
  import opened Grammars
  import opened Guards
  import opened TokenStreams
  import opened Sources
  import opened ErrorScopes
  import opened Rules
  import opened Engine
  import opened EngineTransaction
  import opened ParserState
  import ListRule
  import ChoiceDispatch

  datatype Status = Ran | Panic | NoFuel

  /** The method's answer and the state it left are those of the specification. */
  ghost predicate Agrees(ctx: ParseContext, status: Status, r: Result, o: Outcome)
    reads ctx, ctx.ts, ctx.sink, ctx.rc
  {
    match o
    case Done(r', s) => status.Ran? && r == r' && ctx.View() == s
    case Panicked => status.Panic?
    case OutOfFuel => status.NoFuel?
  }

  ghost predicate SameAsEngine(m: Setup, exec: Exec, fuel: nat, rule: Rule, mode: Mode, s: State) {
    exec(rule, mode, s) == ExecuteRule(m, rule, mode, s, fuel)
  }

  /** exec is the engine with this fuel, and so a transaction throughout. */
  ghost predicate IsEngine(m: Setup, exec: Exec, fuel: nat) {
    Transactional(m, exec) && forall rule, mode, s :: SameAsEngine(m, exec, fuel, rule, mode, s)
  }

  lemma EngineIsEngine(m: Setup, fuel: nat)
    ensures IsEngine(m, EngineAt(m, fuel), fuel)
  {
    EngineTransactional(m, fuel);
    forall rule, mode, s ensures SameAsEngine(m, EngineAt(m, fuel), fuel, rule, mode, s) {
    }
  }

  /** With fuel left, the engine is its envelope around the engine with one unit less. */
  lemma InnerEngine(m: Setup, exec: Exec, fuel: nat, rule: Rule, mode: Mode, s: State) returns (inner: Exec)
    requires IsEngine(m, exec, fuel + 1)
    ensures IsEngine(m, inner, fuel) && exec(rule, mode, s) == RunEnvelope(m, inner, rule, mode, s, fuel)
  {
    inner := EngineAt(m, fuel);
    EngineIsEngine(m, fuel);
    assert SameAsEngine(m, exec, fuel + 1, rule, mode, s);
    EngineUnfolds(m, rule, mode, s, fuel + 1);
  }

  lemma NoFuelLeft(m: Setup, exec: Exec, rule: Rule, mode: Mode, s: State)
    requires IsEngine(m, exec, 0)
    ensures exec(rule, mode, s) == OutOfFuel
  {
    assert SameAsEngine(m, exec, 0, rule, mode, s);
  }

  /** In the body of a rule: the context is sound and some error scope is open. */
  ghost predicate InBody(ctx: ParseContext)
    reads ctx, ctx.ts, ctx.sink, ctx.rc
  {
    ctx.Valid() && HasScope(ctx.View().errors.entries)
  }

  // -------------------------------------------------------------------- the envelope

  /** After a body has run in the scope it was given, that scope is the innermost entry again. */
  lemma OwnScopeOnTop(n: Nested, n': Nested)
    requires OwnScope(n, n')
    ensures n'.entries != [] && n'.entries[|n'.entries| - 1].Scope? && HasScope(n'.entries)
  {
    var best, errs :| n' == n.(entries := n.entries + [Scope(best, errs)]);
    LastOf(n.entries, Scope(best, errs));
  }

  /** Enters the envelope and runs the body; its scope is on top again when it answers. */
  method RunEntered(ctx: ParseContext, rule: Rule, mode: Mode, fuel: nat, ghost exec: Exec) returns (status: Status, r: Result)
    requires ctx.Valid() && IsEngine(ctx.m, exec, fuel)
    modifies ctx, ctx.ts, ctx.sink, ctx.rc
    ensures ctx.Valid()
    ensures Agrees(ctx, status, r, RunBody(ctx.m, exec, rule, Enter(ctx.m, rule, mode, old(ctx.View())), fuel))
    ensures status.Ran? ==> OwnScope(old(ctx.View()).errors, ctx.View().errors)
    decreases fuel, 4
  {
    ghost var s := ctx.View();
    ctx.EnterRule(rule, mode);
    EnterInScope(ctx.m, rule, mode, s);
    BodyMoves(ctx.m, exec, rule, ctx.View(), fuel);
    status, r := RunRuleBody(ctx, rule, fuel, fuel, exec);
    if status.Ran? {
      BodyInside(ctx.m, rule, mode, s, ctx.View());
    }
  }

  /** syntaxaParserExecuteRule. */
  method Execute(ctx: ParseContext, rule: Rule, mode: Mode, fuel: nat, ghost exec: Exec) returns (status: Status, r: Result)
    requires ctx.Valid() && IsEngine(ctx.m, exec, fuel)
    modifies ctx, ctx.ts, ctx.sink, ctx.rc
    ensures ctx.Valid() && Agrees(ctx, status, r, exec(rule, mode, old(ctx.View())))
    decreases fuel, 0
  {
    if fuel == 0 {
      NoFuelLeft(ctx.m, exec, rule, mode, ctx.View());
      return NoFuel, NoMatch();
    }
    status, r := RunNested(ctx, rule, mode, fuel - 1, exec);
  }

  method RunNested(ctx: ParseContext, rule: Rule, mode: Mode, fuel: nat, ghost exec: Exec) returns (status: Status, r: Result)
    requires ctx.Valid() && IsEngine(ctx.m, exec, fuel + 1)
    modifies ctx, ctx.ts, ctx.sink, ctx.rc
    ensures ctx.Valid() && Agrees(ctx, status, r, exec(rule, mode, old(ctx.View())))
    decreases fuel, 6
  {
    ghost var o := exec(rule, mode, ctx.View());
    ghost var inner := InnerEngine(ctx.m, exec, fuel, rule, mode, ctx.View());
    status, r := RunInEnvelope(ctx, rule, mode, fuel, inner);
    assert Agrees(ctx, status, r, o);
  }

  method RunInEnvelope(ctx: ParseContext, rule: Rule, mode: Mode, fuel: nat, ghost exec: Exec) returns (status: Status, r: Result)
    requires ctx.Valid() && IsEngine(ctx.m, exec, fuel)
    modifies ctx, ctx.ts, ctx.sink, ctx.rc
    ensures ctx.Valid() && Agrees(ctx, status, r, RunEnvelope(ctx.m, exec, rule, mode, old(ctx.View()), fuel))
    decreases fuel, 5
  {
    ghost var s := ctx.View();
    var snap := ctx.SaveTokens();
    var startCount := |ctx.created|;
    var pre := ctx.PeekToken();
    status, r := RunEntered(ctx, rule, mode, fuel, exec);
    if !status.Ran? {
      return;
    }
    if r.Success? {
      OwnScopeOnTop(s.errors, ctx.View().errors);
      status, r := FinishSuccess(ctx, rule, mode, r, s, snap.tokenIndex, pre);
    } else {
      r := FinishFailure(ctx, rule, mode, r, s, snap, startCount, pre);
    }
  }

  /** The success path: commit, and hold the rule to its contract. */
  method FinishSuccess(ctx: ParseContext, rule: Rule, mode: Mode, r: Result, ghost s: State, startCursor: nat, pre: Lexeme)
    returns (status: Status, r': Result)
    requires ctx.Valid() && r.Success? && startCursor == s.cursor && pre == Peek(ctx.m, s)
    requires var es := ctx.View().errors.entries; es != [] && es[|es| - 1].Scope?
    modifies ctx, ctx.ts, ctx.sink, ctx.rc
    ensures ctx.Valid()
    ensures Agrees(ctx, status, r',
                   if Violates(ctx.m, rule, s, pre, r, old(ctx.View())) then Panicked
                   else Done(r, Leave(ctx.m, rule, mode, Pop(old(ctx.View()), true))))
  {
    var contract := rule.contract;
    var target := ReferenceOf(rule);
    if target.Some? && target.value in ctx.m.registry {
      contract := ctx.m.registry[target.value].contract;
    }
    var idle := ctx.ts.cursor == startCursor;
    ctx.PopErrors(true);
    if (idle && contract.mustConsume && pre.token != ctx.m.src.eof) || (r.node.None? && contract.mustReturnNode) {
      return Panic, r;
    }
    ctx.LeaveRule(rule, mode);
    return Ran, r;
  }

  /** The failure path: take nodes back, then undo or recover. */
  method FinishFailure(ctx: ParseContext, rule: Rule, mode: Mode, r: Result, ghost s: State, snap: Snapshot, startCount: nat, pre: Lexeme)
    returns (r': Result)
    requires ctx.Valid() && r.Failure? && ctx.Fits(snap) && snap.tokenIndex == s.cursor && startCount == |s.created| && pre == Peek(ctx.m, s)
    requires OwnScope(s.errors, ctx.View().errors)
    modifies ctx, ctx.ts, ctx.sink, ctx.rc
    ensures ctx.Valid()
    ensures var (f, u) := HandleFailure(ctx.m, rule, mode, s, pre, r, Truncated(old(ctx.View()), |s.created|));
            r' == f && ctx.View() == Leave(ctx.m, rule, mode, u)
  {
    ctx.TakeBack(startCount);
    r' := HandleFailureState(ctx, rule, mode, r, s, snap, pre);
    ctx.LeaveRule(rule, mode);
  }

  /** handleFailureState. */
  method HandleFailureState(ctx: ParseContext, rule: Rule, mode: Mode, r: Result, ghost s: State, snap: Snapshot, pre: Lexeme)
    returns (r': Result)
    requires ctx.Valid() && r.Failure? && ctx.Fits(snap) && snap.tokenIndex == s.cursor
    requires OwnScope(s.errors, ctx.View().errors)
    modifies ctx, ctx.ts, ctx.sink, ctx.rc
    ensures ctx.Valid() && (r', ctx.View()) == HandleFailure(ctx.m, rule, mode, s, pre, r, old(ctx.View()))
  {
    OwnScopeOnTop(s.errors, ctx.View().errors);
    if mode.Probe? || r.kind.FailureNoMatch? {
      ctx.RestoreTokens(snap);
      ctx.PopErrors(false);
      return r;
    }
    if !r.consumeSyncToken && ctx.ts.cursor != snap.tokenIndex {
      ctx.PopErrors(true);
      return r;
    }
    NoteKeepsOwnScope(ctx.m, rule, s, pre, ctx.View(), s.errors);
    ctx.NoteFailure(rule, s, snap.tokenIndex, pre);
    OwnScopeOnTop(s.errors, ctx.View().errors);
    ctx.PopErrors(true);
    r' := ctx.RecoverRule(rule, s, r, snap);
  }

  // ------------------------------------------------------------------ rule bodies

  method RunRuleBody(ctx: ParseContext, rule: Rule, fuel: nat, turns: nat, ghost exec: Exec) returns (status: Status, r: Result)
    requires InBody(ctx) && IsEngine(ctx.m, exec, fuel)
    modifies ctx, ctx.ts, ctx.sink, ctx.rc
    ensures ctx.Valid() && Agrees(ctx, status, r, RunBody(ctx.m, exec, rule, old(ctx.View()), turns))
    decreases fuel, 3, turns, 2
  {
    if RunsBehindTokens(rule.body) {
      status, r := RunBehindTokens(ctx, rule, fuel, turns, exec);
    } else if RunsOneRule(rule.body) {
      status, r := RunOneRuleBody(ctx, rule, fuel, turns, exec);
    } else if RunsParts(rule.body) {
      status, r := RunPartsBody(ctx, rule, fuel, turns, exec);
    } else {
      status, r := RunOtherBody(ctx, rule, fuel, turns, exec);
    }
  }

  predicate RunsBehindTokens(b: Body) {
    b.OptionalWhen? || b.Predict? || b.Prefixed?
  }

  method RunOneRuleBody(ctx: ParseContext, rule: Rule, fuel: nat, turns: nat, ghost exec: Exec) returns (status: Status, r: Result)
    requires RunsOneRule(rule.body) && !RunsBehindTokens(rule.body)
    requires InBody(ctx) && IsEngine(ctx.m, exec, fuel)
    modifies ctx, ctx.ts, ctx.sink, ctx.rc
    ensures ctx.Valid() && Agrees(ctx, status, r, RunBody(ctx.m, exec, rule, old(ctx.View()), turns))
    decreases fuel, 3, turns, 1
  {
    match rule.body {
      case Optional(inner) => status, r := RunOptionalRule(ctx, inner, fuel, exec);
      case OptionalSuffix(kind, inner, suffix) => status, r := RunOptionalSuffix(ctx, kind, inner, suffix, fuel, exec);
      case Required(inner) => status, r := RunRequiredRule(ctx, rule, inner, fuel, exec);
      case RecoverSync(inner) => status, r := Execute(ctx, inner, Normal, fuel, exec);
    }
  }

  method RunBehindTokens(ctx: ParseContext, rule: Rule, fuel: nat, turns: nat, ghost exec: Exec) returns (status: Status, r: Result)
    requires RunsBehindTokens(rule.body)
    requires InBody(ctx) && IsEngine(ctx.m, exec, fuel)
    modifies ctx, ctx.ts, ctx.sink, ctx.rc
    ensures ctx.Valid() && Agrees(ctx, status, r, RunBody(ctx.m, exec, rule, old(ctx.View()), turns))
    decreases fuel, 3, turns, 1
  {
    match rule.body {
      case OptionalWhen(start, inner) => status, r := RunGuarded(ctx, start, inner, Success(None, false), fuel, exec);
      case Predict(when, inner) => status, r := RunGuarded(ctx, when, inner, NoMatch(), fuel, exec);
      case Prefixed(prefix, inner) => status, r := RunPrefixed(ctx, prefix, inner, fuel, exec);
    }
  }

  predicate RunsParts(b: Body) {
    b.Sequence? || b.Wrap? || b.Root? || b.Repetition? || b.BoundedRepetition?
  }

  method RunPartsBody(ctx: ParseContext, rule: Rule, fuel: nat, turns: nat, ghost exec: Exec) returns (status: Status, r: Result)
    requires RunsParts(rule.body)
    requires InBody(ctx) && IsEngine(ctx.m, exec, fuel)
    modifies ctx, ctx.ts, ctx.sink, ctx.rc
    ensures ctx.Valid() && Agrees(ctx, status, r, RunBody(ctx.m, exec, rule, old(ctx.View()), turns))
    decreases fuel, 3, turns, 1
  {
    match rule.body {
      case Sequence(kind, rules) => status, r := RunListCore(ctx, rule, kind, rules, fuel, exec);
      case Wrap(kind, inner) => status, r := RunListCore(ctx, rule, Some(kind), [inner], fuel, exec);
      case Root(kind, rules) => status, r := RunRootRule(ctx, rule, kind, rules, fuel, exec);
      case Repetition(kind, min, inner) => status, r := RunRepeat(ctx, kind, min, None, true, inner, fuel, turns, exec);
      case BoundedRepetition(kind, min, max, inner) => status, r := RunRepeat(ctx, kind, min, max, false, inner, fuel, turns, exec);
    }
  }

  method RunOtherBody(ctx: ParseContext, rule: Rule, fuel: nat, turns: nat, ghost exec: Exec) returns (status: Status, r: Result)
    requires !RunsOneRule(rule.body) && !RunsParts(rule.body)
    requires InBody(ctx) && IsEngine(ctx.m, exec, fuel)
    modifies ctx, ctx.ts, ctx.sink, ctx.rc
    ensures ctx.Valid() && Agrees(ctx, status, r, RunBody(ctx.m, exec, rule, old(ctx.View()), turns))
    decreases fuel, 3, turns, 1
  {
    match rule.body {
      case Expect(tokens, kind) => status, r := RunExpectToken(ctx, tokens, kind);
      case ListOf(spec, listKind, elementKind) => status, r := RunList(ctx, rule, spec, listKind, elementKind);
      case Nest(kind, open, close, inner) => status, r := RunNestRule(ctx, rule, kind, open, close, inner, fuel, exec);
      case Reference(target) => status, r := ExecuteReference(ctx, target, fuel, turns, exec);
      case Choice(rules) => status, r := RunChoiceRule(ctx, rules, fuel, exec);
    }
  }

  method RunExpectToken(ctx: ParseContext, tokens: seq<Token>, kind: Option<Kind>) returns (status: Status, r: Result)
    requires ctx.Valid()
    modifies ctx, ctx.ts, ctx.sink, ctx.rc
    ensures ctx.Valid() && Agrees(ctx, status, r, RunExpect(ctx.m, tokens, kind, old(ctx.View())))
  {
    var peeked := ctx.PeekToken();
    if peeked.token !in tokens {
      return Ran, NoMatch();
    }
    var value := ctx.TakeToken();
    if kind.None? {
      return Ran, Success(None, false);
    }
    var id := ctx.MakeNode();
    return Ran, Success(Some(Tree(id, kind.value, [value], [])), false);
  }

  /** ListResult, read off the automaton's flat answer. */
  function ListEnd(rule: Rule, listKind: Kind, elementKind: Kind, s: State,
                   ok: bool, started: bool, elements: seq<Lexeme>, blame: Lexeme): Outcome {
    var t := NewNodes(s, if started then 1 + |elements| else 0);
    if ok then Done(Success(Some(Tree(s.nextID + 1, listKind, [], Elements(elementKind, s.nextID + 2, elements))), false), t)
    else Done(Error(), ReportPosition(t, rule, blame.start))
  }

  lemma ListOutcome(m: Setup, rule: Rule, listKind: Kind, elementKind: Kind, s: State, run: ListRule.ListRun,
                    ok: bool, started: bool, at: Position, elements: seq<Lexeme>, blame: Lexeme)
    requires ListRule.Ends(ok, started, at, elements, blame, run) && (ok ==> started)
    ensures ListResult(m, rule, listKind, elementKind, s, run)
            == ListEnd(rule, listKind, elementKind, s.(cursor := at), ok, started, elements, blame)
  {
  }

  /** The automaton over the shared stream. */
  method ScanList(ctx: ParseContext, spec: ListRule.ListSpec)
    returns (ok: bool, started: bool, elements: seq<Lexeme>, blame: Lexeme)
    requires ctx.Valid()
    modifies ctx.ts
    ensures ctx.Valid() && ctx.View() == old(ctx.View()).(cursor := ctx.View().cursor) && (ok ==> started)
    ensures ListRule.Ends(ok, started, ctx.View().cursor, elements, blame, ListRule.RunList(ctx.m.src, old(ctx.View()).cursor, spec))
  {
    ok, started, elements, blame := ListRule.RunListRule(ctx.ts, spec, ctx.m.src, ctx.ts.cursor);
  }

  method RunList(ctx: ParseContext, rule: Rule, spec: ListRule.ListSpec, listKind: Kind, elementKind: Kind)
    returns (status: Status, r: Result)
    requires ctx.Valid()
    modifies ctx, ctx.ts, ctx.sink, ctx.rc
    ensures ctx.Valid() && Agrees(ctx, status, r, RunListOf(ctx.m, rule, spec, listKind, elementKind, old(ctx.View())))
  {
    ghost var s := ctx.View();
    var ok, started, elements, blame := ScanList(ctx, spec);
    ListOutcome(ctx.m, rule, listKind, elementKind, s, ListRule.RunList(ctx.m.src, s.cursor, spec), ok, started, ctx.View().cursor, elements, blame);
    r := EndList(ctx, rule, listKind, elementKind, ok, started, elements, blame);
    return Ran, r;
  }

  method EndList(ctx: ParseContext, rule: Rule, listKind: Kind, elementKind: Kind,
                 ok: bool, started: bool, elements: seq<Lexeme>, blame: Lexeme)
    returns (r: Result)
    requires ctx.Valid()
    modifies ctx, ctx.sink
    ensures ctx.Valid()
    ensures Agrees(ctx, Ran, r, ListEnd(rule, listKind, elementKind, old(ctx.View()), ok, started, elements, blame))
  {
    var first := ctx.nextID + 1;
    MakeNodes(ctx, if started then 1 + |elements| else 0);
    if !ok {
      ctx.ReportAt(rule, blame.start);
      return Error();
    }
    return Success(Some(Tree(first, listKind, [], Elements(elementKind, first + 1, elements))), false);
  }

  method MakeNodes(ctx: ParseContext, n: nat)
    requires ctx.Valid()
    modifies ctx
    ensures ctx.Valid() && ctx.View() == NewNodes(old(ctx.View()), n)
  {
    for i := 0 to n
      invariant ctx.Valid() && ctx.View() == NewNodes(old(ctx.View()), i)
    {
      var id := ctx.MakeNode();
    }
  }

  /** tryFollowSetInsertion and the verdict on a sequence element. */
  method JudgeElement(ctx: ParseContext, owner: Rule, element: Rule, startMarker: nat, r: Result) returns (kept: bool, r': Result)
    requires ctx.Valid()
    modifies ctx, ctx.ts, ctx.sink, ctx.rc
    ensures ctx.Valid()
    ensures Judge(ctx.m, owner, element, startMarker, r, old(ctx.View())) == if kept then Keep(r', ctx.View()) else Fail(r', ctx.View())
  {
    if r.Success? {
      return true, r;
    }
    var marker := ctx.StartMarker();
    var kind := CommitmentKind(startMarker, marker, r.kind);
    if kind.FailureError? && r.kind.FailureNoMatch? {
      var peeked := ctx.PeekToken();
      var inserted := ctx.m.analysis.Some? && element.nodePath.Some? && element.nodePath.value in ctx.m.follow
                      && peeked.token in ctx.m.follow[element.nodePath.value];
      ctx.ReportMissing(owner);
      if inserted {
        return true, Inserted(element);
      }
    }
    return false, Failure(kind, true);
  }

  /** listCore: runs the elements in order, stopping at the first that cannot be kept. */
  method RunListCore(ctx: ParseContext, owner: Rule, kind: Option<Kind>, rules: seq<Rule>, fuel: nat, ghost exec: Exec)
    returns (status: Status, r: Result)
    requires InBody(ctx) && IsEngine(ctx.m, exec, fuel)
    modifies ctx, ctx.ts, ctx.sink, ctx.rc
    ensures ctx.Valid()
    ensures Agrees(ctx, status, r, RunSequence(ctx.m, exec, owner, kind, rules, Marker(ctx.m, old(ctx.View())), [], old(ctx.View())))
    decreases fuel, 1
  {
    var startMarker := ctx.StartMarker();
    var children := [];
    ghost var goal := RunSequence(ctx.m, exec, owner, kind, rules, startMarker, [], ctx.View());
    for i := 0 to |rules|
      invariant ctx.Valid() && goal == RunSequence(ctx.m, exec, owner, kind, rules[i..], startMarker, children, ctx.View())
    {
      assert rules[i..][0] == rules[i] && rules[i..][1..] == rules[i + 1..];
      status, r := Execute(ctx, rules[i], Normal, fuel, exec);
      if !status.Ran? {
        return;
      }
      var kept, r' := JudgeElement(ctx, owner, rules[i], startMarker, r);
      if !kept {
        return Ran, r';
      }
      children := Attached(children, r');
    }
    r := CloseSequence(ctx, kind, children);
    return Ran, r;
  }

  method CloseSequence(ctx: ParseContext, kind: Option<Kind>, children: seq<Tree>) returns (r: Result)
    requires ctx.Valid()
    modifies ctx, ctx.ts, ctx.sink, ctx.rc
    ensures ctx.Valid() && Agrees(ctx, Ran, r, Close(kind, children, old(ctx.View())))
  {
    if kind.None? {
      return Fragment(children);
    }
    var id := ctx.MakeNode();
    return Success(Some(Tree(id, kind.value, [], children)), false);
  }

  method RunOptionalRule(ctx: ParseContext, inner: Rule, fuel: nat, ghost exec: Exec) returns (status: Status, r: Result)
    requires InBody(ctx) && IsEngine(ctx.m, exec, fuel)
    modifies ctx, ctx.ts, ctx.sink, ctx.rc
    ensures ctx.Valid() && Agrees(ctx, status, r, RunOptional(exec, inner, old(ctx.View())))
    decreases fuel, 1
  {
    status, r := Execute(ctx, inner, Probe, fuel, exec);
    if status.Ran? && r.Failure? {
      r := Success(None, false);
    }
  }

  /** A rule behind a lookahead: otherwise is the answer when the lookahead fails. */
  method RunGuarded(ctx: ParseContext, guard: Guard, inner: Rule, otherwise: Result, fuel: nat, ghost exec: Exec)
    returns (status: Status, r: Result)
    requires InBody(ctx) && IsEngine(ctx.m, exec, fuel)
    modifies ctx, ctx.ts, ctx.sink, ctx.rc
    ensures ctx.Valid()
    ensures Agrees(ctx, status, r, if Matches(Ahead(ctx.m, old(ctx.View())), guard) then exec(inner, Normal, old(ctx.View()))
                                   else Done(otherwise, old(ctx.View())))
    decreases fuel, 1
  {
    var ok := ctx.GuardHolds(guard);
    if !ok {
      return Ran, otherwise;
    }
    status, r := Execute(ctx, inner, Normal, fuel, exec);
  }

  method RunOptionalSuffix(ctx: ParseContext, kind: Kind, inner: Rule, suffix: Token, fuel: nat, ghost exec: Exec)
    returns (status: Status, r: Result)
    requires InBody(ctx) && IsEngine(ctx.m, exec, fuel)
    modifies ctx, ctx.ts, ctx.sink, ctx.rc
    ensures ctx.Valid() && Agrees(ctx, status, r, RunSuffix(ctx.m, exec, kind, inner, suffix, old(ctx.View())))
    decreases fuel, 1
  {
    status, r := Execute(ctx, inner, Normal, fuel, exec);
    if !status.Ran? || r.Failure? {
      return;
    }
    var peeked := ctx.PeekToken();
    if peeked.token != suffix {
      return;
    }
    var lexeme := ctx.TakeToken();
    var id := ctx.MakeNode();
    return Ran, Success(Some(Tree(id, kind, [lexeme], if r.node.Some? then [r.node.value] else [])), false);
  }

  method RunRequiredRule(ctx: ParseContext, owner: Rule, inner: Rule, fuel: nat, ghost exec: Exec) returns (status: Status, r: Result)
    requires InBody(ctx) && IsEngine(ctx.m, exec, fuel)
    modifies ctx, ctx.ts, ctx.sink, ctx.rc
    ensures ctx.Valid() && Agrees(ctx, status, r, RunRequired(ctx.m, exec, owner, inner, old(ctx.View())))
    decreases fuel, 1
  {
    status, r := Execute(ctx, inner, Normal, fuel, exec);
    if status.Ran? && r.Failure? && r.kind.FailureNoMatch? {
      ctx.ReportMissing(owner);
      r := Error();
    }
  }

  /** Root: the container first, then its parts; a part that fails after another succeeded is an error. */
  method RunRootRule(ctx: ParseContext, owner: Rule, kind: Kind, rules: seq<Rule>, fuel: nat, ghost exec: Exec)
    returns (status: Status, r: Result)
    requires InBody(ctx) && IsEngine(ctx.m, exec, fuel)
    modifies ctx, ctx.ts, ctx.sink, ctx.rc
    ensures ctx.Valid()
    ensures Agrees(ctx, status, r,
                   RunRoot(ctx.m, exec, owner, kind, old(ctx.View()).nextID + 1, rules, false, [], NewNode(old(ctx.View()))))
    decreases fuel, 1
  {
    var id := ctx.MakeNode();
    var committed, children := false, [];
    ghost var goal := RunRoot(ctx.m, exec, owner, kind, id, rules, false, [], ctx.View());
    for i := 0 to |rules|
      invariant ctx.Valid() && goal == RunRoot(ctx.m, exec, owner, kind, id, rules[i..], committed, children, ctx.View())
    {
      assert rules[i..][0] == rules[i] && rules[i..][1..] == rules[i + 1..];
      status, r := Execute(ctx, rules[i], Normal, fuel, exec);
      if !status.Ran? {
        return;
      }
      if r.Failure? {
        r := FailRoot(ctx, owner, committed, r);
        return;
      }
      children, committed := Attached(children, r), true;
    }
    return Ran, Success(Some(Tree(id, kind, [], children)), false);
  }

  method FailRoot(ctx: ParseContext, owner: Rule, committed: bool, r: Result) returns (r': Result)
    requires ctx.Valid() && r.Failure?
    modifies ctx, ctx.ts, ctx.sink, ctx.rc
    ensures ctx.Valid() && Agrees(ctx, Ran, r', RootFailure(ctx.m, owner, committed, r, old(ctx.View())))
  {
    if !committed || !r.kind.FailureNoMatch? {
      return r;
    }
    var reported := ctx.sink.HasCommittedErrorSinceEntryRuleScope();
    if !reported {
      ctx.ReportMissing(owner);
    }
    return Failure(FailureError, r.consumeSyncToken);
  }

  method RunRepeat(ctx: ParseContext, kind: Option<Kind>, min: nat, max: Option<nat>, retries: bool, inner: Rule,
                   fuel: nat, turns: nat, ghost exec: Exec)
    returns (status: Status, r: Result)
    requires InBody(ctx) && IsEngine(ctx.m, exec, fuel)
    modifies ctx, ctx.ts, ctx.sink, ctx.rc
    ensures ctx.Valid() && Agrees(ctx, status, r, RunRepetition(ctx.m, exec, kind, min, max, retries, inner, old(ctx.View()), turns))
    decreases fuel, 2
  {
    var id := ctx.nextID + 1;
    if kind.Some? {
      id := ctx.MakeNode();
    }
    var end := RunRepeatLoop(ctx, max, retries, inner, fuel, turns, exec);
    match end {
      case Ended(count, children) =>
        status := Ran;
        r := if count < min then NoMatch()
             else if kind.Some? then Success(Some(Tree(id, kind.value, [], children)), false)
             else Fragment(children);
      case Broken(failure) => status, r := Ran, failure;
      case Stopped(why) => status, r := why, NoMatch();
    }
  }

  /** How a repetition loop ended: with so many rounds, with a failure to pass on, or not at all. */
  datatype LoopEnd = Ended(count: nat, children: seq<Tree>) | Broken(failure: Result) | Stopped(why: Status)

  ghost predicate LoopAgrees(ctx: ParseContext, end: LoopEnd, spec: LoopOutcome)
    reads ctx, ctx.ts, ctx.sink, ctx.rc
  {
    match spec
    case LoopDone(count, children, s) => end == Ended(count, children) && ctx.View() == s
    case LoopFailed(r, s) => end == Broken(r) && ctx.View() == s
    case LoopPanicked => end == Stopped(Panic)
    case LoopOutOfFuel => end == Stopped(NoFuel)
  }

  /** handleRepetitionFailure, and the success case beside it; only the unbounded loop (retries) goes round after a recovered error. */
  method NextRound(ctx: ParseContext, retries: bool, count: nat, children: seq<Tree>, ghost before: State, beforeMarker: nat, r: Result)
    returns (again: bool, count': nat, children': seq<Tree>, end: LoopEnd)
    requires ctx.Valid() && beforeMarker == Marker(ctx.m, before)
    ensures match NextTurn(ctx.m, retries, count, children, before, r, ctx.View())
            case Again(n, more) => again && count' == n && children' == more
            case Stop(o) => !again && LoopAgrees(ctx, end, o)
  {
    count', children', end := count, children, Ended(count, children);
    if r.Success? {
      return true, count + 1, Attached(children, r), end;
    }
    if r.kind.FailureNoMatch? {
      return false, count, children, end;
    }
    var marker := ctx.StartMarker();
    if !r.consumeSyncToken || beforeMarker == marker {
      return false, count, children, Broken(r);
    }
    again := retries;
  }

  /** What one round of a loop makes of the loop's outcome. */
  lemma {:induction false} LoopUnfolds(m: Setup, exec: Exec, inner: Rule, max: Option<nat>, retries: bool, count: nat, children: seq<Tree>, s: State, left: nat)
    requires !(max.Some? && count >= max.value) && left > 0
    ensures RunLoop(m, exec, inner, max, retries, count, children, s, left) ==
            AfterRound(m, exec, inner, max, retries, count, children, s, left - 1, exec(inner, Normal, s))
  {
  }

  ghost function AfterRound(m: Setup, exec: Exec, inner: Rule, max: Option<nat>, retries: bool, count: nat, children: seq<Tree>, s: State,
                            left: nat, o: Outcome): LoopOutcome
  {
    match o
    case Done(r, t) =>
      (match NextTurn(m, retries, count, children, s, r, t)
       case Again(n, more) => RunLoop(m, exec, inner, max, retries, n, more, t, left)
       case Stop(e) => e)
    case Panicked => LoopPanicked
    case OutOfFuel => LoopOutOfFuel
  }

  /** One round: either the loop goes on from the new state, or it ends there. */
  method RunRound(ctx: ParseContext, max: Option<nat>, retries: bool, inner: Rule, count: nat, children: seq<Tree>,
                  fuel: nat, ghost left: nat, ghost exec: Exec)
    returns (again: bool, count': nat, children': seq<Tree>, end: LoopEnd)
    requires ctx.Valid() && IsEngine(ctx.m, exec, fuel)
    modifies ctx, ctx.ts, ctx.sink, ctx.rc
    ensures ctx.Valid()
    ensures var o := AfterRound(ctx.m, exec, inner, max, retries, count, children, old(ctx.View()), left, exec(inner, Normal, old(ctx.View())));
            if again then o == RunLoop(ctx.m, exec, inner, max, retries, count', children', ctx.View(), left)
            else LoopAgrees(ctx, end, o)
    decreases fuel, 1
  {
    ghost var before := ctx.View();
    var beforeMarker := ctx.StartMarker();
    var status, r := Execute(ctx, inner, Normal, fuel, exec);
    if !status.Ran? {
      return false, count, children, Stopped(status);
    }
    again, count', children', end := NextRound(ctx, retries, count, children, before, beforeMarker, r);
  }

  /** Both repetition loops. */
  method RunRepeatLoop(ctx: ParseContext, max: Option<nat>, retries: bool, inner: Rule, fuel: nat, turns: nat, ghost exec: Exec)
    returns (end: LoopEnd)
    requires ctx.Valid() && IsEngine(ctx.m, exec, fuel)
    modifies ctx, ctx.ts, ctx.sink, ctx.rc
    ensures ctx.Valid() && LoopAgrees(ctx, end, RunLoop(ctx.m, exec, inner, max, retries, 0, [], old(ctx.View()), turns))
    decreases fuel, 2, 0
  {
    var count: nat, children, left := 0, [], turns;
    ghost var goal := RunLoop(ctx.m, exec, inner, max, retries, 0, [], ctx.View(), turns);
    while max.None? || count < max.value
      invariant ctx.Valid() && goal == RunLoop(ctx.m, exec, inner, max, retries, count, children, ctx.View(), left)
      decreases left
    {
      if left == 0 {
        return Stopped(NoFuel);
      }
      LoopUnfolds(ctx.m, exec, inner, max, retries, count, children, ctx.View(), left);
      left := left - 1;
      var again;
      again, count, children, end := RunRound(ctx, max, retries, inner, count, children, fuel, left, exec);
      if !again {
        return;
      }
    }
    return Ended(count, children);
  }

  /** executeInnerWithCommitmentFailure. */
  method RunInner(ctx: ParseContext, inner: Rule, fuel: nat, ghost exec: Exec) returns (status: Status, r: Result)
    requires ctx.Valid() && IsEngine(ctx.m, exec, fuel)
    modifies ctx, ctx.ts, ctx.sink, ctx.rc
    ensures ctx.Valid() && Agrees(ctx, status, r, RunCommitted(ctx.m, exec, inner, old(ctx.View())))
    decreases fuel, 1
  {
    var startMarker := ctx.StartMarker();
    status, r := Execute(ctx, inner, Normal, fuel, exec);
    if status.Ran? && r.Failure? {
      var marker := ctx.StartMarker();
      r := Failure(CommitmentKind(startMarker, marker, r.kind), true);
    }
  }

  method RunPrefixed(ctx: ParseContext, prefix: Token, inner: Rule, fuel: nat, ghost exec: Exec) returns (status: Status, r: Result)
    requires InBody(ctx) && IsEngine(ctx.m, exec, fuel)
    modifies ctx, ctx.ts, ctx.sink, ctx.rc
    ensures ctx.Valid()
    ensures Agrees(ctx, status, r, if Peek(ctx.m, old(ctx.View())).token == prefix
                                   then RunCommitted(ctx.m, exec, inner, Take(ctx.m, old(ctx.View()))) else Done(NoMatch(), old(ctx.View())))
    decreases fuel, 2
  {
    var peeked := ctx.PeekToken();
    if peeked.token != prefix {
      return Ran, NoMatch();
    }
    var taken := ctx.TakeToken();
    status, r := RunInner(ctx, inner, fuel, exec);
  }

  /** After the inner rule of a nest the region opened for it is the innermost entry again. */
  lemma RegionOnTop(m: Setup, exec: Exec, inner: Rule, s: State)
    requires Transactional(m, exec) && Ready(m, s) && HasScope(s.errors.entries)
    ensures var c := RunCommitted(m, exec, inner, Opened(m, s));
            c.Done? ==> c.state.errors.entries != [] && c.state.errors.entries[|c.state.errors.entries| - 1].Region?
                        && HasScope(c.state.errors.entries)
  {
    InnerInRegion(m, exec, inner, s);
    var c := RunCommitted(m, exec, inner, Opened(m, s));
    if c.Done? {
      var start := Peek(m, s).start;
      RegionInScope(m, s, start, c.state);
      var errs, reports :| c.state.errors == Effect(PushRegion(s.errors, start), errs, reports);
      RegionEffect(s.errors, start, errs, reports);
    }
  }

  method RunNestRule(ctx: ParseContext, owner: Rule, kind: Option<Kind>, open: Token, close: Token, inner: Rule, fuel: nat, ghost exec: Exec)
    returns (status: Status, r: Result)
    requires InBody(ctx) && IsEngine(ctx.m, exec, fuel)
    modifies ctx, ctx.ts, ctx.sink, ctx.rc
    ensures ctx.Valid() && Agrees(ctx, status, r, RunNest(ctx.m, exec, owner, kind, open, close, inner, old(ctx.View())))
    decreases fuel, 2
  {
    var opening := ctx.PeekToken();
    if opening.token != open {
      return Ran, NoMatch();
    }
    ghost var s := ctx.View();
    var taken := ctx.TakeToken();
    ctx.OpenRegion(opening.start);
    status, r := RunInNest(ctx, inner, fuel, exec, s);
    if status.Ran? {
      r := FinishNest(ctx, owner, kind, close, r);
    }
  }

  /** The inner rule, between the delimiters: the region is on top again when it answers. */
  method RunInNest(ctx: ParseContext, inner: Rule, fuel: nat, ghost exec: Exec, ghost s: State) returns (status: Status, r: Result)
    requires ctx.Valid() && IsEngine(ctx.m, exec, fuel)
    requires Ready(ctx.m, s) && HasScope(s.errors.entries) && ctx.View() == Opened(ctx.m, s)
    modifies ctx, ctx.ts, ctx.sink, ctx.rc
    ensures ctx.Valid() && Agrees(ctx, status, r, RunCommitted(ctx.m, exec, inner, Opened(ctx.m, s)))
    ensures status.Ran? ==> RegionTop(ctx)
    decreases fuel, 2, 0
  {
    RegionOnTop(ctx.m, exec, inner, s);
    status, r := RunInner(ctx, inner, fuel, exec);
  }

  ghost predicate RegionTop(ctx: ParseContext)
    reads ctx, ctx.ts, ctx.sink, ctx.rc
  {
    InBody(ctx) && ctx.sink.entries != [] && ctx.sink.entries[|ctx.sink.entries| - 1].Region?
  }

  /** enforceNestClose when the delimiter is missing: silent if an error in the region explains it. */
  method ReportUnclosed(ctx: ParseContext, owner: Rule)
    requires RegionTop(ctx)
    modifies ctx, ctx.ts, ctx.sink, ctx.rc
    ensures RegionTop(ctx) && ctx.View() == CloseMissing(ctx.m, owner, old(ctx.View()))
  {
    var peek := ctx.PeekToken();
    var explained := ctx.sink.HasCommittedErrorInsideCurrentDelimiterBoundary();
    if !explained {
      ghost var es, best := ctx.sink.entries, Improve(BestOf(ctx.sink.entries), SyntaxError(false, peek.start, owner.grammarLabel));
      SetBestShape(es, best);
      SetBestTwice(es, best, best);
      ctx.ReportAt(owner, peek.start);
    }
  }

  /** enforceNestClose and the node. */
  method TakeClose(ctx: ParseContext, owner: Rule, kind: Option<Kind>, close: Token, r: Result) returns (r': Result)
    requires RegionTop(ctx)
    modifies ctx, ctx.ts, ctx.sink, ctx.rc
    ensures RegionTop(ctx) && (r', ctx.View()) == BeforeClose(ctx.m, owner, kind, close, r, old(ctx.View()))
  {
    if r.Failure? {
      return r;
    }
    var peek := ctx.PeekToken();
    if peek.token != close {
      ReportUnclosed(ctx, owner);
      return Error();
    }
    var taken := ctx.TakeToken();
    if kind.None? {
      return r;
    }
    var id := ctx.MakeNode();
    return Success(Some(Tree(id, kind.value, [], Attached([], r))), false);
  }

  /** And the deferred PopDelimiterBoundary. */
  method FinishNest(ctx: ParseContext, owner: Rule, kind: Option<Kind>, close: Token, r: Result) returns (r': Result)
    requires RegionTop(ctx)
    modifies ctx, ctx.ts, ctx.sink, ctx.rc
    ensures ctx.Valid() && Agrees(ctx, Ran, r', CloseNest(ctx.m, owner, kind, close, r, old(ctx.View())))
  {
    r' := TakeClose(ctx, owner, kind, close, r);
    ctx.CloseRegion();
  }

  /** What a reference makes of its target's body. */
  function AfterTarget(o: Outcome): Outcome {
    match o
    case Done(r, t) => Done(r, WithoutTopRecovery(t))
    case Panicked => Panicked
    case OutOfFuel => OutOfFuel
  }

  lemma {:induction false} ReferenceIs(m: Setup, exec: Exec, target: Label, s: State, turns: nat)
    requires target in m.registry && turns > 0
    ensures RunReference(m, exec, target, s, turns) ==
            AfterTarget(RunBody(m, exec, m.registry[target], WithRecovery(m.registry[target], s), turns - 1))
  {
  }

  method RunTarget(ctx: ParseContext, rule: Rule, fuel: nat, turns: nat, ghost exec: Exec) returns (status: Status, r: Result)
    requires InBody(ctx) && IsEngine(ctx.m, exec, fuel)
    modifies ctx, ctx.ts, ctx.sink, ctx.rc
    ensures ctx.Valid() && Agrees(ctx, status, r, AfterTarget(RunBody(ctx.m, exec, rule, WithRecovery(rule, old(ctx.View())), turns)))
    decreases fuel, 3, turns, 3
  {
    ctx.PushTargetRecovery(rule);
    status, r := RunRuleBody(ctx, rule, fuel, turns, exec);
    if status.Ran? {
      ctx.PopTargetRecovery();
    }
  }

  /** ExecuteReference: no envelope of its own, only the target's recovery set. */
  method ExecuteReference(ctx: ParseContext, target: Label, fuel: nat, turns: nat, ghost exec: Exec) returns (status: Status, r: Result)
    requires InBody(ctx) && IsEngine(ctx.m, exec, fuel)
    modifies ctx, ctx.ts, ctx.sink, ctx.rc
    ensures ctx.Valid() && Agrees(ctx, status, r, RunReference(ctx.m, exec, target, old(ctx.View()), turns))
    decreases fuel, 3, turns, 0
  {
    if target !in ctx.m.registry {
      return Panic, NoMatch();
    }
    if turns == 0 {
      return NoFuel, NoMatch();
    }
    ReferenceIs(ctx.m, exec, target, ctx.View(), turns);
    status, r := RunTarget(ctx, ctx.m.registry[target], fuel, turns - 1, exec);
  }

  // ----------------------------------------------------------------------- choice

  /** executeChoiceLoop: the arms the analysis leaves, or all of them, in order. */
  method RunChoiceRule(ctx: ParseContext, rules: seq<Rule>, fuel: nat, ghost exec: Exec) returns (status: Status, r: Result)
    requires InBody(ctx) && IsEngine(ctx.m, exec, fuel)
    modifies ctx, ctx.ts, ctx.sink, ctx.rc
    ensures ctx.Valid() && Agrees(ctx, status, r, RunChoice(ctx.m, exec, rules, old(ctx.View())))
    decreases fuel, 2
  {
    var d := ChoiceDispatch.ChoiceCandidateIndices(ctx.m.analysis, Arms(rules), VisibleFrom(ctx.m.src, ctx.ts.cursor));
    if d.NoArm? {
      return Ran, NoMatch();
    }
    status, r := RunChoiceLoop(ctx, if d.Candidates? then Selected(rules, d.indices) else rules, fuel, exec);
  }

  method RunChoiceLoop(ctx: ParseContext, rules: seq<Rule>, fuel: nat, ghost exec: Exec) returns (status: Status, r: Result)
    requires ctx.Valid() && IsEngine(ctx.m, exec, fuel)
    modifies ctx, ctx.ts, ctx.sink, ctx.rc
    ensures ctx.Valid() && Agrees(ctx, status, r, RunArms(exec, rules, old(ctx.View())))
    decreases fuel, 1
  {
    ghost var goal := RunArms(exec, rules, ctx.View());
    for i := 0 to |rules|
      invariant ctx.Valid() && goal == RunArms(exec, rules[i..], ctx.View())
    {
      assert rules[i..][0] == rules[i] && rules[i..][1..] == rules[i + 1..];
      status, r := Execute(ctx, rules[i], Normal, fuel, exec);
      if !status.Ran? || r.Success? || r.kind.FailureError? {
        return;
      }
    }
    return Ran, NoMatch();
  }
}
