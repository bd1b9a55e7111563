/**
 Running rules: every rule goes through one envelope that snapshots the state, installs
 its recovery set and an error scope, and on failure rolls back or recovers. This is the
 specification the running parser engine is proved against.
 */
module Engine {
  import opened Languages
  import opened Grammars
  import opened Guards
  import opened TokenStreams
  import opened Sources
  import opened ErrorScopes
  import opened Recovery
  import opened Rules
  import ErrorBuffer
  import ListRule
  import ChoiceDispatch

  // ---------------------------------------------------------------------- state

  /** What stays fixed during a parse. */
  datatype Setup = Setup(
    src: Source,
    registry: Registry,
    program: Label,
    analysis: Option<Analysis>,
    follow: map<Path, set<Token>>,
    errorKind: Kind)

  /** Everything rules change. created is the ledger of nodes handed out and not taken back. */
  datatype State = State(
    cursor: nat,
    errors: Nested,
    recovery: seq<RecoverySet>,
    created: seq<nat>,
    nextID: nat,
    entryDepth: nat,
    baseline: nat)

  /** A syntax tree node; transient containers carry no id. */
  datatype Tree = Tree(id: nat, kind: Kind, tokens: seq<Lexeme>, children: seq<Tree>)

  const TRANSIENT: nat := 0
  const NO_KIND: Kind := 0

  datatype FailureKind = FailureError | FailureNoMatch

  datatype Result =
    | Success(node: Option<Tree>, isFragment: bool)
    | Failure(kind: FailureKind, consumeSyncToken: bool)

  datatype Mode = Normal | Probe

  datatype Outcome =
    | Done(result: Result, state: State)
    | Panicked
    | OutOfFuel

  // --------------------------------------------------------------- small actions

  /** Positions past the slice read as end of file. */
  function Clamped(m: Setup, s: State): Position {
    if s.cursor <= |m.src.lexemes| then s.cursor else |m.src.lexemes|
  }

  function Peek(m: Setup, s: State): Lexeme {
    PeekAt(m.src, Clamped(m, s), 0)
  }

  function Ahead(m: Setup, s: State): Stream {
    VisibleFrom(m.src, Clamped(m, s))
  }

  /** The marker commitment is measured by: the start offset of the next raw lexeme, zero at the end of input. */
  function Marker(m: Setup, s: State): nat {
    PeekRawAt(m.src, s.cursor).start
  }

  function Take(m: Setup, s: State): State {
    s.(cursor := Advance(m.src, Clamped(m, s)))
  }

  function NewNode(s: State): State {
    s.(nextID := s.nextID + 1, created := s.created + [s.nextID + 1])
  }

  function NewNodes(s: State, n: nat): State {
    if n == 0 then s else NewNode(NewNodes(s, n - 1))
  }

  function ReportPosition(s: State, rule: Rule, position: nat): State {
    s.(errors := Report(s.errors, SyntaxError(false, position, rule.grammarLabel)))
  }

  /** Expectations are reported at the end of the last lexeme, or at the current one when there is none. */
  function ReportExpected(m: Setup, s: State, rule: Rule): State {
    if 0 < s.cursor <= |m.src.lexemes| then ReportPosition(s, rule, m.src.lexemes[s.cursor - 1].end)
    else ReportPosition(s, rule, Peek(m, s).start)
  }

  /** AttachResult: a fragment hands over its children. */
  function Attached(children: seq<Tree>, r: Result): seq<Tree>
    requires r.Success?
  {
    if r.node.None? then children
    else if r.isFragment then children + r.node.value.children
    else children + [r.node.value]
  }

  function Fragment(children: seq<Tree>): Result {
    Success(Some(Tree(TRANSIENT, NO_KIND, [], children)), true)
  }

  function NoMatch(): Result {
    Failure(FailureNoMatch, true)
  }

  function Error(): Result {
    Failure(FailureError, true)
  }

  /** sequenceCommitmentFailureKind. */
  function CommitmentKind(startMarker: nat, marker: nat, kind: FailureKind): FailureKind {
    if kind.FailureNoMatch? && startMarker == marker then FailureNoMatch else FailureError
  }

  // ----------------------------------------------------------------- the envelope

  /** The recovery set and the entry scope of a rule about to run. */
  function Installed(m: Setup, rule: Rule, mode: Mode, s: State): State {
    var entry := mode.Normal? && rule.grammarLabel == m.program;
    s.(recovery := if mode.Normal? then s.recovery + [RecoverySet(rule.recoveryTokens, rule.noConsumeTokens, rule.isBarrier)] else s.recovery,
       entryDepth := if entry then s.entryDepth + 1 else s.entryDepth,
       baseline := if entry && s.entryDepth == 0 then |ErrorBuffer.Flight(s.errors.entries)| else s.baseline)
  }

  /** And the error scope on top. */
  function Enter(m: Setup, rule: Rule, mode: Mode, s: State): State {
    var t := Installed(m, rule, mode, s);
    t.(errors := PushScope(t.errors))
  }

  /** The deferred pops. */
  function Leave(m: Setup, rule: Rule, mode: Mode, s: State): State {
    s.(recovery := if mode.Normal? && s.recovery != [] then s.recovery[..|s.recovery| - 1] else s.recovery,
       entryDepth := if mode.Normal? && rule.grammarLabel == m.program && s.entryDepth > 0 then s.entryDepth - 1 else s.entryDepth)
  }

  /** Pops the innermost error scope. */
  function Pop(s: State, commit: bool): State {
    var es := s.errors.entries;
    if es != [] && es[|es| - 1].Scope? then s.(errors := PopScope(s.errors, commit)) else s
  }

  function PopRegionOf(s: State): State {
    var es := s.errors.entries;
    if es != [] && es[|es| - 1].Region? then s.(errors := PopRegion(s.errors)) else s
  }

  function Truncated(s: State, n: nat): State {
    if n <= |s.created| then s.(created := s.created[..n]) else s
  }

  /** The engine's own message, unless the scope already has a better-placed one. */
  function NoteUnexpected(m: Setup, rule: Rule, start: State, pre: Lexeme, s: State): State {
    var es := s.errors.entries;
    var empty := !HasScope(es) || (BestOf(es).None? && ErrorBuffer.SinceScope(es) == []);
    var atStart := HasScope(es) && BestOf(es).Some? && BestOf(es).value.position == start.cursor;
    if rule.grammarLabel == m.program || OwnRecovery(s.recovery, [m.src.eof], pre.token) || !(empty || atStart) || !HasScope(es) then s
    else
      var found := if s.cursor != start.cursor then Peek(m, s) else pre;
      s.(errors := s.errors.(entries := SetBest(es, Some(SyntaxError(false, found.start, rule.grammarLabel)))))
  }

  ghost function Landing(m: Setup, s: State): Option<nat> {
    FirstLanding(m.src.lexemes[Clamped(m, s)..], m.src.eof, Sync(s.recovery, [m.src.eof], true))
  }

  /** At the token recovery landed on: take it or leave it, and let a barrier that owns it succeed with an error node. */
  ghost function Landed(m: Setup, rule: Rule, s: State): (Result, State) {
    var token := PeekRawAt(m.src, s.cursor).token;
    var consume := !LeftInPlace(s.recovery, token);
    var t := s.(cursor := if consume then s.cursor + 1 else s.cursor);
    if rule.isBarrier && (token in rule.recoveryTokens || token in rule.noConsumeTokens) then
      (Success(Some(Tree(t.nextID + 1, m.errorKind, [], [])), false), NewNode(t))
    else (Failure(FailureError, consume), t)
  }

  /** performRecovery and what follows it; s is the state at the failure, errors already committed. */
  ghost function Recovered(m: Setup, rule: Rule, start: State, r: Result, s: State): (Result, State) {
    match Landing(m, s)
    case None => (r, s.(cursor := start.cursor))
    case Some(n) => Landed(m, rule, s.(cursor := Clamped(m, s) + n))
  }

  /** handleFailureState; s still holds the rule's own scope and recovery set. */
  ghost function HandleFailure(m: Setup, rule: Rule, mode: Mode, start: State, pre: Lexeme, r: Result, s: State): (Result, State)
    requires r.Failure?
  {
    if mode.Probe? || r.kind.FailureNoMatch? then (r, Pop(s.(cursor := start.cursor), false))
    else if !r.consumeSyncToken && s.cursor != start.cursor then (r, Pop(s, true))
    else Recovered(m, rule, start, r, Pop(NoteUnexpected(m, rule, start, pre, s), true))
  }

  /** The contract a rule is held to: that of the production its grammar node refers to, if it does and there is one. */
  function ContractOf(m: Setup, rule: Rule): Contract {
    var target := ReferenceOf(rule);
    if target.Some? && target.value in m.registry then m.registry[target.value].contract else rule.contract
  }

  /** A rule breaks its contract by succeeding without input or without a node it promised. */
  predicate Violates(m: Setup, rule: Rule, start: State, pre: Lexeme, r: Result, s: State)
    requires r.Success?
  {
    || (s.cursor == start.cursor && ContractOf(m, rule).mustConsume && pre.token != m.src.eof)
    || (r.node.None? && ContractOf(m, rule).mustReturnNode)
  }

  /** How bodies run the rules inside them. */
  type Exec = (Rule, Mode, State) -> Outcome

  /** syntaxaParserExecuteRule around a body that runs its inner rules by exec. */
  ghost function RunEnvelope(m: Setup, exec: Exec, rule: Rule, mode: Mode, s: State, turns: nat): Outcome {
    match RunBody(m, exec, rule, Enter(m, rule, mode, s), turns)
    case Done(r, t) =>
      if r.Success? then
        if Violates(m, rule, s, Peek(m, s), r, t) then Panicked else Done(r, Leave(m, rule, mode, Pop(t, true)))
      else
        var (r', u) := HandleFailure(m, rule, mode, s, Peek(m, s), r, Truncated(t, |s.created|));
        Done(r', Leave(m, rule, mode, u))
    case Panicked => Panicked
    case OutOfFuel => OutOfFuel
  }

  /** The engine: rules nest at most fuel deep, and no loop or reference chain takes more than fuel turns. */
  ghost function ExecuteRule(m: Setup, rule: Rule, mode: Mode, s: State, fuel: nat): Outcome
    decreases fuel
  {
    if fuel == 0 then OutOfFuel
    else RunEnvelope(m, (r: Rule, md: Mode, st: State) => ExecuteRule(m, r, md, st, fuel - 1), rule, mode, s, fuel - 1)
  }

  // ------------------------------------------------------------------ rule bodies

  ghost function RunBody(m: Setup, exec: Exec, rule: Rule, s: State, turns: nat): Outcome
    decreases turns, 1
  {
    match rule.body
    case Expect(tokens, kind) => RunExpect(m, tokens, kind, s)
    case ListOf(spec, listKind, elementKind) => RunListOf(m, rule, spec, listKind, elementKind, s)
    case Sequence(kind, rules) => RunSequence(m, exec, rule, kind, rules, Marker(m, s), [], s)
    case Wrap(kind, inner) => RunSequence(m, exec, rule, Some(kind), [inner], Marker(m, s), [], s)
    case Optional(inner) => RunOptional(exec, inner, s)
    case OptionalWhen(start, inner) =>
      if Matches(Ahead(m, s), start) then exec(inner, Normal, s) else Done(Success(None, false), s)
    case Predict(when, inner) =>
      if Matches(Ahead(m, s), when) then exec(inner, Normal, s) else Done(NoMatch(), s)
    case OptionalSuffix(kind, inner, suffix) => RunSuffix(m, exec, kind, inner, suffix, s)
    case Required(inner) => RunRequired(m, exec, rule, inner, s)
    case Root(kind, rules) => RunRoot(m, exec, rule, kind, s.nextID + 1, rules, false, [], NewNode(s))
    case Repetition(kind, min, inner) => RunRepetition(m, exec, kind, min, None, true, inner, s, turns)
    case BoundedRepetition(kind, min, max, inner) => RunRepetition(m, exec, kind, min, max, false, inner, s, turns)
    case Nest(kind, open, close, inner) => RunNest(m, exec, rule, kind, open, close, inner, s)
    case Reference(target) => RunReference(m, exec, target, s, turns)
    case RecoverSync(inner) => exec(inner, Normal, s)
    case Prefixed(prefix, inner) =>
      if Peek(m, s).token == prefix then RunCommitted(m, exec, inner, Take(m, s)) else Done(NoMatch(), s)
    case Choice(rules) => RunChoice(m, exec, rules, s)
  }

  function RunExpect(m: Setup, tokens: seq<Token>, kind: Option<Kind>, s: State): Outcome {
    var l := Peek(m, s);
    if l.token !in tokens then Done(NoMatch(), s)
    else if kind.None? then Done(Success(None, false), Take(m, s))
    else Done(Success(Some(Tree(s.nextID + 1, kind.value, [l], [])), false), NewNode(Take(m, s)))
  }

  /** One node per element lexeme, numbered in order after the list node. */
  function Elements(kind: Kind, first: nat, ls: seq<Lexeme>): seq<Tree> {
    seq(|ls|, i requires 0 <= i < |ls| => Tree(first + i, kind, [ls[i]], []))
  }

  /** The node of an accepted list, or the error of a rejected one; the nodes made so far are numbered either way. */
  function ListResult(m: Setup, rule: Rule, listKind: Kind, elementKind: Kind, s: State, run: ListRule.ListRun): Outcome {
    match run
    case Accepted(at, elements) =>
      Done(Success(Some(Tree(s.nextID + 1, listKind, [], Elements(elementKind, s.nextID + 2, elements))), false),
           NewNodes(s.(cursor := at), 1 + |elements|))
    case Rejected(at, blame, made) =>
      Done(Error(), ReportPosition(NewNodes(s.(cursor := at), made), rule, blame.start))
  }

  function RunListOf(m: Setup, rule: Rule, spec: ListRule.ListSpec, listKind: Kind, elementKind: Kind, s: State): Outcome {
    ListResult(m, rule, listKind, elementKind, s, ListRule.RunList(m.src, Clamped(m, s), spec))
  }

  /** tryFollowSetInsertion: the failed rule may be skipped when the next token can follow it. */
  predicate CanInsert(m: Setup, failed: Rule, s: State) {
    && m.analysis.Some? && failed.nodePath.Some?
    && failed.nodePath.value in m.follow && Peek(m, s).token in m.follow[failed.nodePath.value]
  }

  function Inserted(failed: Rule): Result {
    Success(if failed.contract.mustReturnNode then Some(Tree(TRANSIENT, NO_KIND, [], [])) else None, false)
  }

  /** What a sequence makes of an element's outcome: go on with its result, or fail with the kind its progress calls for. */
  datatype Verdict = Keep(result: Result, state: State) | Fail(result: Result, state: State)

  function Judge(m: Setup, owner: Rule, element: Rule, startMarker: nat, r: Result, s: State): (v: Verdict)
    ensures v.Keep? ==> v.result.Success?
    ensures v.Fail? ==> v.result.Failure?
  {
    if r.Success? then Keep(r, s) else
    var kind := CommitmentKind(startMarker, Marker(m, s), r.kind);
    if kind.FailureError? && r.kind.FailureNoMatch? then
      if CanInsert(m, element, s) then Keep(Inserted(element), ReportExpected(m, s, owner))
      else Fail(Failure(kind, true), ReportExpected(m, s, owner))
    else Fail(Failure(kind, true), s)
  }

  /** The node of a finished sequence, or its children as a fragment. */
  function Close(kind: Option<Kind>, children: seq<Tree>, s: State): Outcome {
    if kind.None? then Done(Fragment(children), s)
    else Done(Success(Some(Tree(s.nextID + 1, kind.value, [], children)), false), NewNode(s))
  }

  /** listCore, and its transparent form when there is no kind. */
  ghost function RunSequence(m: Setup, exec: Exec, owner: Rule, kind: Option<Kind>, rules: seq<Rule>, startMarker: nat,
                             children: seq<Tree>, s: State): Outcome
    decreases |rules|
  {
    if rules == [] then Close(kind, children, s)
    else match exec(rules[0], Normal, s)
    case Done(r, t) =>
      (match Judge(m, owner, rules[0], startMarker, r, t)
       case Keep(kept, u) => RunSequence(m, exec, owner, kind, rules[1..], startMarker, Attached(children, kept), u)
       case Fail(r', u) => Done(r', u))
    case Panicked => Panicked
    case OutOfFuel => OutOfFuel
  }

  /** Whatever goes wrong in a probe, an optional rule succeeds. */
  ghost function RunOptional(exec: Exec, inner: Rule, s: State): Outcome {
    match exec(inner, Probe, s)
    case Done(r, t) => if r.Success? then Done(r, t) else Done(Success(None, false), t)
    case Panicked => Panicked
    case OutOfFuel => OutOfFuel
  }

  function TakeSuffix(m: Setup, kind: Kind, suffix: Token, r: Result, t: State): Outcome {
    if r.Failure? || Peek(m, t).token != suffix then Done(r, t)
    else
      Done(Success(Some(Tree(t.nextID + 1, kind, [Peek(m, t)], if r.node.Some? then [r.node.value] else [])), false),
           NewNode(Take(m, t)))
  }

  ghost function RunSuffix(m: Setup, exec: Exec, kind: Kind, inner: Rule, suffix: Token, s: State): Outcome {
    match exec(inner, Normal, s)
    case Done(r, t) => TakeSuffix(m, kind, suffix, r, t)
    case Panicked => Panicked
    case OutOfFuel => OutOfFuel
  }

  /** A rule that must match turns "no match" into an error. */
  function Demand(m: Setup, owner: Rule, r: Result, t: State): Outcome {
    if r.Failure? && r.kind.FailureNoMatch? then Done(Error(), ReportExpected(m, t, owner)) else Done(r, t)
  }

  ghost function RunRequired(m: Setup, exec: Exec, owner: Rule, inner: Rule, s: State): Outcome {
    match exec(inner, Normal, s)
    case Done(r, t) => Demand(m, owner, r, t)
    case Panicked => Panicked
    case OutOfFuel => OutOfFuel
  }

  /** handleRootFailure, with its diagnostic unless the entry rule already has one. */
  function RootFailure(m: Setup, owner: Rule, committed: bool, r: Result, t: State): Outcome
    requires r.Failure?
  {
    if committed && r.kind.FailureNoMatch? then
      Done(Failure(FailureError, r.consumeSyncToken),
           if |ErrorBuffer.Flight(t.errors.entries)| > t.baseline then t else ReportExpected(m, t, owner))
    else Done(r, t)
  }

  ghost function RunRoot(m: Setup, exec: Exec, owner: Rule, kind: Kind, id: nat, rules: seq<Rule>, committed: bool,
                         children: seq<Tree>, s: State): Outcome
    decreases |rules|
  {
    if rules == [] then Done(Success(Some(Tree(id, kind, [], children)), false), s)
    else match exec(rules[0], Normal, s)
    case Done(r, t) =>
      if r.Success? then RunRoot(m, exec, owner, kind, id, rules[1..], true, Attached(children, r), t)
      else RootFailure(m, owner, committed, r, t)
    case Panicked => Panicked
    case OutOfFuel => OutOfFuel
  }

  /** The container of a repetition is made before its first round, so its id comes first. */
  function CloseLoop(kind: Option<Kind>, id: nat, min: nat, o: LoopOutcome): Outcome {
    match o
    case LoopDone(count, children, t) =>
      if count < min then Done(NoMatch(), t)
      else if kind.Some? then Done(Success(Some(Tree(id, kind.value, [], children)), false), t)
      else Done(Fragment(children), t)
    case LoopFailed(r, t) => Done(r, t)
    case LoopPanicked => Panicked
    case LoopOutOfFuel => OutOfFuel
  }

  ghost function RunRepetition(m: Setup, exec: Exec, kind: Option<Kind>, min: nat, max: Option<nat>, retries: bool, inner: Rule,
                               s: State, turns: nat): Outcome
  {
    CloseLoop(kind, s.nextID + 1, min, RunLoop(m, exec, inner, max, retries, 0, [], if kind.Some? then NewNode(s) else s, turns))
  }

  datatype LoopOutcome =
    | LoopDone(count: nat, children: seq<Tree>, state: State)
    | LoopFailed(result: Result, state: State)
    | LoopPanicked
    | LoopOutOfFuel

  /** What a repetition does after one run of its body. */
  datatype Turn = Again(count: nat, children: seq<Tree>) | Stop(outcome: LoopOutcome)

  /**
   handleRepetitionFailure and its unbounded counterpart. After a recovered error that moved
   on, the unbounded loop (retries) goes round again, the bounded one stops with what it has.
   */
  function NextTurn(m: Setup, retries: bool, count: nat, children: seq<Tree>, before: State, r: Result, t: State): Turn {
    if r.Success? then Again(count + 1, Attached(children, r))
    else if r.kind.FailureNoMatch? then Stop(LoopDone(count, children, t))
    else if !r.consumeSyncToken || Marker(m, before) == Marker(m, t) then Stop(LoopFailed(r, t))
    else if retries then Again(count, children)
    else Stop(LoopDone(count, children, t))
  }

  /** runRepetitionLoop and runBoundedRepetitionLoop. */
  ghost function RunLoop(m: Setup, exec: Exec, inner: Rule, max: Option<nat>, retries: bool, count: nat, children: seq<Tree>,
                         s: State, turns: nat): LoopOutcome
    decreases turns
  {
    if max.Some? && count >= max.value then LoopDone(count, children, s)
    else if turns == 0 then LoopOutOfFuel
    else match exec(inner, Normal, s)
    case Done(r, t) =>
      (match NextTurn(m, retries, count, children, s, r, t)
       case Again(n, more) => RunLoop(m, exec, inner, max, retries, n, more, t, turns - 1)
       case Stop(o) => o)
    case Panicked => LoopPanicked
    case OutOfFuel => LoopOutOfFuel
  }

  /** executeInnerWithCommitmentFailure. */
  ghost function RunCommitted(m: Setup, exec: Exec, inner: Rule, s: State): Outcome {
    match exec(inner, Normal, s)
    case Done(r, t) =>
      if r.Success? then Done(r, t) else Done(Failure(CommitmentKind(Marker(m, s), Marker(m, t), r.kind), true), t)
    case Panicked => Panicked
    case OutOfFuel => OutOfFuel
  }

  /** enforceNestClose reports only when no error in the region explains the missing delimiter. */
  function CloseMissing(m: Setup, owner: Rule, s: State): State {
    if ErrorBuffer.ErrorInsideRegion(s.errors.entries) then s else ReportPosition(s, owner, Peek(m, s).start)
  }

  /** The state inside a nest, its opening delimiter taken. */
  function Opened(m: Setup, s: State): State {
    var t := Take(m, s);
    t.(errors := PushRegion(t.errors, Peek(m, s).start))
  }

  /** The closing delimiter and the node, once the inner rule is done. */
  function BeforeClose(m: Setup, owner: Rule, kind: Option<Kind>, close: Token, r: Result, t: State): (Result, State) {
    if r.Failure? then (r, t)
    else if Peek(m, t).token != close then (Error(), CloseMissing(m, owner, t))
    else if kind.None? then (r, Take(m, t))
    else (Success(Some(Tree(t.nextID + 1, kind.value, [], Attached([], r))), false), NewNode(Take(m, t)))
  }

  /** And the end of the region, on every path. */
  function CloseNest(m: Setup, owner: Rule, kind: Option<Kind>, close: Token, r: Result, t: State): Outcome {
    var (r', u) := BeforeClose(m, owner, kind, close, r, t);
    Done(r', PopRegionOf(u))
  }

  ghost function RunNest(m: Setup, exec: Exec, owner: Rule, kind: Option<Kind>, open: Token, close: Token, inner: Rule, s: State): Outcome {
    if Peek(m, s).token != open then Done(NoMatch(), s)
    else match RunCommitted(m, exec, inner, Opened(m, s))
    case Done(r, t) => CloseNest(m, owner, kind, close, r, t)
    case Panicked => Panicked
    case OutOfFuel => OutOfFuel
  }

  function WithRecovery(rule: Rule, s: State): State {
    s.(recovery := s.recovery + [RecoverySet(rule.recoveryTokens, rule.noConsumeTokens, rule.isBarrier)])
  }

  function WithoutTopRecovery(s: State): State {
    s.(recovery := if s.recovery == [] then [] else s.recovery[..|s.recovery| - 1])
  }

  /** ExecuteReference runs the target's body inside the reference's own envelope, with the target's recovery set installed. */
  ghost function RunReference(m: Setup, exec: Exec, target: Label, s: State, turns: nat): Outcome
    decreases turns, 0
  {
    if target !in m.registry then Panicked
    else if turns == 0 then OutOfFuel
    else match RunBody(m, exec, m.registry[target], WithRecovery(m.registry[target], s), turns - 1)
    case Done(r, t) => Done(r, WithoutTopRecovery(t))
    case Panicked => Panicked
    case OutOfFuel => OutOfFuel
  }

  // ----------------------------------------------------------------------- choice

  function ArmsOf(rules: seq<Rule>, lookaheads: seq<Guard>): (arms: seq<ChoiceDispatch.Arm>)
    requires |lookaheads| == |rules|
    ensures |arms| == |rules|
  {
    seq(|rules|, i requires 0 <= i < |rules| => ChoiceDispatch.Arm(rules[i].nodePath, lookaheads[i]))
  }

  /** The Lookaheads field of each arm's grammar node: set by PredictLookahead, shared by wrappers of the same node. */
  function LookaheadsOf(rule: Rule): Guard
    decreases rule
  {
    match rule.body
    case Predict(when, inner) => if |when| > 0 then when else LookaheadsOf(inner)
    case Required(inner) => LookaheadsOf(inner)
    case RecoverSync(inner) => LookaheadsOf(inner)
    case _ => []
  }

  function Arms(rules: seq<Rule>): (arms: seq<ChoiceDispatch.Arm>)
    ensures |arms| == |rules|
  {
    ArmsOf(rules, seq(|rules|, i requires 0 <= i < |rules| => LookaheadsOf(rules[i])))
  }

  ghost function RunChoice(m: Setup, exec: Exec, rules: seq<Rule>, s: State): Outcome {
    match ChoiceDispatch.DispatchOf(m.analysis, Arms(rules), Ahead(m, s))
    case NoArm => Done(NoMatch(), s)
    case Candidates(indices) => RunArms(exec, Selected(rules, indices), s)
    case Fallback => RunArms(exec, rules, s)
  }

  function Selected(rules: seq<Rule>, indices: seq<nat>): seq<Rule> {
    if indices == [] then []
    else (if indices[0] < |rules| then [rules[indices[0]]] else []) + Selected(rules, indices[1..])
  }

  /** Ordered choice: the first arm that does not answer "no match" decides. */
  ghost function RunArms(exec: Exec, rules: seq<Rule>, s: State): Outcome
    decreases |rules|
  {
    if rules == [] then Done(NoMatch(), s)
    else match exec(rules[0], Normal, s)
    case Done(r, t) =>
      if r.Success? || r.kind.FailureError? then Done(r, t) else RunArms(exec, rules[1..], t)
    case Panicked => Panicked
    case OutOfFuel => OutOfFuel
  }
}
