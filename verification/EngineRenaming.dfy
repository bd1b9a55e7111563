/**
 Node ids are only names. A rule run in a state whose later ids are shifted by some amount
 does exactly the same and hands out ids shifted by the same amount.
 */
module EngineRenaming {
  import opened Languages
  import opened Grammars
  import opened TokenStreams
  import opened Sources
  import opened Rules
  import opened Engine
  import opened EngineTransaction
  import ListRule
  import ChoiceDispatch

  // ------------------------------------------------------------------- shifting ids

  function ShiftId(b: nat, d: nat, id: nat): nat {
    if id > b then id + d else id
  }

  function ShiftIds(b: nat, d: nat, ids: seq<nat>): (r: seq<nat>)
    ensures |r| == |ids| && forall i :: 0 <= i < |ids| ==> r[i] == ShiftId(b, d, ids[i])
  {
    seq(|ids|, (i: nat) requires i < |ids| => ShiftId(b, d, ids[i]))
  }

  /** The same tree, ids past b shifted by d. */
  function ShiftTree(b: nat, d: nat, t: Tree): Tree
    decreases t, 1
  {
    Tree(ShiftId(b, d, t.id), t.kind, t.tokens, ShiftTrees(b, d, t.children))
  }

  function ShiftTrees(b: nat, d: nat, ts: seq<Tree>): (r: seq<Tree>)
    ensures |r| == |ts| && forall i :: 0 <= i < |ts| ==> r[i] == ShiftTree(b, d, ts[i])
    decreases ts, 0
  {
    if ts == [] then [] else [ShiftTree(b, d, ts[0])] + ShiftTrees(b, d, ts[1..])
  }

  function ShiftResult(b: nat, d: nat, r: Result): Result {
    if r.Failure? || r.node.None? then r else r.(node := Some(ShiftTree(b, d, r.node.value)))
  }

  function ShiftState(b: nat, d: nat, s: State): State {
    s.(nextID := s.nextID + d, created := ShiftIds(b, d, s.created))
  }

  function ShiftOutcome(b: nat, d: nat, o: Outcome): Outcome {
    if o.Done? then Done(ShiftResult(b, d, o.result), ShiftState(b, d, o.state)) else o
  }

  /** o' is o with its later ids shifted; the counter has not gone back. */
  ghost predicate Renamed(b: nat, d: nat, o: Outcome, o': Outcome) {
    o' == ShiftOutcome(b, d, o) && (o.Done? ==> b <= o.state.nextID)
  }

  ghost predicate RunsAlike(exec: Exec, b: nat, d: nat, rule: Rule, mode: Mode, s: State) {
    b <= s.nextID ==> Renamed(b, d, exec(rule, mode, s), exec(rule, mode, ShiftState(b, d, s)))
  }

  /** The rules run by exec never look at ids. */
  ghost predicate BlindToIds(exec: Exec, b: nat, d: nat) {
    forall rule, mode, s :: RunsAlike(exec, b, d, rule, mode, s)
  }

  // ------------------------------------------------------------------- small actions

  lemma NewNodeShifts(b: nat, d: nat, s: State)
    requires b <= s.nextID
    ensures ShiftState(b, d, NewNode(s)) == NewNode(ShiftState(b, d, s)) && b <= NewNode(s).nextID
  {
    assert ShiftIds(b, d, s.created + [s.nextID + 1]) == ShiftIds(b, d, s.created) + [s.nextID + d + 1];
  }

  lemma {:induction false} NewNodesShift(b: nat, d: nat, s: State, n: nat)
    requires b <= s.nextID
    ensures ShiftState(b, d, NewNodes(s, n)) == NewNodes(ShiftState(b, d, s), n) && b <= NewNodes(s, n).nextID
    decreases n
  {
    if n > 0 {
      NewNodesShift(b, d, s, n - 1);
      NewNodeShifts(b, d, NewNodes(s, n - 1));
    }
  }

  lemma TruncatedShifts(b: nat, d: nat, s: State, n: nat)
    ensures ShiftState(b, d, Truncated(s, n)) == Truncated(ShiftState(b, d, s), n)
  {
    if n <= |s.created| {
      assert ShiftIds(b, d, s.created[..n]) == ShiftIds(b, d, s.created)[..n];
    }
  }

  lemma {:induction false} ShiftTreesAppend(b: nat, d: nat, s: seq<Tree>, t: seq<Tree>)
    ensures ShiftTrees(b, d, s + t) == ShiftTrees(b, d, s) + ShiftTrees(b, d, t)
  {
  }

  lemma {:induction false} ShiftTreesOne(b: nat, d: nat, t: Tree)
    ensures ShiftTrees(b, d, [t]) == [ShiftTree(b, d, t)]
  {
  }

  lemma {:induction false} AttachedShifts(b: nat, d: nat, children: seq<Tree>, r: Result)
    requires r.Success?
    ensures ShiftTrees(b, d, Attached(children, r)) == Attached(ShiftTrees(b, d, children), ShiftResult(b, d, r))
  {
    if r.node.Some? {
      if r.isFragment {
        ShiftTreesAppend(b, d, children, r.node.value.children);
      } else {
        ShiftTreesAppend(b, d, children, [r.node.value]);
        ShiftTreesOne(b, d, r.node.value);
      }
    }
  }

  lemma {:induction false} ElementsShift(b: nat, d: nat, kind: Kind, first: nat, ls: seq<Lexeme>)
    requires b < first
    ensures ShiftTrees(b, d, Elements(kind, first, ls)) == Elements(kind, first + d, ls)
  {
  }

  lemma SameView(m: Setup, b: nat, d: nat, s: State)
    ensures Peek(m, ShiftState(b, d, s)) == Peek(m, s) && Marker(m, ShiftState(b, d, s)) == Marker(m, s)
    ensures Ahead(m, ShiftState(b, d, s)) == Ahead(m, s)
    ensures ShiftState(b, d, Take(m, s)) == Take(m, ShiftState(b, d, s))
  {
  }

  // ------------------------------------------------------------------ rule bodies

  lemma ExpectShifts(m: Setup, b: nat, d: nat, tokens: seq<Token>, kind: Option<Kind>, s: State)
    requires b <= s.nextID
    ensures Renamed(b, d, RunExpect(m, tokens, kind, s), RunExpect(m, tokens, kind, ShiftState(b, d, s)))
  {
    SameView(m, b, d, s);
    NewNodeShifts(b, d, Take(m, s));
  }

  lemma AcceptedShifts(m: Setup, b: nat, d: nat, rule: Rule, lk: Kind, ek: Kind, s: State, at: Position, elements: seq<Lexeme>)
    requires b <= s.nextID
    ensures var run := ListRule.Accepted(at, elements);
            Renamed(b, d, ListResult(m, rule, lk, ek, s, run), ListResult(m, rule, lk, ek, ShiftState(b, d, s), run))
  {
    NewNodesShift(b, d, s.(cursor := at), 1 + |elements|);
    ElementsShift(b, d, ek, s.nextID + 2, elements);
  }

  lemma RejectedShifts(m: Setup, b: nat, d: nat, rule: Rule, lk: Kind, ek: Kind, s: State, at: Position, blame: Lexeme, made: nat)
    requires b <= s.nextID
    ensures var run := ListRule.Rejected(at, blame, made);
            Renamed(b, d, ListResult(m, rule, lk, ek, s, run), ListResult(m, rule, lk, ek, ShiftState(b, d, s), run))
  {
    NewNodesShift(b, d, s.(cursor := at), made);
  }

  lemma ListShifts(m: Setup, b: nat, d: nat, rule: Rule, spec: ListRule.ListSpec, lk: Kind, ek: Kind, s: State)
    requires b <= s.nextID
    ensures Renamed(b, d, RunListOf(m, rule, spec, lk, ek, s), RunListOf(m, rule, spec, lk, ek, ShiftState(b, d, s)))
  {
    match ListRule.RunList(m.src, Clamped(m, s), spec)
    case Accepted(at, elements) => AcceptedShifts(m, b, d, rule, lk, ek, s, at, elements);
    case Rejected(at, blame, made) => RejectedShifts(m, b, d, rule, lk, ek, s, at, blame, made);
  }

  lemma JudgeShifts(m: Setup, b: nat, d: nat, owner: Rule, element: Rule, marker: nat, r: Result, s: State)
    ensures var v, v' := Judge(m, owner, element, marker, r, s), Judge(m, owner, element, marker, ShiftResult(b, d, r), ShiftState(b, d, s));
            && (v.Keep? <==> v'.Keep?)
            && v'.result == ShiftResult(b, d, v.result) && v'.state == ShiftState(b, d, v.state) && v.state.nextID == s.nextID
  {
    SameView(m, b, d, s);
  }

  lemma {:induction false} CloseShifts(b: nat, d: nat, kind: Option<Kind>, children: seq<Tree>, s: State)
    requires b <= s.nextID
    ensures Renamed(b, d, Close(kind, children, s), Close(kind, ShiftTrees(b, d, children), ShiftState(b, d, s)))
  {
    NewNodeShifts(b, d, s);
  }

  lemma {:induction false} SequenceShifts(m: Setup, exec: Exec, b: nat, d: nat, owner: Rule, kind: Option<Kind>, rules: seq<Rule>,
                                          marker: nat, children: seq<Tree>, s: State)
    requires BlindToIds(exec, b, d) && b <= s.nextID
    ensures Renamed(b, d, RunSequence(m, exec, owner, kind, rules, marker, children, s),
                    RunSequence(m, exec, owner, kind, rules, marker, ShiftTrees(b, d, children), ShiftState(b, d, s)))
    decreases |rules|
  {
    if rules == [] {
      CloseShifts(b, d, kind, children, s);
    } else {
      assert RunsAlike(exec, b, d, rules[0], Normal, s);
      var c := exec(rules[0], Normal, s);
      if c.Done? {
        JudgeShifts(m, b, d, owner, rules[0], marker, c.result, c.state);
        var v := Judge(m, owner, rules[0], marker, c.result, c.state);
        if v.Keep? {
          AttachedShifts(b, d, children, v.result);
          SequenceShifts(m, exec, b, d, owner, kind, rules[1..], marker, Attached(children, v.result), v.state);
        }
      }
    }
  }

  lemma OptionalShifts(exec: Exec, b: nat, d: nat, inner: Rule, s: State)
    requires BlindToIds(exec, b, d) && b <= s.nextID
    ensures Renamed(b, d, RunOptional(exec, inner, s), RunOptional(exec, inner, ShiftState(b, d, s)))
  {
    assert RunsAlike(exec, b, d, inner, Probe, s);
  }

  lemma SuffixShifts(m: Setup, exec: Exec, b: nat, d: nat, kind: Kind, inner: Rule, suffix: Token, s: State)
    requires BlindToIds(exec, b, d) && b <= s.nextID
    ensures Renamed(b, d, RunSuffix(m, exec, kind, inner, suffix, s), RunSuffix(m, exec, kind, inner, suffix, ShiftState(b, d, s)))
  {
    assert RunsAlike(exec, b, d, inner, Normal, s);
    var c := exec(inner, Normal, s);
    if c.Done? {
      SameView(m, b, d, c.state);
      NewNodeShifts(b, d, Take(m, c.state));
      if c.result.Success? && c.result.node.Some? {
        ShiftTreesOne(b, d, c.result.node.value);
      }
    }
  }

  lemma RequiredShifts(m: Setup, exec: Exec, b: nat, d: nat, owner: Rule, inner: Rule, s: State)
    requires BlindToIds(exec, b, d) && b <= s.nextID
    ensures Renamed(b, d, RunRequired(m, exec, owner, inner, s), RunRequired(m, exec, owner, inner, ShiftState(b, d, s)))
  {
    assert RunsAlike(exec, b, d, inner, Normal, s);
    var c := exec(inner, Normal, s);
    if c.Done? {
      SameView(m, b, d, c.state);
    }
  }

  lemma {:induction false} RootShifts(m: Setup, exec: Exec, b: nat, d: nat, owner: Rule, kind: Kind, id: nat, rules: seq<Rule>,
                                      committed: bool, children: seq<Tree>, s: State)
    requires BlindToIds(exec, b, d) && b < id && b <= s.nextID
    ensures Renamed(b, d, RunRoot(m, exec, owner, kind, id, rules, committed, children, s),
                    RunRoot(m, exec, owner, kind, id + d, rules, committed, ShiftTrees(b, d, children), ShiftState(b, d, s)))
    decreases |rules|
  {
    if rules != [] {
      assert RunsAlike(exec, b, d, rules[0], Normal, s);
      var c := exec(rules[0], Normal, s);
      if c.Done? {
        if c.result.Success? {
          AttachedShifts(b, d, children, c.result);
          RootShifts(m, exec, b, d, owner, kind, id, rules[1..], true, Attached(children, c.result), c.state);
        } else {
          SameView(m, b, d, c.state);
        }
      }
    }
  }

  function ShiftLoop(b: nat, d: nat, o: LoopOutcome): LoopOutcome {
    match o
    case LoopDone(count, children, t) => LoopDone(count, ShiftTrees(b, d, children), ShiftState(b, d, t))
    case LoopFailed(r, t) => LoopFailed(ShiftResult(b, d, r), ShiftState(b, d, t))
    case LoopPanicked => o
    case LoopOutOfFuel => o
  }

  ghost predicate LoopRenamed(b: nat, d: nat, o: LoopOutcome, o': LoopOutcome) {
    o' == ShiftLoop(b, d, o) && (o.LoopDone? || o.LoopFailed? ==> b <= o.state.nextID)
  }

  lemma {:induction false} LoopShifts(m: Setup, exec: Exec, b: nat, d: nat, inner: Rule, max: Option<nat>, retries: bool, count: nat,
                                      children: seq<Tree>, s: State, turns: nat)
    requires BlindToIds(exec, b, d) && b <= s.nextID
    ensures LoopRenamed(b, d, RunLoop(m, exec, inner, max, retries, count, children, s, turns),
                        RunLoop(m, exec, inner, max, retries, count, ShiftTrees(b, d, children), ShiftState(b, d, s), turns))
    decreases turns
  {
    if !(max.Some? && count >= max.value) && turns > 0 {
      assert RunsAlike(exec, b, d, inner, Normal, s);
      var c := exec(inner, Normal, s);
      if c.Done? {
        SameView(m, b, d, s);
        SameView(m, b, d, c.state);
        if c.result.Success? {
          AttachedShifts(b, d, children, c.result);
        }
        var turn := NextTurn(m, retries, count, children, s, c.result, c.state);
        if turn.Again? {
          LoopShifts(m, exec, b, d, inner, max, retries, turn.count, turn.children, c.state, turns - 1);
        }
      }
    }
  }

  lemma RepetitionShifts(m: Setup, exec: Exec, b: nat, d: nat, kind: Option<Kind>, min: nat, max: Option<nat>, retries: bool, inner: Rule,
                         s: State, turns: nat)
    requires BlindToIds(exec, b, d) && b <= s.nextID
    ensures Renamed(b, d, RunRepetition(m, exec, kind, min, max, retries, inner, s, turns),
                    RunRepetition(m, exec, kind, min, max, retries, inner, ShiftState(b, d, s), turns))
  {
    NewNodeShifts(b, d, s);
    LoopShifts(m, exec, b, d, inner, max, retries, 0, [], if kind.Some? then NewNode(s) else s, turns);
  }

  lemma CommittedShifts(m: Setup, exec: Exec, b: nat, d: nat, inner: Rule, s: State)
    requires BlindToIds(exec, b, d) && b <= s.nextID
    ensures Renamed(b, d, RunCommitted(m, exec, inner, s), RunCommitted(m, exec, inner, ShiftState(b, d, s)))
  {
    assert RunsAlike(exec, b, d, inner, Normal, s);
    SameView(m, b, d, s);
    var c := exec(inner, Normal, s);
    if c.Done? {
      SameView(m, b, d, c.state);
    }
  }

  lemma PrefixedShifts(m: Setup, exec: Exec, b: nat, d: nat, inner: Rule, s: State)
    requires BlindToIds(exec, b, d) && b <= s.nextID
    ensures Renamed(b, d, RunCommitted(m, exec, inner, Take(m, s)), RunCommitted(m, exec, inner, Take(m, ShiftState(b, d, s))))
  {
    SameView(m, b, d, s);
    CommittedShifts(m, exec, b, d, inner, Take(m, s));
  }

  lemma MissingShifts(m: Setup, b: nat, d: nat, owner: Rule, t: State)
    ensures CloseMissing(m, owner, ShiftState(b, d, t)) == ShiftState(b, d, CloseMissing(m, owner, t))
    ensures CloseMissing(m, owner, t).nextID == t.nextID
  {
    SameView(m, b, d, t);
  }

  lemma BeforeCloseShifts(m: Setup, b: nat, d: nat, owner: Rule, kind: Option<Kind>, close: Token, r: Result, t: State)
    requires b <= t.nextID
    ensures var (q, u), (q', u') := BeforeClose(m, owner, kind, close, r, t),
                                    BeforeClose(m, owner, kind, close, ShiftResult(b, d, r), ShiftState(b, d, t));
            q' == ShiftResult(b, d, q) && u' == ShiftState(b, d, u) && b <= u.nextID
  {
    SameView(m, b, d, t);
    if r.Success? {
      if Peek(m, t).token != close {
        MissingShifts(m, b, d, owner, t);
      } else {
        NewNodeShifts(b, d, Take(m, t));
        AttachedShifts(b, d, [], r);
      }
    }
  }

  lemma PopRegionShifts(b: nat, d: nat, s: State)
    ensures PopRegionOf(ShiftState(b, d, s)) == ShiftState(b, d, PopRegionOf(s)) && PopRegionOf(s).nextID == s.nextID
  {
  }

  lemma CloseNestShifts(m: Setup, b: nat, d: nat, owner: Rule, kind: Option<Kind>, close: Token, r: Result, t: State)
    requires b <= t.nextID
    ensures Renamed(b, d, CloseNest(m, owner, kind, close, r, t),
                    CloseNest(m, owner, kind, close, ShiftResult(b, d, r), ShiftState(b, d, t)))
  {
    BeforeCloseShifts(m, b, d, owner, kind, close, r, t);
    var (q, u) := BeforeClose(m, owner, kind, close, r, t);
    PopRegionShifts(b, d, u);
  }

  lemma NestShifts(m: Setup, exec: Exec, b: nat, d: nat, owner: Rule, kind: Option<Kind>, open: Token, close: Token, inner: Rule, s: State)
    requires BlindToIds(exec, b, d) && b <= s.nextID
    ensures Renamed(b, d, RunNest(m, exec, owner, kind, open, close, inner, s),
                    RunNest(m, exec, owner, kind, open, close, inner, ShiftState(b, d, s)))
  {
    SameView(m, b, d, s);
    assert ShiftState(b, d, Opened(m, s)) == Opened(m, ShiftState(b, d, s));
    CommittedShifts(m, exec, b, d, inner, Opened(m, s));
    var c := RunCommitted(m, exec, inner, Opened(m, s));
    if c.Done? {
      CloseNestShifts(m, b, d, owner, kind, close, c.result, c.state);
    }
  }

  lemma {:induction false} ArmsShift(exec: Exec, b: nat, d: nat, rules: seq<Rule>, s: State)
    requires BlindToIds(exec, b, d) && b <= s.nextID
    ensures Renamed(b, d, RunArms(exec, rules, s), RunArms(exec, rules, ShiftState(b, d, s)))
    decreases |rules|
  {
    if rules != [] {
      assert RunsAlike(exec, b, d, rules[0], Normal, s);
      var c := exec(rules[0], Normal, s);
      if c.Done? && c.result.Failure? && c.result.kind.FailureNoMatch? {
        ArmsShift(exec, b, d, rules[1..], c.state);
      }
    }
  }

  lemma ChoiceShifts(m: Setup, exec: Exec, b: nat, d: nat, rules: seq<Rule>, s: State)
    requires BlindToIds(exec, b, d) && b <= s.nextID
    ensures Renamed(b, d, RunChoice(m, exec, rules, s), RunChoice(m, exec, rules, ShiftState(b, d, s)))
  {
    SameView(m, b, d, s);
    match ChoiceDispatch.DispatchOf(m.analysis, Arms(rules), Ahead(m, s))
    case NoArm =>
    case Candidates(indices) => ArmsShift(exec, b, d, Selected(rules, indices), s);
    case Fallback => ArmsShift(exec, b, d, rules, s);
  }

  lemma InnerShifts(m: Setup, exec: Exec, b: nat, d: nat, inner: Rule, mode: Mode, s: State)
    requires BlindToIds(exec, b, d) && b <= s.nextID
    ensures Renamed(b, d, exec(inner, mode, s), exec(inner, mode, ShiftState(b, d, s)))
    ensures Ahead(m, ShiftState(b, d, s)) == Ahead(m, s) && Peek(m, ShiftState(b, d, s)) == Peek(m, s)
  {
    assert RunsAlike(exec, b, d, inner, mode, s);
  }

  lemma RootBodyShifts(m: Setup, exec: Exec, b: nat, d: nat, rule: Rule, kind: Kind, rules: seq<Rule>, s: State)
    requires BlindToIds(exec, b, d) && b <= s.nextID
    ensures Renamed(b, d, RunRoot(m, exec, rule, kind, s.nextID + 1, rules, false, [], NewNode(s)),
                    RunRoot(m, exec, rule, kind, s.nextID + d + 1, rules, false, [], NewNode(ShiftState(b, d, s))))
  {
    NewNodeShifts(b, d, s);
    RootShifts(m, exec, b, d, rule, kind, s.nextID + 1, rules, false, [], NewNode(s));
  }

  lemma {:induction false} ReferenceShifts(m: Setup, exec: Exec, b: nat, d: nat, target: Label, s: State, turns: nat)
    requires target in m.registry && turns > 0
    requires Renamed(b, d, RunBody(m, exec, m.registry[target], WithRecovery(m.registry[target], s), turns - 1),
                     RunBody(m, exec, m.registry[target], WithRecovery(m.registry[target], ShiftState(b, d, s)), turns - 1))
    ensures Renamed(b, d, RunReference(m, exec, target, s, turns), RunReference(m, exec, target, ShiftState(b, d, s), turns))
  {
  }

  /** Bodies that run several rules, one after another or one over and over. */
  predicate RunsMany(body: Body) {
    body.Sequence? || body.Wrap? || body.Root? || body.Repetition? || body.BoundedRepetition? || body.Choice?
  }

  lemma {:induction false} ManyShift(m: Setup, exec: Exec, b: nat, d: nat, rule: Rule, s: State, turns: nat)
    requires BlindToIds(exec, b, d) && b <= s.nextID && RunsMany(rule.body)
    ensures Renamed(b, d, RunBody(m, exec, rule, s, turns), RunBody(m, exec, rule, ShiftState(b, d, s), turns))
  {
    SameView(m, b, d, s);
    match rule.body
    case Sequence(kind, rules) => SequenceShifts(m, exec, b, d, rule, kind, rules, Marker(m, s), [], s);
    case Wrap(kind, inner) => SequenceShifts(m, exec, b, d, rule, Some(kind), [inner], Marker(m, s), [], s);
    case Root(kind, rules) => RootBodyShifts(m, exec, b, d, rule, kind, rules, s);
    case Repetition(kind, min, inner) => RepetitionShifts(m, exec, b, d, kind, min, None, true, inner, s, turns);
    case BoundedRepetition(kind, min, max, inner) => RepetitionShifts(m, exec, b, d, kind, min, max, false, inner, s, turns);
    case Choice(rules) => ChoiceShifts(m, exec, b, d, rules, s);
  }

  lemma {:induction false} OneShifts(m: Setup, exec: Exec, b: nat, d: nat, rule: Rule, s: State, turns: nat)
    requires BlindToIds(exec, b, d) && b <= s.nextID && !RunsMany(rule.body) && !rule.body.Reference?
    ensures Renamed(b, d, RunBody(m, exec, rule, s, turns), RunBody(m, exec, rule, ShiftState(b, d, s), turns))
  {
    SameView(m, b, d, s);
    match rule.body
    case Expect(tokens, kind) => ExpectShifts(m, b, d, tokens, kind, s);
    case ListOf(spec, lk, ek) => ListShifts(m, b, d, rule, spec, lk, ek, s);
    case Optional(inner) => OptionalShifts(exec, b, d, inner, s);
    case OptionalWhen(_, inner) => InnerShifts(m, exec, b, d, inner, Normal, s);
    case Predict(_, inner) => InnerShifts(m, exec, b, d, inner, Normal, s);
    case OptionalSuffix(kind, inner, suffix) => SuffixShifts(m, exec, b, d, kind, inner, suffix, s);
    case Required(inner) => RequiredShifts(m, exec, b, d, rule, inner, s);
    case Nest(kind, open, close, inner) => NestShifts(m, exec, b, d, rule, kind, open, close, inner, s);
    case RecoverSync(inner) => InnerShifts(m, exec, b, d, inner, Normal, s);
    case Prefixed(_, inner) => PrefixedShifts(m, exec, b, d, inner, s);
  }

  lemma {:induction false} BodyShifts(m: Setup, exec: Exec, b: nat, d: nat, rule: Rule, s: State, turns: nat)
    requires BlindToIds(exec, b, d) && b <= s.nextID
    ensures Renamed(b, d, RunBody(m, exec, rule, s, turns), RunBody(m, exec, rule, ShiftState(b, d, s), turns))
    decreases turns
  {
    if rule.body.Reference? {
      var target := rule.body.target;
      if target in m.registry && turns > 0 {
        BodyShifts(m, exec, b, d, m.registry[target], WithRecovery(m.registry[target], s), turns - 1);
        ReferenceShifts(m, exec, b, d, target, s, turns);
      }
    } else if RunsMany(rule.body) {
      ManyShift(m, exec, b, d, rule, s, turns);
    } else {
      OneShifts(m, exec, b, d, rule, s, turns);
    }
  }

  // ------------------------------------------------------------------- the envelope

  lemma LandedShifts(m: Setup, b: nat, d: nat, rule: Rule, s: State)
    requires b <= s.nextID
    ensures var (r, t), (r', t') := Landed(m, rule, s), Landed(m, rule, ShiftState(b, d, s));
            r' == ShiftResult(b, d, r) && t' == ShiftState(b, d, t) && b <= t.nextID
  {
    var consume := !Recovery.LeftInPlace(s.recovery, PeekRawAt(m.src, s.cursor).token);
    NewNodeShifts(b, d, s.(cursor := if consume then s.cursor + 1 else s.cursor));
  }

  lemma SameLanding(m: Setup, b: nat, d: nat, s: State)
    ensures Landing(m, ShiftState(b, d, s)) == Landing(m, s) && Clamped(m, ShiftState(b, d, s)) == Clamped(m, s)
  {
  }

  lemma RecoveredShifts(m: Setup, b: nat, d: nat, rule: Rule, start: State, r: Result, s: State)
    requires b <= s.nextID && r.Failure?
    ensures var (q, t), (q', t') := Recovered(m, rule, start, r, s), Recovered(m, rule, ShiftState(b, d, start), r, ShiftState(b, d, s));
            q' == ShiftResult(b, d, q) && t' == ShiftState(b, d, t) && b <= t.nextID
  {
    SameLanding(m, b, d, s);
    var n := Landing(m, s);
    if n.Some? {
      var at := Clamped(m, s) + n.value;
      LandedShifts(m, b, d, rule, s.(cursor := at));
      assert ShiftState(b, d, s).(cursor := at) == ShiftState(b, d, s.(cursor := at));
    }
  }

  lemma NoteShifts(m: Setup, b: nat, d: nat, rule: Rule, start: State, pre: Lexeme, s: State)
    ensures NoteUnexpected(m, rule, ShiftState(b, d, start), pre, ShiftState(b, d, s))
            == ShiftState(b, d, NoteUnexpected(m, rule, start, pre, s))
    ensures NoteUnexpected(m, rule, start, pre, s).nextID == s.nextID
  {
    SameView(m, b, d, s);
  }

  lemma PopShifts(b: nat, d: nat, s: State, commit: bool)
    ensures Pop(ShiftState(b, d, s), commit) == ShiftState(b, d, Pop(s, commit)) && Pop(s, commit).nextID == s.nextID
  {
  }

  lemma HandleShifts(m: Setup, b: nat, d: nat, rule: Rule, mode: Mode, start: State, pre: Lexeme, r: Result, s: State)
    requires b <= s.nextID && r.Failure?
    ensures var (q, t), (q', t') := HandleFailure(m, rule, mode, start, pre, r, s),
                                    HandleFailure(m, rule, mode, ShiftState(b, d, start), pre, r, ShiftState(b, d, s));
            q' == ShiftResult(b, d, q) && t' == ShiftState(b, d, t) && b <= t.nextID
  {
    if mode.Probe? || r.kind.FailureNoMatch? {
      PopShifts(b, d, s.(cursor := start.cursor), false);
    } else if !r.consumeSyncToken && s.cursor != start.cursor {
      PopShifts(b, d, s, true);
    } else {
      NoteShifts(m, b, d, rule, start, pre, s);
      PopShifts(b, d, NoteUnexpected(m, rule, start, pre, s), true);
      RecoveredShifts(m, b, d, rule, start, r, Pop(NoteUnexpected(m, rule, start, pre, s), true));
    }
  }

  lemma EnterShifts(m: Setup, b: nat, d: nat, rule: Rule, mode: Mode, s: State)
    ensures Enter(m, rule, mode, ShiftState(b, d, s)) == ShiftState(b, d, Enter(m, rule, mode, s))
    ensures Enter(m, rule, mode, s).nextID == s.nextID
  {
  }

  lemma LeaveShifts(m: Setup, b: nat, d: nat, rule: Rule, mode: Mode, s: State)
    ensures Leave(m, rule, mode, ShiftState(b, d, s)) == ShiftState(b, d, Leave(m, rule, mode, s))
    ensures Leave(m, rule, mode, s).nextID == s.nextID
  {
  }

  lemma EnvelopeShifts(m: Setup, exec: Exec, b: nat, d: nat, rule: Rule, mode: Mode, s: State, turns: nat)
    requires BlindToIds(exec, b, d) && b <= s.nextID
    ensures Renamed(b, d, RunEnvelope(m, exec, rule, mode, s, turns), RunEnvelope(m, exec, rule, mode, ShiftState(b, d, s), turns))
  {
    EnterShifts(m, b, d, rule, mode, s);
    SameView(m, b, d, s);
    BodyShifts(m, exec, b, d, rule, Enter(m, rule, mode, s), turns);
    var c := RunBody(m, exec, rule, Enter(m, rule, mode, s), turns);
    if c.Done? {
      if c.result.Success? {
        PopShifts(b, d, c.state, true);
        LeaveShifts(m, b, d, rule, mode, Pop(c.state, true));
      } else {
        TruncatedShifts(b, d, c.state, |s.created|);
        var cut := Truncated(c.state, |s.created|);
        HandleShifts(m, b, d, rule, mode, s, Peek(m, s), c.result, cut);
        var (q, t) := HandleFailure(m, rule, mode, s, Peek(m, s), c.result, cut);
        LeaveShifts(m, b, d, rule, mode, t);
      }
    }
  }

  /** Ids are only names: shifting the later ones before a rule runs shifts the later ones after it, and changes nothing else. */
  lemma {:induction false} EngineBlindToIds(m: Setup, b: nat, d: nat, fuel: nat)
    ensures BlindToIds(EngineAt(m, fuel), b, d)
    decreases fuel
  {
    if fuel > 0 {
      EngineBlindToIds(m, b, d, fuel - 1);
    }
    forall rule, mode, s ensures RunsAlike(EngineAt(m, fuel), b, d, rule, mode, s) {
      EngineRunsAlike(m, b, d, rule, mode, s, fuel);
    }
  }

  lemma EngineRunsAlike(m: Setup, b: nat, d: nat, rule: Rule, mode: Mode, s: State, fuel: nat)
    requires fuel > 0 ==> BlindToIds(EngineAt(m, fuel - 1), b, d)
    ensures RunsAlike(EngineAt(m, fuel), b, d, rule, mode, s)
  {
    if fuel > 0 && b <= s.nextID {
      EnvelopeShifts(m, EngineAt(m, fuel - 1), b, d, rule, mode, s, fuel - 1);
    }
    EngineUnfolds(m, rule, mode, s, fuel);
    EngineUnfolds(m, rule, mode, ShiftState(b, d, s), fuel);
  }
}
