/**
 What a terminal's guard stands for along a run of the pushdown machine, inside nests and
 after them. Every choice arm passed through on the way to a terminal adds its guard, and
 every token taken in its context since shifts it by one.
 */
module GuardRuns {
  import opened Languages
  import opened Grammars
  import opened Guards
  import opened Terminals
  import opened Lookaheads
  import opened Advance
  import S = StateGraph

  // ------------------------------------------------------- the arms behind each terminal

  /** The guards of the arms that filterTermsByArmFirst keeps. */
  function KeepArms(ts: seq<Terminal>, arms: seq<seq<Guard>>, first: set<Token>): (r: seq<seq<Guard>>)
    requires |arms| == |ts|
    ensures |r| == |FilterByFirst(ts, first)|
  {
    if ts == [] then []
    else (if ts[0].token in first then [arms[0]] else []) + KeepArms(ts[1..], arms[1..], first)
  }

  function EnterAll(arms: seq<seq<Guard>>, guard: Guard): (r: seq<seq<Guard>>)
    ensures |r| == |arms| && forall i :: 0 <= i < |arms| ==> r[i] == arms[i] + [guard]
  {
    seq(|arms|, (i: nat) requires i < |arms| => arms[i] + [guard])
  }

  /** For each terminal of a node, the guards of the choice arms passed through to reach it, innermost first. */
  function NodeArms(env: Env, g: Grammar, visiting: set<Label>): (r: seq<seq<Guard>>)
    ensures |r| == |LookaheadNode(env, g, visiting).terms|
    decreases env.rules.Keys - visiting, g, 0
  {
    match g
    case GToken(_, _) => [[]]
    case GNest(_, _, _, _) => [[]]
    case GEpsilon(_) => []
    case GConcat(_, children) => ConcatArms(env, children, visiting)
    case GChoice(_, children) => ChoiceArms(env, children, visiting)
    case GRepeat(_, body, _, _) => NodeArms(env, body, visiting)
    case GOptional(_, body) => NodeArms(env, body, visiting)
    case GReference(_, target) =>
      if target !in env.rules || target in visiting then []
      else NodeArms(env, env.rules[target], visiting + {target})
  }

  function ConcatArms(env: Env, nodes: seq<Grammar>, visiting: set<Label>): (r: seq<seq<Guard>>)
    ensures |r| == |LookaheadConcat(env, nodes, visiting).terms|
    decreases env.rules.Keys - visiting, nodes, 0
  {
    if nodes == [] then []
    else
      var head := NodeArms(env, nodes[0], visiting);
      if !LookaheadNode(env, nodes[0], visiting).nullable then head
      else head + ConcatArms(env, nodes[1..], visiting)
  }

  function ArmArms(env: Env, arm: Grammar, visiting: set<Label>): (r: seq<seq<Guard>>)
    ensures |r| == |LookaheadArm(env, arm, visiting).terms|
    decreases env.rules.Keys - visiting, arm, 1
  {
    var first := ArmFirst(env, arm);
    var inner := NodeArms(env, arm, visiting);
    var kept := if first.Some? then KeepArms(LookaheadNode(env, arm, visiting).terms, inner, first.value) else inner;
    EnterAll(kept, ArmGuard(env, arm))
  }

  function ChoiceArms(env: Env, arms: seq<Grammar>, visiting: set<Label>): (r: seq<seq<Guard>>)
    ensures |r| == |LookaheadChoice(env, arms, visiting).terms|
    decreases env.rules.Keys - visiting, arms, 0
  {
    if arms == [] then []
    else ArmArms(env, arms[0], visiting) + ChoiceArms(env, arms[1..], visiting)
  }

  /** The same for the terminals that may follow a terminal; these arms are entered after its token. */
  function FrameArms(env: Env, f: Frame): (r: seq<seq<Guard>>)
    ensures |r| == |FrameLookahead(env, f).terms|
  {
    (if f.rep.Some? then NodeArms(env, f.rep.value, {}) else []) + ConcatArms(env, f.remaining, {})
  }

  function LevelArms(env: Env, levels: seq<Frame>, shifted: Guard): (r: seq<seq<Guard>>)
    ensures |r| == |AdvanceLevels(env, levels, shifted).terms|
  {
    if levels == [] then []
    else if levels[0].remaining == [] && levels[0].rep.None? then LevelArms(env, levels[1..], shifted)
    else if !FrameLookahead(env, levels[0]).nullable then FrameArms(env, levels[0])
    else FrameArms(env, levels[0]) + LevelArms(env, levels[1..], shifted)
  }

  function AdvanceArms(env: Env, t: Terminal): (r: seq<seq<Guard>>)
    ensures |r| == |AdvanceTerminal(env, t).terms|
  {
    LevelArms(env, Levels(t), Shift(t.guard, t.token))
  }

  // -------------------------------------------- a guard is the sum of the arms' guards

  ghost predicate InSome(x: Lookahead, arms: seq<Guard>) {
    exists i :: 0 <= i < |arms| && x in arms[i]
  }

  /** g holds the constraints of the pending guard and of all the arms', and no others. */
  ghost predicate SumsTo(g: Guard, pending: Guard, arms: seq<Guard>) {
    forall x :: x in g <==> x in pending || InSome(x, arms)
  }

  ghost predicate AllSum(ts: seq<Terminal>, pending: Guard, arms: seq<seq<Guard>>) {
    |arms| == |ts| && forall i :: 0 <= i < |ts| ==> SumsTo(ts[i].guard, pending, arms[i])
  }

  lemma SumAppend(ts: seq<Terminal>, us: seq<Terminal>, pending: Guard, a: seq<seq<Guard>>, b: seq<seq<Guard>>)
    requires AllSum(ts, pending, a) && AllSum(us, pending, b)
    ensures AllSum(ts + us, pending, a + b)
  {
  }

  lemma SumRelabel(ts: seq<Terminal>, us: seq<Terminal>, pending: Guard, a: seq<seq<Guard>>)
    requires AllSum(ts, pending, a) && |us| == |ts| && forall i :: 0 <= i < |ts| ==> us[i].guard == ts[i].guard
    ensures AllSum(us, pending, a)
  {
  }

  lemma SumMerge(ts: seq<Terminal>, pending: Guard, a: seq<seq<Guard>>)
    requires AllSum(ts, [], a)
    ensures AllSum(GuardAll(ts, pending), pending, a)
  {
    forall i | 0 <= i < |ts| ensures SumsTo(GuardAll(ts, pending)[i].guard, pending, a[i]) {
      MergeContents(pending, ts[i].guard);
      assert SumsTo(ts[i].guard, [], a[i]);
    }
  }

  lemma {:induction false} SumFilter(ts: seq<Terminal>, a: seq<seq<Guard>>, first: set<Token>)
    requires AllSum(ts, [], a)
    ensures AllSum(FilterByFirst(ts, first), [], KeepArms(ts, a, first))
    decreases |ts|
  {
    if ts != [] {
      assert AllSum(ts[1..], [], a[1..]);
      SumFilter(ts[1..], a[1..], first);
      if ts[0].token in first {
        assert AllSum([ts[0]], [], [a[0]]);
        SumAppend([ts[0]], FilterByFirst(ts[1..], first), [], [a[0]], KeepArms(ts[1..], a[1..], first));
      }
    }
  }

  lemma InSomeMore(x: Lookahead, arms: seq<Guard>, guard: Guard)
    ensures InSome(x, arms + [guard]) <==> x in guard || InSome(x, arms)
  {
    var more := arms + [guard];
    if x in guard {
      assert x in more[|arms|];
    }
    if j :| 0 <= j < |arms| && x in arms[j] {
      assert x in more[j];
    }
  }

  lemma SumOneMore(g: Guard, arms: seq<Guard>, guard: Guard)
    requires SumsTo(g, [], arms)
    ensures SumsTo(Merge(guard, g), [], arms + [guard])
    ensures guard == [] ==> SumsTo(g, [], arms + [guard])
  {
    MergeContents(guard, g);
    forall x: Lookahead ensures InSome(x, arms + [guard]) <==> x in guard || InSome(x, arms) {
      InSomeMore(x, arms, guard);
    }
  }

  lemma SumEnter(ts: seq<Terminal>, a: seq<seq<Guard>>, guard: Guard)
    requires AllSum(ts, [], a)
    ensures AllSum(if |guard| > 0 then GuardAll(ts, guard) else ts, [], EnterAll(a, guard))
  {
    forall i | 0 <= i < |ts|
      ensures SumsTo((if |guard| > 0 then GuardAll(ts, guard) else ts)[i].guard, [], EnterAll(a, guard)[i])
    {
      SumOneMore(ts[i].guard, a[i], guard);
    }
  }

  lemma {:induction false} NodeSum(env: Env, g: Grammar, visiting: set<Label>)
    ensures AllSum(LookaheadNode(env, g, visiting).terms, [], NodeArms(env, g, visiting))
    decreases env.rules.Keys - visiting, g, 0
  {
    match g {
      case GConcat(_, children) => ConcatSum(env, children, visiting);
      case GChoice(_, children) => ChoiceSum(env, children, visiting);
      case GRepeat(_, body, _, _) => NodeSum(env, body, visiting);
      case GOptional(_, body) => NodeSum(env, body, visiting);
      case GReference(_, target) =>
        if target in env.rules && target !in visiting {
          NodeSum(env, env.rules[target], visiting + {target});
        }
      case GToken(_, _) =>
      case GNest(_, _, _, _) =>
      case GEpsilon(_) =>
    }
  }

  lemma {:induction false} ConcatSum(env: Env, nodes: seq<Grammar>, visiting: set<Label>)
    ensures AllSum(LookaheadConcat(env, nodes, visiting).terms, [], ConcatArms(env, nodes, visiting))
    decreases env.rules.Keys - visiting, nodes, 0
  {
    if nodes != [] {
      NodeSum(env, nodes[0], visiting);
      var head := LookaheadNode(env, nodes[0], visiting);
      var terms := ExtendAll(head.terms, nodes[1..]);
      SumRelabel(head.terms, terms, [], NodeArms(env, nodes[0], visiting));
      if head.nullable {
        ConcatSum(env, nodes[1..], visiting);
        SumAppend(terms, LookaheadConcat(env, nodes[1..], visiting).terms, [],
                  NodeArms(env, nodes[0], visiting), ConcatArms(env, nodes[1..], visiting));
      }
    }
  }

  lemma {:induction false} ArmSum(env: Env, arm: Grammar, visiting: set<Label>)
    ensures AllSum(LookaheadArm(env, arm, visiting).terms, [], ArmArms(env, arm, visiting))
    decreases env.rules.Keys - visiting, arm, 1
  {
    NodeSum(env, arm, visiting);
    var ts, inner, first := LookaheadNode(env, arm, visiting).terms, NodeArms(env, arm, visiting), ArmFirst(env, arm);
    if first.Some? {
      SumFilter(ts, inner, first.value);
      SumEnter(FilterByFirst(ts, first.value), KeepArms(ts, inner, first.value), ArmGuard(env, arm));
    } else {
      SumEnter(ts, inner, ArmGuard(env, arm));
    }
  }

  lemma {:induction false} ChoiceSum(env: Env, arms: seq<Grammar>, visiting: set<Label>)
    ensures AllSum(LookaheadChoice(env, arms, visiting).terms, [], ChoiceArms(env, arms, visiting))
    decreases env.rules.Keys - visiting, arms, 0
  {
    if arms != [] {
      ArmSum(env, arms[0], visiting);
      ChoiceSum(env, arms[1..], visiting);
      SumAppend(LookaheadArm(env, arms[0], visiting).terms, LookaheadChoice(env, arms[1..], visiting).terms, [],
                ArmArms(env, arms[0], visiting), ChoiceArms(env, arms[1..], visiting));
    }
  }

  lemma FrameSum(env: Env, f: Frame)
    ensures AllSum(FrameLookahead(env, f).terms, [], FrameArms(env, f))
  {
    ConcatSum(env, f.remaining, {});
    if f.rep.Some? {
      NodeSum(env, f.rep.value, {});
      var again := LookaheadNode(env, f.rep.value, {}).terms;
      SumRelabel(again, ExtendAll(again, f.remaining), [], NodeArms(env, f.rep.value, {}));
      SumAppend(ExtendAll(again, f.remaining), LookaheadConcat(env, f.remaining, {}).terms, [],
                NodeArms(env, f.rep.value, {}), ConcatArms(env, f.remaining, {}));
    } else {
      assert [] + ConcatArms(env, f.remaining, {}) == ConcatArms(env, f.remaining, {});
    }
  }

  lemma {:induction false} LevelSum(env: Env, levels: seq<Frame>, shifted: Guard)
    ensures AllSum(AdvanceLevels(env, levels, shifted).terms, shifted, LevelArms(env, levels, shifted))
    decreases |levels|
  {
    if levels != [] {
      LevelSum(env, levels[1..], shifted);
      if !(levels[0].remaining == [] && levels[0].rep.None?) {
        FrameSum(env, levels[0]);
        var here := FrameLookahead(env, levels[0]).terms;
        SumRelabel(here, EncloseAll(here, levels[1..]), [], FrameArms(env, levels[0]));
        SumMerge(EncloseAll(here, levels[1..]), shifted, FrameArms(env, levels[0]));
        SumAppend(Reattach(here, shifted, levels[1..]), AdvanceLevels(env, levels[1..], shifted).terms, shifted,
                  FrameArms(env, levels[0]), LevelArms(env, levels[1..], shifted));
      }
    }
  }

  // ------------------------------------------------------------------------------ runs

  /** An arm's guard, the position at which the arm was entered, and the positions it has been shifted at since. */
  datatype Entered = Entered(guard: Guard, at: nat, seen: seq<nat>)

  function From(s: Stream, k: nat): Stream {
    (n: nat) => s(k + n)
  }

  function Mark(arms: seq<Guard>, at: nat): (r: seq<Entered>)
    ensures |r| == |arms| && forall i :: 0 <= i < |arms| ==> r[i] == Entered(arms[i], at, [])
  {
    seq(|arms|, (i: nat) requires i < |arms| => Entered(arms[i], at, []))
  }

  function Passed(es: seq<Entered>, k: nat): (r: seq<Entered>)
    ensures |r| == |es| && forall i :: 0 <= i < |es| ==> r[i] == es[i].(seen := es[i].seen + [k])
  {
    seq(|es|, (i: nat) requires i < |es| => es[i].(seen := es[i].seen + [k]))
  }

  /** What is left of an entered guard. */
  function Pending(s: Stream, e: Entered): Guard
    decreases |e.seen|
  {
    if e.seen == [] then e.guard
    else Shift(Pending(s, e.(seen := e.seen[..|e.seen| - 1])), s(e.seen[|e.seen| - 1]))
  }

  /** A context on the stack, the arms entered on the way to it, and for each of its terminals the arms still to be entered. */
  datatype Slot = Slot(ctx: S.Context, past: seq<Entered>, arms: seq<seq<Guard>>)

  function ContextsOf(config: seq<Slot>): (r: seq<S.Context>)
    ensures |r| == |config| && forall i :: 0 <= i < |config| ==> r[i] == config[i].ctx
  {
    seq(|config|, (i: nat) requires i < |config| => config[i].ctx)
  }

  predicate Fits(env: Env, slot: Slot) {
    |slot.arms| == |S.TermsOf(env, slot.ctx)|
  }

  function RootSlot(env: Env, entry: Grammar): Slot {
    Slot(S.Root(env, entry), [], NodeArms(env, entry, {}))
  }

  function ContentArms(env: Env, nest: Grammar): (r: seq<seq<Guard>>) {
    if nest.GNest? then ConcatArms(env, [nest.body, S.CloseNode(nest.close)], {}) else []
  }

  /** The slots of one target: a continuation goes on with the arms of the terminal before it, a nest starts with none. */
  function SlotsFor(env: Env, c: S.Context, before: Terminal, passed: seq<Entered>): seq<Slot> {
    if c.Wrapper? then [Slot(S.Content(c.nest), [], ContentArms(env, c.nest)), Slot(c, [], [])]
    else [Slot(c, passed, AdvanceArms(env, before.(nest := None)))]
  }

  function EnterSlots(env: Env, targets: seq<S.Context>, before: Terminal, passed: seq<Entered>, config: seq<Slot>): seq<Slot> {
    if targets == [] then config
    else EnterSlots(env, targets[1..], before, passed, SlotsFor(env, targets[0], before, passed) + config)
  }

  /** A configuration of a run (top first) and the terminal of its top context that takes the next token. */
  datatype Stage = Stage(config: seq<Slot>, pick: nat)

  predicate StageOk(env: Env, st: Stage) {
    st.config != [] && Fits(env, st.config[0]) && st.pick < |S.TermsOf(env, st.config[0].ctx)|
  }

  function Taken(env: Env, st: Stage): Terminal
    requires StageOk(env, st)
  {
    S.TermsOf(env, st.config[0].ctx)[st.pick]
  }

  /** All arms entered up to the terminal taken at position k that still bear on it. */
  function EnteredAt(env: Env, st: Stage, k: nat): seq<Entered>
    requires StageOk(env, st)
  {
    st.config[0].past + Mark(st.config[0].arms[st.pick], k)
  }

  /** The configuration after the stage's terminal has taken the token at position k. */
  function After(env: Env, st: Stage, k: nat): Option<seq<Slot>>
    requires StageOk(env, st)
  {
    var tr := S.BuildTransition(env, Taken(env, st));
    match tr.op
    case OpPop => if tr.popAmount <= |st.config| then Some(st.config[tr.popAmount..]) else None
    case OpSet => Some(EnterSlots(env, tr.targets, Taken(env, st), Passed(EnteredAt(env, st, k), k), st.config[1..]))
  }

  predicate Takes(env: Env, st: Stage, token: Token) {
    StageOk(env, st) && Taken(env, st).token == token
  }

  predicate LeadsTo(env: Env, st: Stage, k: nat, next: seq<Slot>) {
    StageOk(env, st) && After(env, st, k) == Some(next)
  }

  /** A run of the machine from the entry over the stream's tokens. */
  ghost predicate IsRun(env: Env, entry: Grammar, run: seq<Stage>, s: Stream) {
    && run != [] && run[0].config == [RootSlot(env, entry)]
    && (forall k :: 0 <= k < |run| ==> Takes(env, run[k], s(k)))
    && (forall k :: 0 < k < |run| ==> LeadsTo(env, run[k - 1], k - 1, run[k].config))
  }

  lemma {:induction false} EnterSlotsProjects(env: Env, targets: seq<S.Context>, before: Terminal, passed: seq<Entered>, config: seq<Slot>)
    ensures ContextsOf(EnterSlots(env, targets, before, passed, config)) == S.Enter(targets, ContextsOf(config))
    decreases |targets|
  {
    if targets != [] {
      var c := targets[0];
      var more := SlotsFor(env, c, before, passed) + config;
      EnterSlotsProjects(env, targets[1..], before, passed, more);
      assert ContextsOf(more) == (if c.Wrapper? then [S.Content(c.nest), c] else [c]) + ContextsOf(config);
    }
  }

  /** The contexts of a run move exactly as the state graph's pushdown machine does, through nests and out of them. */
  lemma RunsAreMachineRuns(env: Env, st: Stage, k: nat)
    requires StageOk(env, st)
    ensures var after, step := After(env, st, k), S.Step(env, ContextsOf(st.config), st.pick);
            after.Some? == step.Some? && (after.Some? ==> ContextsOf(after.value) == step.value)
  {
    var stack := ContextsOf(st.config);
    var tr := S.BuildTransition(env, Taken(env, st));
    assert stack[1..] == ContextsOf(st.config[1..]);
    EnterSlotsProjects(env, tr.targets, Taken(env, st), Passed(EnteredAt(env, st, k), k), st.config[1..]);
    if tr.op.OpPop? && tr.popAmount <= |stack| {
      assert stack[tr.popAmount..] == ContextsOf(st.config[tr.popAmount..]);
    }
  }

  // ------------------------------------------------- a guard is what is left of its arms

  ghost predicate LeftOver(x: Lookahead, s: Stream, es: seq<Entered>) {
    exists i :: 0 <= i < |es| && x in Pending(s, es[i])
  }

  /** g holds what is left of the entered guards, and nothing else. */
  ghost predicate PendingSum(g: Guard, s: Stream, es: seq<Entered>) {
    forall x :: x in g <==> LeftOver(x, s, es)
  }

  lemma ShiftContents(g: Guard, consumed: Token, x: Lookahead)
    ensures x in Shift(g, consumed) <==> ShiftedFrom(x, g, consumed)
  {
    ShiftRawContents(g, consumed, x);
  }

  lemma {:induction false} PendingPassed(s: Stream, e: Entered, k: nat)
    ensures Pending(s, e.(seen := e.seen + [k])) == Shift(Pending(s, e), s(k))
  {
    assert (e.seen + [k])[..|e.seen|] == e.seen;
  }

  lemma PassedContents(s: Stream, es: seq<Entered>, i: nat, k: nat, x: Lookahead)
    requires i < |es|
    ensures x in Pending(s, Passed(es, k)[i]) <==> ShiftedFrom(x, Pending(s, es[i]), s(k))
  {
    PendingPassed(s, es[i], k);
    ShiftContents(Pending(s, es[i]), s(k), x);
  }

  lemma OneHas(s: Stream, es: seq<Entered>, l: Lookahead) returns (i: nat)
    requires LeftOver(l, s, es)
    ensures i < |es| && l in Pending(s, es[i])
  {
    i :| 0 <= i < |es| && l in Pending(s, es[i]);
  }

  lemma ShiftSumFrom(g: Guard, s: Stream, es: seq<Entered>, k: nat, x: Lookahead)
    requires PendingSum(g, s, es) && ShiftedFrom(x, g, s(k))
    ensures LeftOver(x, s, Passed(es, k))
  {
    var y := Lookahead(x.offset + 1, x.expected);
    var i := OneHas(s, es, if y in g then y else x);
    PassedContents(s, es, i, k, x);
  }

  lemma ShiftSumTo(g: Guard, s: Stream, es: seq<Entered>, k: nat, x: Lookahead)
    requires PendingSum(g, s, es) && LeftOver(x, s, Passed(es, k))
    ensures ShiftedFrom(x, g, s(k))
  {
    var i := OneHas(s, Passed(es, k), x);
    PassedContents(s, es, i, k, x);
    forall l | l in Pending(s, es[i]) ensures l in g {
      assert LeftOver(l, s, es);
    }
  }

  /** Shifting a guard shifts what each arm has left. */
  lemma ShiftSum(g: Guard, s: Stream, es: seq<Entered>, k: nat)
    requires PendingSum(g, s, es)
    ensures PendingSum(Shift(g, s(k)), s, Passed(es, k))
  {
    forall x ensures x in Shift(g, s(k)) <==> LeftOver(x, s, Passed(es, k)) {
      ShiftContents(g, s(k), x);
      if x in Shift(g, s(k)) {
        ShiftSumFrom(g, s, es, k, x);
      }
      if LeftOver(x, s, Passed(es, k)) {
        ShiftSumTo(g, s, es, k, x);
      }
    }
  }

  /** Arms entered now add their whole guards. */
  lemma JoinSum(g: Guard, pending: Guard, s: Stream, es: seq<Entered>, arms: seq<Guard>, k: nat)
    requires SumsTo(g, pending, arms) && PendingSum(pending, s, es)
    ensures PendingSum(g, s, es + Mark(arms, k))
  {
    var all := es + Mark(arms, k);
    forall x ensures x in g <==> LeftOver(x, s, all) {
      if x in pending {
        var i :| 0 <= i < |es| && x in Pending(s, es[i]);
        assert x in Pending(s, all[i]);
      }
      if i :| 0 <= i < |arms| && x in arms[i] {
        assert x in Pending(s, all[|es| + i]);
      }
      if i :| 0 <= i < |all| && x in Pending(s, all[i]) {
        if i < |es| {
          assert LeftOver(x, s, es);
        } else {
          assert x in arms[i - |es|];
        }
      }
    }
  }

  /** Every terminal of the slot carries what is left of its old arms and the whole guards of its own fresh ones. */
  ghost predicate SlotSums(env: Env, s: Stream, slot: Slot) {
    && Fits(env, slot)
    && exists pending :: PendingSum(pending, s, slot.past) && AllSum(S.TermsOf(env, slot.ctx), pending, slot.arms)
  }

  ghost predicate ConfigSums(env: Env, s: Stream, config: seq<Slot>) {
    forall i :: 0 <= i < |config| ==> SlotSums(env, s, config[i])
  }

  lemma AdvanceSum(env: Env, t: Terminal)
    ensures AllSum(AdvanceTerminal(env, t).terms, Shift(t.guard, t.token), AdvanceArms(env, t))
  {
    LevelSum(env, Levels(t), Shift(t.guard, t.token));
  }

  lemma RootSums(env: Env, entry: Grammar, s: Stream)
    ensures SlotSums(env, s, RootSlot(env, entry))
  {
    NodeSum(env, entry, {});
    assert PendingSum([], s, []);
  }

  lemma NestSums(env: Env, nest: Grammar, s: Stream)
    ensures SlotSums(env, s, Slot(S.Content(nest), [], ContentArms(env, nest)))
    ensures SlotSums(env, s, Slot(S.Wrapper(nest), [], []))
  {
    assert PendingSum([], s, []);
    assert AllSum([], [], []);
    if nest.GNest? {
      var nodes := [nest.body, S.CloseNode(nest.close)];
      ConcatSum(env, nodes, {});
      SumRelabel(LookaheadConcat(env, nodes, {}).terms, S.ContentTerms(env, nest), [], ContentArms(env, nest));
    }
  }

  /** The guard of the terminal taken is what is left of all the arms entered up to it. */
  lemma TakenSum(env: Env, s: Stream, st: Stage, k: nat)
    requires StageOk(env, st) && SlotSums(env, s, st.config[0])
    ensures PendingSum(Taken(env, st).guard, s, EnteredAt(env, st, k))
  {
    var slot := st.config[0];
    var pending :| PendingSum(pending, s, slot.past) && AllSum(S.TermsOf(env, slot.ctx), pending, slot.arms);
    assert SumsTo(Taken(env, st).guard, pending, slot.arms[st.pick]);
    JoinSum(Taken(env, st).guard, pending, s, slot.past, slot.arms[st.pick], k);
  }

  lemma NextSums(env: Env, s: Stream, term: Terminal, es: seq<Entered>, k: nat)
    requires PendingSum(term.guard, s, es) && term.token == s(k)
    ensures var adv := AdvanceTerminal(env, term.(nest := None));
            SlotSums(env, s, Slot(S.NextContext(adv, term.popOffset), Passed(es, k), AdvanceArms(env, term.(nest := None))))
  {
    var t := term.(nest := None);
    var adv := AdvanceTerminal(env, t);
    AdvanceSum(env, t);
    ShiftSum(term.guard, s, es, k);
    SumRelabel(adv.terms, OffsetAll(adv.terms, term.popOffset), Shift(t.guard, t.token), AdvanceArms(env, t));
  }

  lemma {:induction false} EnterSums(env: Env, s: Stream, targets: seq<S.Context>, before: Terminal, passed: seq<Entered>, config: seq<Slot>)
    requires ConfigSums(env, s, config)
    requires forall i, slot :: 0 <= i < |targets| && slot in SlotsFor(env, targets[i], before, passed) ==> SlotSums(env, s, slot)
    ensures ConfigSums(env, s, EnterSlots(env, targets, before, passed, config))
    decreases |targets|
  {
    if targets != [] {
      var more := SlotsFor(env, targets[0], before, passed);
      assert forall slot :: slot in more ==> SlotSums(env, s, slot);
      assert ConfigSums(env, s, more + config);
      EnterSums(env, s, targets[1..], before, passed, more + config);
    }
  }

  lemma StepSums(env: Env, s: Stream, st: Stage, k: nat, next: seq<Slot>)
    requires Takes(env, st, s(k)) && ConfigSums(env, s, st.config) && LeadsTo(env, st, k, next)
    ensures ConfigSums(env, s, next)
  {
    var term := Taken(env, st);
    var tr, es := S.BuildTransition(env, term), EnteredAt(env, st, k);
    if tr.op.OpSet? {
      TakenSum(env, s, st, k);
      NextSums(env, s, term, es, k);
      if term.nest.Some? {
        NestSums(env, term.nest.value, s);
      }
      EnterSums(env, s, tr.targets, term, Passed(es, k), st.config[1..]);
    }
  }

  lemma StartSums(env: Env, entry: Grammar, s: Stream)
    ensures ConfigSums(env, s, [RootSlot(env, entry)])
  {
    RootSums(env, entry, s);
  }

  lemma RunStarts(env: Env, entry: Grammar, run: seq<Stage>, s: Stream)
    requires IsRun(env, entry, run, s)
    ensures run != [] && run[0].config == [RootSlot(env, entry)]
  {
  }

  lemma RunTakes(env: Env, entry: Grammar, run: seq<Stage>, s: Stream, k: nat)
    requires IsRun(env, entry, run, s) && k < |run|
    ensures Takes(env, run[k], s(k))
    ensures k > 0 ==> LeadsTo(env, run[k - 1], k - 1, run[k].config)
  {
  }

  lemma {:induction false} RunSums(env: Env, entry: Grammar, run: seq<Stage>, s: Stream, k: nat)
    requires IsRun(env, entry, run, s) && k < |run|
    ensures ConfigSums(env, s, run[k].config)
    decreases k
  {
    if k == 0 {
      RunStarts(env, entry, run, s);
      StartSums(env, entry, s);
    } else {
      RunSums(env, entry, run, s, k - 1);
      RunTakes(env, entry, run, s, k - 1);
      RunTakes(env, entry, run, s, k);
      StepSums(env, s, run[k - 1], k - 1, run[k].config);
    }
  }

  /**
   In every run, inside nests and after them, a terminal's guard is what is left, after the
   tokens it was shifted at, of the guards of the arms entered up to it.
   */
  lemma RunSum(env: Env, entry: Grammar, run: seq<Stage>, s: Stream, k: nat)
    requires IsRun(env, entry, run, s) && k < |run|
    ensures PendingSum(Taken(env, run[k]).guard, s, EnteredAt(env, run[k], k))
  {
    RunSums(env, entry, run, s, k);
    TakenSum(env, s, run[k], k);
  }
}
