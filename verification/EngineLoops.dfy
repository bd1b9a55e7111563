/**
 When repetitions end. A bounded one always does. An unbounded one whose body answers goes
 on for ever exactly when its rounds come to succeed in place, which a body that has to
 consume can only do at the end of the input.
 */
module EngineLoops {
  import opened Languages
  import opened Grammars
  import opened Rules
  import opened Engine
  import opened EngineTransaction
  import EngineProgress

  // -------------------------------------------------------------------------- rounds

  /** The round that starts in s and gives o is followed by another. */
  ghost predicate GoesOn(m: Setup, retries: bool, s: State, o: Outcome) {
    o.Done? && NextTurn(m, retries, 0, [], s, o.result, o.state).Again?
  }

  /** The state after k rounds, if the loop gets that far. */
  ghost function After(m: Setup, exec: Exec, inner: Rule, retries: bool, s: State, k: nat): Option<State>
    decreases k
  {
    if k == 0 then Some(s)
    else
      var o := exec(inner, Normal, s);
      if GoesOn(m, retries, s, o) then After(m, exec, inner, retries, o.state, k - 1) else None
  }

  lemma {:induction false} AfterMore(m: Setup, exec: Exec, inner: Rule, retries: bool, s: State, j: nat, k: nat)
    requires After(m, exec, inner, retries, s, j).Some?
    ensures After(m, exec, inner, retries, s, j + k) == After(m, exec, inner, retries, After(m, exec, inner, retries, s, j).value, k)
    decreases j
  {
    if j > 0 {
      AfterMore(m, exec, inner, retries, exec(inner, Normal, s).state, j - 1, k);
    }
  }

  /** A round that is followed by another moves forward, or it succeeds where it is. */
  lemma RoundMoves(m: Setup, exec: Exec, inner: Rule, retries: bool, s: State)
    requires Transactional(m, exec) && Ready(m, s) && GoesOn(m, retries, s, exec(inner, Normal, s))
    ensures var o := exec(inner, Normal, s);
            Ready(m, o.state) && s.cursor <= o.state.cursor && (s.cursor == o.state.cursor ==> o.result.Success?)
  {
    assert RunsOk(m, exec, inner, Normal, s);
  }

  lemma {:induction false} AfterReady(m: Setup, exec: Exec, inner: Rule, retries: bool, s: State, k: nat)
    requires Transactional(m, exec) && Ready(m, s) && After(m, exec, inner, retries, s, k).Some?
    ensures var t := After(m, exec, inner, retries, s, k).value; Ready(m, t) && s.cursor <= t.cursor
    decreases k
  {
    if k > 0 {
      RoundMoves(m, exec, inner, retries, s);
      AfterReady(m, exec, inner, retries, exec(inner, Normal, s).state, k - 1);
    }
  }

  // ------------------------------------------------------------- what a loop collects

  /** How many of the first k rounds succeed. */
  ghost function Successes(exec: Exec, inner: Rule, s: State, k: nat): nat
    decreases k
  {
    if k == 0 then 0
    else
      var o := exec(inner, Normal, s);
      if !o.Done? then 0 else (if o.result.Success? then 1 else 0) + Successes(exec, inner, o.state, k - 1)
  }

  /** A loop that ends well after k rounds has counted those that succeeded, and neither recovered ones nor the last that did not. */
  lemma {:induction false} LoopCounts(m: Setup, exec: Exec, inner: Rule, max: Option<nat>, retries: bool, count: nat, children: seq<Tree>,
                                      s: State, turns: nat) returns (k: nat)
    requires RunLoop(m, exec, inner, max, retries, count, children, s, turns).LoopDone?
    ensures k <= turns && After(m, exec, inner, retries, s, k).Some?
    ensures RunLoop(m, exec, inner, max, retries, count, children, s, turns).count == count + Successes(exec, inner, s, k)
    decreases turns
  {
    k := 0;
    if !(max.Some? && count >= max.value) {
      var o := exec(inner, Normal, s);
      var turn := NextTurn(m, retries, count, children, s, o.result, o.state);
      if turn.Again? {
        var j := LoopCounts(m, exec, inner, max, retries, turn.count, turn.children, o.state, turns - 1);
        k := j + 1;
      }
    }
  }

  /**
   A round that ends in a recovered error behind its start, with nothing left for an ancestor, is
   tried again by the unbounded loop and ends the bounded one with what it has.
   */
  lemma {:induction false} RecoveredRound(m: Setup, exec: Exec, inner: Rule, max: Option<nat>, retries: bool, count: nat, children: seq<Tree>,
                                          s: State, turns: nat)
    requires !(max.Some? && count >= max.value) && turns > 0
    requires var o := exec(inner, Normal, s); o.Done? && o.result == Error() && Marker(m, o.state) != Marker(m, s)
    ensures var t := exec(inner, Normal, s).state;
            RunLoop(m, exec, inner, max, retries, count, children, s, turns) ==
            if retries then RunLoop(m, exec, inner, max, retries, count, children, t, turns - 1) else LoopDone(count, children, t)
  {
  }

  // ---------------------------------------------------------- loops that run for ever

  ghost predicate Answers(m: Setup, exec: Exec, inner: Rule) {
    forall t :: Ready(m, t) ==> AnswersAt(exec, inner, t)
  }

  ghost predicate AnswersAt(exec: Exec, inner: Rule, t: State) {
    exec(inner, Normal, t) != OutOfFuel
  }

  /** The unbounded loop is not done after this many turns. */
  ghost predicate StillRuns(m: Setup, exec: Exec, inner: Rule, retries: bool, s: State, turns: nat) {
    RunLoop(m, exec, inner, None, retries, 0, [], s, turns) == LoopOutOfFuel
  }

  lemma {:induction false} StillRunsIs(m: Setup, exec: Exec, inner: Rule, retries: bool, count: nat, children: seq<Tree>,
                                       s: State, turns: nat)
    requires Transactional(m, exec) && Answers(m, exec, inner) && Ready(m, s)
    ensures RunLoop(m, exec, inner, None, retries, count, children, s, turns) == LoopOutOfFuel <==>
            After(m, exec, inner, retries, s, turns).Some?
    decreases turns
  {
    if turns > 0 {
      assert AnswersAt(exec, inner, s);
      var o := exec(inner, Normal, s);
      if GoesOn(m, retries, s, o) {
        RoundMoves(m, exec, inner, retries, s);
        var turn := NextTurn(m, retries, count, children, s, o.result, o.state);
        StillRunsIs(m, exec, inner, retries, turn.count, turn.children, o.state, turns - 1);
      }
    }
  }

  /** Round j + 1 succeeds and leaves the cursor where it was. */
  ghost predicate InPlace(m: Setup, exec: Exec, inner: Rule, retries: bool, s: State, j: nat) {
    var t := After(m, exec, inner, retries, s, j);
    t.Some? && var o := exec(inner, Normal, t.value);
    o.Done? && o.result.Success? && o.state.cursor == t.value.cursor
  }

  /** From round k on every round succeeds in place. */
  ghost predicate Stuck(m: Setup, exec: Exec, inner: Rule, retries: bool, s: State, k: nat) {
    forall j: nat :: j >= k ==> InPlace(m, exec, inner, retries, s, j)
  }

  ghost predicate Reached(m: Setup, exec: Exec, inner: Rule, retries: bool, s: State, k: nat) {
    After(m, exec, inner, retries, s, k).Some?
  }

  lemma {:induction false} ReachedBefore(m: Setup, exec: Exec, inner: Rule, retries: bool, s: State, j: nat, k: nat)
    requires j <= k && Reached(m, exec, inner, retries, s, k)
    ensures Reached(m, exec, inner, retries, s, j)
    decreases j
  {
    if j > 0 {
      ReachedBefore(m, exec, inner, retries, exec(inner, Normal, s).state, j - 1, k - 1);
    }
  }

  lemma RoundAt(m: Setup, exec: Exec, inner: Rule, retries: bool, s: State, j: nat)
    requires Transactional(m, exec) && Ready(m, s) && Reached(m, exec, inner, retries, s, j + 1)
    ensures Reached(m, exec, inner, retries, s, j)
    ensures var t, u := After(m, exec, inner, retries, s, j).value, After(m, exec, inner, retries, s, j + 1).value;
            var o := exec(inner, Normal, t);
            o.Done? && o.state == u && t.cursor <= u.cursor && (t.cursor == u.cursor ==> o.result.Success?)
  {
    ReachedBefore(m, exec, inner, retries, s, j, j + 1);
    AfterMore(m, exec, inner, retries, s, j, 1);
    AfterReady(m, exec, inner, retries, s, j);
    var t := After(m, exec, inner, retries, s, j).value;
    assert GoesOn(m, retries, t, exec(inner, Normal, t));
    RoundMoves(m, exec, inner, retries, t);
  }

  /** The cursor can move only so often. */
  lemma {:induction false} CursorSettles(m: Setup, exec: Exec, inner: Rule, retries: bool, s: State) returns (k: nat)
    requires Transactional(m, exec) && Ready(m, s) && forall j: nat :: Reached(m, exec, inner, retries, s, j)
    ensures Stuck(m, exec, inner, retries, s, k)
    decreases |m.src.lexemes| - s.cursor
  {
    if i: nat :| !InPlace(m, exec, inner, retries, s, i) {
      assert Reached(m, exec, inner, retries, s, i + 1);
      RoundAt(m, exec, inner, retries, s, i);
      AfterReady(m, exec, inner, retries, s, i);
      AfterReady(m, exec, inner, retries, s, i + 1);
      var u := After(m, exec, inner, retries, s, i + 1).value;
      forall j: nat ensures Reached(m, exec, inner, retries, u, j) {
        AfterMore(m, exec, inner, retries, s, i + 1, j);
        assert Reached(m, exec, inner, retries, s, i + 1 + j);
      }
      k := CursorSettles(m, exec, inner, retries, u);
      StuckLater(m, exec, inner, retries, s, i + 1, k);
      k := i + 1 + k;
    } else {
      k := 0;
    }
  }

  lemma {:induction false} StuckLater(m: Setup, exec: Exec, inner: Rule, retries: bool, s: State, i: nat, k: nat)
    requires Reached(m, exec, inner, retries, s, i)
    requires Stuck(m, exec, inner, retries, After(m, exec, inner, retries, s, i).value, k)
    ensures Stuck(m, exec, inner, retries, s, i + k)
  {
    forall j: nat | j >= i + k ensures InPlace(m, exec, inner, retries, s, j) {
      AfterMore(m, exec, inner, retries, s, i, j - i);
      assert InPlace(m, exec, inner, retries, After(m, exec, inner, retries, s, i).value, j - i);
    }
  }

  /**
   The unbounded repetition of a body that always answers runs out of any number of turns
   exactly when, from some round on, every round succeeds without moving the cursor.
   */
  lemma RunsForEver(m: Setup, exec: Exec, inner: Rule, retries: bool, s: State)
    requires Transactional(m, exec) && Answers(m, exec, inner) && Ready(m, s)
    ensures (forall turns: nat :: StillRuns(m, exec, inner, retries, s, turns)) <==>
            exists k: nat :: Stuck(m, exec, inner, retries, s, k)
  {
    forall turns: nat ensures StillRuns(m, exec, inner, retries, s, turns) <==> Reached(m, exec, inner, retries, s, turns) {
      StillRunsIs(m, exec, inner, retries, 0, [], s, turns);
    }
    if forall turns: nat :: StillRuns(m, exec, inner, retries, s, turns) {
      forall j: nat ensures Reached(m, exec, inner, retries, s, j) {
        assert StillRuns(m, exec, inner, retries, s, j);
      }
      var k := CursorSettles(m, exec, inner, retries, s);
    }
    if k: nat :| Stuck(m, exec, inner, retries, s, k) {
      forall turns: nat ensures StillRuns(m, exec, inner, retries, s, turns) {
        assert InPlace(m, exec, inner, retries, s, turns + k);
        ReachedBefore(m, exec, inner, retries, s, turns, turns + k);
      }
    }
  }

  /** Whatever an unbounded loop keeps while its body succeeds keeps it going; a body out of fuel does not end it either. */
  lemma {:induction false} LoopDiverges(m: Setup, exec: Exec, inner: Rule, retries: bool, count: nat, children: seq<Tree>, s: State,
                                        turns: nat, keeps: State -> bool)
    requires keeps(s) && forall t :: keeps(t) ==> SucceedsInto(exec, inner, t, keeps)
    ensures RunLoop(m, exec, inner, None, retries, count, children, s, turns) == LoopOutOfFuel
    decreases turns
  {
    if turns > 0 {
      assert SucceedsInto(exec, inner, s, keeps);
      var o := exec(inner, Normal, s);
      if o.Done? {
        LoopDiverges(m, exec, inner, retries, count + 1, Attached(children, o.result), o.state, turns - 1, keeps);
      }
    }
  }

  ghost predicate SucceedsInto(exec: Exec, inner: Rule, t: State, keeps: State -> bool) {
    var o := exec(inner, Normal, t);
    o == OutOfFuel || (o.Done? && o.result.Success? && keeps(o.state))
  }

  // ------------------------------------------------------------------ loops that end

  ghost predicate Consumes(m: Setup, exec: Exec, inner: Rule, s: State) {
    var o := exec(inner, Normal, s);
    Ready(m, s) && o.Done? && o.result.Success? ==> s.cursor < o.state.cursor
  }

  /** A body that consumes whenever it succeeds. */
  ghost predicate AlwaysConsumes(m: Setup, exec: Exec, inner: Rule) {
    forall s :: Consumes(m, exec, inner, s)
  }

  /** Then a repetition goes round at most once for every lexeme left, and once more to see the end. */
  lemma {:induction false} LoopTerminates(m: Setup, exec: Exec, inner: Rule, max: Option<nat>, retries: bool, count: nat,
                                          children: seq<Tree>, s: State, turns: nat) returns (t: State)
    requires Transactional(m, exec) && AlwaysConsumes(m, exec, inner) && Ready(m, s)
    requires turns > |m.src.lexemes| - s.cursor
    ensures RunLoop(m, exec, inner, max, retries, count, children, s, turns) == LoopOutOfFuel ==>
              Ready(m, t) && s.cursor <= t.cursor && exec(inner, Normal, t) == OutOfFuel
    decreases turns
  {
    t := s;
    var o := exec(inner, Normal, s);
    if !(max.Some? && count >= max.value) && GoesOn(m, retries, s, o) {
      assert Consumes(m, exec, inner, s);
      RoundMoves(m, exec, inner, retries, s);
      var turn := NextTurn(m, retries, count, children, s, o.result, o.state);
      t := LoopTerminates(m, exec, inner, max, retries, turn.count, turn.children, o.state, turns - 1);
    }
  }

  /** A bounded repetition does not retry, so it ends after at most as many turns as its bound leaves. */
  lemma {:induction false} BoundedTerminates(m: Setup, exec: Exec, inner: Rule, max: nat, count: nat, children: seq<Tree>, s: State, turns: nat)
    returns (t: State)
    requires Transactional(m, exec) && Ready(m, s) && turns + count >= max
    ensures RunLoop(m, exec, inner, Some(max), false, count, children, s, turns) == LoopOutOfFuel ==>
              Ready(m, t) && s.cursor <= t.cursor && exec(inner, Normal, t) == OutOfFuel
    decreases turns
  {
    t := s;
    var o := exec(inner, Normal, s);
    if count < max && turns > 0 && GoesOn(m, false, s, o) {
      RoundMoves(m, exec, inner, false, s);
      t := BoundedTerminates(m, exec, inner, max, count + 1, Attached(children, o.result), o.state, turns - 1);
    }
  }

  // ---------------------------------------------------- a condition on the rule itself

  /** Nothing but consuming lets the rule succeed short of the end of the input. */
  predicate MustMove(m: Setup, rule: Rule) {
    !EngineProgress.MayRecoverInPlace(rule) && ContractOf(m, rule).mustConsume
  }

  /** The rule does not succeed in s without moving on. */
  ghost predicate MovesFrom(s: State, o: Outcome) {
    o.Done? && o.result.Success? ==> s.cursor != o.state.cursor
  }

  lemma {:induction false} SuccessMoves(m: Setup, rule: Rule, s: State, fuel: nat)
    requires MustMove(m, rule) && Ready(m, s)
    ensures var o := EngineAt(m, fuel)(rule, Normal, s);
            o.Done? && o.result.Success? ==> s.cursor < o.state.cursor || Peek(m, s).token == m.src.eof
  {
    EngineProgress.EngineOnward(m, rule, Normal, s, fuel);
    if Peek(m, s).token != m.src.eof {
      var p := (o: Outcome) => MovesFrom(s, o);
      forall exec, turns | Transactional(m, exec) ensures p(RunEnvelope(m, exec, rule, Normal, s, turns)) {
        EnvelopeMoves(m, exec, rule, Normal, s, turns);
      }
      EngineInherits(m, rule, Normal, s, fuel, p);
      assert p(EngineAt(m, fuel)(rule, Normal, s));
    }
  }

  /** Such a rule succeeds when its body does, within its contract, or by a recovery that moves on. */
  lemma {:induction false} EnvelopeMoves(m: Setup, exec: Exec, rule: Rule, mode: Mode, s: State, turns: nat)
    requires Transactional(m, exec) && Ready(m, s) && MustMove(m, rule) && Peek(m, s).token != m.src.eof
    ensures MovesFrom(s, RunEnvelope(m, exec, rule, mode, s, turns))
  {
    var c := RunBody(m, exec, rule, Enter(m, rule, mode, s), turns);
    if c.Done? && c.result.Failure? {
      EngineProgress.FailedBody(m, exec, rule, mode, s, turns, c);
    }
  }

  /** So the unbounded repetition of such a rule can go on for ever only at the end of the input. */
  lemma {:induction false} RunsForEverAtEnd(m: Setup, inner: Rule, retries: bool, s: State, fuel: nat) returns (k: nat)
    requires MustMove(m, inner) && Ready(m, s) && Answers(m, EngineAt(m, fuel), inner)
    requires forall turns: nat :: StillRuns(m, EngineAt(m, fuel), inner, retries, s, turns)
    ensures var t := After(m, EngineAt(m, fuel), inner, retries, s, k);
            t.Some? && Peek(m, t.value).token == m.src.eof && Stuck(m, EngineAt(m, fuel), inner, retries, s, k)
  {
    var exec := EngineAt(m, fuel);
    EngineTransactional(m, fuel);
    RunsForEver(m, exec, inner, retries, s);
    k :| Stuck(m, exec, inner, retries, s, k);
    assert InPlace(m, exec, inner, retries, s, k);
    AfterReady(m, exec, inner, retries, s, k);
    SuccessMoves(m, inner, After(m, exec, inner, retries, s, k).value, fuel);
  }

  // ------------------------------------------------------ a repetition that never ends

  predicate Shaped(rule: Rule, body: Body) {
    rule.body == body && !rule.contract.mustConsume && !rule.contract.mustReturnNode
  }

  /** A node around one rule that need not consume. */
  predicate NodeAround(rule: Rule, node: Kind, inner: Rule) {
    rule.body == Sequence(Some(node), [inner]) && !rule.contract.mustConsume
  }

  ghost predicate InPlaceOrOut(o: Outcome, s: State, success: bool) {
    o == OutOfFuel || (o.Done? && o.state.cursor == s.cursor && o.result.Success? == success
                       && (o.result.Failure? ==> o.result.kind.FailureNoMatch?))
  }

  lemma TokenDeclines(m: Setup, x: Rule, token: Token, kind: Option<Kind>, mode: Mode, s: State, fuel: nat)
    requires x.body == Expect([token], kind) && Peek(m, s).token != token
    ensures InPlaceOrOut(EngineAt(m, fuel)(x, mode, s), s, false)
  {
    EngineUnfolds(m, x, mode, s, fuel);
    assert Peek(m, Enter(m, x, mode, s)) == Peek(m, s);
  }

  lemma OptionSkips(m: Setup, opt: Rule, x: Rule, token: Token, kind: Option<Kind>, s: State, fuel: nat)
    requires Shaped(opt, Optional(x)) && x.body == Expect([token], kind) && Peek(m, s).token != token
    ensures InPlaceOrOut(EngineAt(m, fuel)(opt, Normal, s), s, true)
  {
    EngineUnfolds(m, opt, Normal, s, fuel);
    if fuel > 0 {
      var e := Enter(m, opt, Normal, s);
      assert Peek(m, e) == Peek(m, s);
      TokenDeclines(m, x, token, kind, Probe, e, fuel - 1);
    }
  }

  lemma {:induction false} SequenceBodyInPlace(m: Setup, exec: Exec, owner: Rule, opt: Rule, node: Kind, e: State)
    requires InPlaceOrOut(exec(opt, Normal, e), e, true)
    ensures var o := RunSequence(m, exec, owner, Some(node), [opt], Marker(m, e), [], e);
            InPlaceOrOut(o, e, true) && (o.Done? ==> o.result.node.Some?)
  {
    var o := exec(opt, Normal, e);
    assert [opt][1..] == [];
    if o.Done? {
      assert Judge(m, owner, opt, Marker(m, e), o.result, o.state) == Keep(o.result, o.state);
      var children := Attached([], o.result);
      assert RunSequence(m, exec, owner, Some(node), [], Marker(m, e), children, o.state) == Close(Some(node), children, o.state);
    }
  }

  lemma {:induction false} EnvelopeInPlace(m: Setup, exec: Exec, rule: Rule, s: State, turns: nat)
    requires ReferenceOf(rule).None? && !rule.contract.mustConsume
    requires var o := RunBody(m, exec, rule, Enter(m, rule, Normal, s), turns);
             InPlaceOrOut(o, Enter(m, rule, Normal, s), true) && (o.Done? ==> o.result.node.Some?)
    ensures InPlaceOrOut(RunEnvelope(m, exec, rule, Normal, s, turns), s, true)
  {
  }

  lemma {:induction false} NodeInPlace(m: Setup, exec: Exec, body: Rule, opt: Rule, node: Kind, s: State, turns: nat)
    requires NodeAround(body, node, opt) && InPlaceOrOut(exec(opt, Normal, Enter(m, body, Normal, s)), Enter(m, body, Normal, s), true)
    ensures InPlaceOrOut(RunEnvelope(m, exec, body, Normal, s, turns), s, true)
  {
    SequenceBodyInPlace(m, exec, body, opt, node, Enter(m, body, Normal, s));
    EnvelopeInPlace(m, exec, body, s, turns);
  }

  lemma {:induction false} SequenceInPlace(m: Setup, body: Rule, opt: Rule, x: Rule, token: Token, kind: Option<Kind>, node: Kind, s: State, fuel: nat)
    requires NodeAround(body, node, opt) && Shaped(opt, Optional(x)) && x.body == Expect([token], kind)
    requires Peek(m, s).token != token
    ensures InPlaceOrOut(EngineAt(m, fuel)(body, Normal, s), s, true)
  {
    if fuel > 0 {
      var e := Enter(m, body, Normal, s);
      EnterSees(m, body, s);
      OptionSkips(m, opt, x, token, kind, e, fuel - 1);
      NodeInPlace(m, EngineAt(m, fuel - 1), body, opt, node, s, fuel - 1);
    }
    EngineUnfolds(m, body, Normal, s, fuel);
  }

  /**
   Zero or more of a node around an option never answers at a token the option does not
   take, however much fuel there is; every round numbers one more node.
   */
  lemma {:induction false} OptionLoopNeverAnswers(m: Setup, rep: Rule, body: Rule, opt: Rule, x: Rule, token: Token, kind: Option<Kind>, node: Kind,
                               s: State, fuel: nat)
    requires rep.body == Repetition(None, 0, body)
    requires NodeAround(body, node, opt) && Shaped(opt, Optional(x)) && x.body == Expect([token], kind)
    requires Peek(m, s).token != token
    ensures ExecuteRule(m, rep, Normal, s, fuel) == OutOfFuel
  {
    LoopNeverAnswers(m, rep, body, opt, x, token, kind, node, s, fuel);
  }

  lemma {:induction false} LoopNeverAnswers(m: Setup, rep: Rule, body: Rule, opt: Rule, x: Rule, token: Token, kind: Option<Kind>,
                                            node: Kind, s: State, fuel: nat)
    requires rep.body == Repetition(None, 0, body)
    requires NodeAround(body, node, opt) && Shaped(opt, Optional(x)) && x.body == Expect([token], kind)
    requires Peek(m, s).token != token
    ensures EngineAt(m, fuel)(rep, Normal, s) == OutOfFuel
  {
    if fuel > 0 {
      LoopEnvelopeOut(m, rep, body, opt, x, token, kind, node, s, fuel - 1);
    }
    EngineUnfolds(m, rep, Normal, s, fuel);
  }

  lemma {:induction false} LoopEnvelopeOut(m: Setup, rep: Rule, body: Rule, opt: Rule, x: Rule, token: Token, kind: Option<Kind>,
                                           node: Kind, s: State, fuel: nat)
    requires rep.body == Repetition(None, 0, body)
    requires NodeAround(body, node, opt) && Shaped(opt, Optional(x)) && x.body == Expect([token], kind)
    requires Peek(m, s).token != token
    ensures RunEnvelope(m, EngineAt(m, fuel), rep, Normal, s, fuel) == OutOfFuel
  {
    EnterSees(m, rep, s);
    LoopAtToken(m, body, opt, x, token, kind, node, Enter(m, rep, Normal, s), fuel, fuel);
    LoopRuleOut(m, EngineAt(m, fuel), rep, body, s, fuel);
  }

  lemma EnterSees(m: Setup, rule: Rule, s: State)
    ensures Peek(m, Enter(m, rule, Normal, s)) == Peek(m, s)
  {
  }

  lemma {:induction false} LoopRuleOut(m: Setup, exec: Exec, rep: Rule, body: Rule, s: State, turns: nat)
    requires rep.body == Repetition(None, 0, body)
    requires RunLoop(m, exec, body, None, true, 0, [], Enter(m, rep, Normal, s), turns) == LoopOutOfFuel
    ensures RunEnvelope(m, exec, rep, Normal, s, turns) == OutOfFuel
  {
    assert RunBody(m, exec, rep, Enter(m, rep, Normal, s), turns) == OutOfFuel;
  }

  lemma {:induction false} LoopAtToken(m: Setup, body: Rule, opt: Rule, x: Rule, token: Token, kind: Option<Kind>, node: Kind, e: State, fuel: nat, turns: nat)
    requires NodeAround(body, node, opt) && Shaped(opt, Optional(x)) && x.body == Expect([token], kind)
    requires Peek(m, e).token != token
    ensures RunLoop(m, EngineAt(m, fuel), body, None, true, 0, [], e, turns) == LoopOutOfFuel
  {
    var here := (t: State) => t.cursor == e.cursor;
    forall t | here(t) ensures SucceedsInto(EngineAt(m, fuel), body, t, here) {
      assert Peek(m, t) == Peek(m, e);
      SequenceInPlace(m, body, opt, x, token, kind, node, t, fuel);
    }
    LoopDiverges(m, EngineAt(m, fuel), body, true, 0, [], e, turns, here);
  }
}
