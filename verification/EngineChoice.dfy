/**
 Dispatching a choice by the analysis against trying its arms in order. The two agree, node
 ids aside, when the arms passed over would have answered "no match". With sound analysis
 facts every arm that demands nothing before its first token does; lists and required rules
 never do, and for them there is an exact condition.
 */
module EngineChoice {
  import opened Languages
  import opened Grammars
  import opened Guards
  import opened Rules
  import opened Engine
  import opened EngineTransaction
  import opened EngineRenaming
  import opened EngineIdle
  import opened EngineDemands
  import ChoiceDispatch

  /** The outcome is "no match", if it is any. */
  ghost predicate Declined(o: Outcome) {
    o.Done? ==> o.result.Failure? && o.result.kind.FailureNoMatch?
  }

  /** The arm does not match in s, nor in any state an undone arm leaves behind. */
  ghost predicate DeclinesAround(exec: Exec, rule: Rule, s: State) {
    forall t :: Restored(s, t) ==> Declined(exec(rule, Normal, t))
  }

  /** Rules run by exec never look at ids. */
  ghost predicate Blind(exec: Exec) {
    forall b, d :: BlindToIds(exec, b, d)
  }

  ghost predicate LedgerBelow(s: State) {
    forall i :: 0 <= i < |s.created| ==> s.created[i] <= s.nextID
  }

  /** The same outcome, with the ids handed out since s shifted. */
  ghost predicate Relabelled(s: State, o: Outcome, o': Outcome) {
    exists b: nat, d: nat :: b >= s.nextID && o' == ShiftOutcome(b, d, o)
  }

  /** The arms from position from on whose index is listed. */
  function Listed(rules: seq<Rule>, from: nat, indices: set<nat>): seq<Rule>
    requires from <= |rules|
    decreases |rules| - from
  {
    if from == |rules| then []
    else (if from in indices then [rules[from]] else []) + Listed(rules, from + 1, indices)
  }

  lemma RestoredAgain(s: State, t: State, u: State)
    requires Restored(s, t) && Restored(t, u)
    ensures Restored(s, u)
  {
  }

  /** A state an undone arm leaves behind is the one before it with a later id counter. */
  lemma RestoredShifts(s: State, t: State, d: nat)
    requires LedgerBelow(s) && s.entryDepth > 0 && Restored(s, t)
    ensures ShiftState(t.nextID, d, t) == t.(nextID := t.nextID + d)
    ensures t == s.(nextID := t.nextID)
  {
    assert ShiftIds(t.nextID, d, t.created) == t.created;
  }

  ghost predicate ArmsRun(m: Setup, exec: Exec, s: State) {
    Transactional(m, exec) && Blind(exec) && InEntry(m, s) && LedgerBelow(s)
  }

  /** An arm tried in two states that differ in their id counter. */
  lemma ArmTwice(m: Setup, exec: Exec, arm: Rule, s: State, t: State, d: nat)
    requires ArmsRun(m, exec, s) && Restored(s, t)
    ensures exec(arm, Normal, t.(nextID := t.nextID + d)) == ShiftOutcome(t.nextID, d, exec(arm, Normal, t))
    ensures var o := exec(arm, Normal, t);
            o.Done? && Declined(o) ==> Restored(s, o.state) && ShiftOutcome(t.nextID, d, o).state == o.state.(nextID := o.state.nextID + d)
  {
    assert BlindToIds(exec, t.nextID, d);
    assert RunsAlike(exec, t.nextID, d, arm, Normal, t);
    assert RunsOk(m, exec, arm, Normal, t);
    RestoredShifts(s, t, d);
    var o := exec(arm, Normal, t);
    if o.Done? && Declined(o) {
      RestoredAgain(s, t, o.state);
      RestoredShifts(s, o.state, d);
      assert ShiftIds(t.nextID, d, o.state.created) == o.state.created;
    }
  }

  /** Leaving out arms that decline changes nothing but ids in the outcome of an ordered choice. */
  lemma {:induction false} LeavingOutDecliners(m: Setup, exec: Exec, rules: seq<Rule>, from: nat, indices: set<nat>, s: State, t: State, d: nat)
    requires from <= |rules| && ArmsRun(m, exec, s) && Restored(s, t)
    requires forall i: nat :: from <= i < |rules| && i !in indices ==> DeclinesAround(exec, rules[i], s)
    requires RunArms(exec, rules[from..], t.(nextID := t.nextID + d)).Done?
    ensures Relabelled(s, RunArms(exec, Listed(rules, from, indices), t), RunArms(exec, rules[from..], t.(nextID := t.nextID + d)))
    decreases |rules| - from
  {
    var t' := t.(nextID := t.nextID + d);
    if from == |rules| {
      RestoredShifts(s, t, d);
      assert Done(NoMatch(), t') == ShiftOutcome(t.nextID, d, Done(NoMatch(), t));
    } else {
      var arm, later := rules[from], rules[from + 1..];
      assert rules[from..][0] == arm && rules[from..][1..] == later;
      if from in indices {
        ListedHere(rules, from, indices);
        ArmTwice(m, exec, arm, s, t, d);
        var o := exec(arm, Normal, t);
        if Declined(o) {
          LeavingOutDecliners(m, exec, rules, from + 1, indices, s, o.state, d);
        }
      } else {
        LeftOut(m, exec, arm, s, t, d);
        var o := exec(arm, Normal, t');
        var k := o.state.nextID - t.nextID;
        assert o.state == t.(nextID := t.nextID + k);
        assert Listed(rules, from, indices) == Listed(rules, from + 1, indices);
        LeavingOutDecliners(m, exec, rules, from + 1, indices, s, t, k);
      }
    }
  }

  lemma ListedHere(rules: seq<Rule>, from: nat, indices: set<nat>)
    requires from < |rules| && from in indices
    ensures Listed(rules, from, indices) != [] && Listed(rules, from, indices)[0] == rules[from]
    ensures Listed(rules, from, indices)[1..] == Listed(rules, from + 1, indices)
  {
  }

  lemma LeftOut(m: Setup, exec: Exec, arm: Rule, s: State, t: State, d: nat)
    requires ArmsRun(m, exec, s) && Restored(s, t) && DeclinesAround(exec, arm, s) && exec(arm, Normal, t.(nextID := t.nextID + d)).Done?
    ensures var o := exec(arm, Normal, t.(nextID := t.nextID + d));
            Declined(o) && o.state.nextID >= t.nextID + d && o.state == t.(nextID := o.state.nextID)
  {
    var t' := t.(nextID := t.nextID + d);
    assert Restored(s, t');
    assert RunsOk(m, exec, arm, Normal, t');
  }

  /** Picking arms by the candidate indices picks the listed ones. */
  lemma {:induction false} SelectedIsListed(a: Analysis, arms: seq<ChoiceDispatch.Arm>, p: Stream, rules: seq<Rule>, from: nat)
    requires |arms| == |rules| && from <= |rules|
    ensures Selected(rules, ChoiceDispatch.ViableFrom(a, arms, p, from)) == Listed(rules, from, ViableSet(a, arms, p))
    decreases |rules| - from
  {
    if from < |rules| {
      SelectedIsListed(a, arms, p, rules, from + 1);
      var rest := ChoiceDispatch.ViableFrom(a, arms, p, from + 1);
      if ChoiceDispatch.Viable(a, arms[from], p) {
        assert ChoiceDispatch.ViableFrom(a, arms, p, from) == [from] + rest;
        assert ([from] + rest)[1..] == rest;
      } else {
        assert ChoiceDispatch.ViableFrom(a, arms, p, from) == rest;
      }
    }
  }

  function ViableSet(a: Analysis, arms: seq<ChoiceDispatch.Arm>, p: Stream): set<nat> {
    set i: nat | i < |arms| && ChoiceDispatch.Viable(a, arms[i], p)
  }

  /** The arms that dispatch tries in s, from position from on. */
  function Candidates(m: Setup, rules: seq<Rule>, from: nat, s: State): seq<Rule>
    requires m.analysis.Some? && from <= |rules|
  {
    Listed(rules, from, ViableSet(m.analysis.value, Arms(rules), Ahead(m, s)))
  }

  predicate PassedOver(m: Setup, rules: seq<Rule>, i: nat, s: State)
    requires m.analysis.Some? && i < |rules|
  {
    !ChoiceDispatch.Viable(m.analysis.value, Arms(rules)[i], Ahead(m, s))
  }

  lemma {:induction false} ChoiceTriesCandidates(m: Setup, exec: Exec, rules: seq<Rule>, s: State)
    requires m.analysis.Some?
    ensures RunChoice(m, exec, rules, s) == RunArms(exec, Candidates(m, rules, 0, s), s)
  {
    SelectedIsListed(m.analysis.value, Arms(rules), Ahead(m, s), rules, 0);
  }

  /**
   Dispatch refines ordered choice: when every arm the analysis passes over declines, the
   candidates give the outcome of all arms tried in order, with later ids.
   */
  lemma {:induction false} DispatchRefines(m: Setup, exec: Exec, rules: seq<Rule>, s: State)
    requires ArmsRun(m, exec, s) && m.analysis.Some? && RunArms(exec, rules, s).Done?
    requires forall i: nat :: i < |rules| && PassedOver(m, rules, i, s) ==> DeclinesAround(exec, rules[i], s)
    ensures Relabelled(s, RunChoice(m, exec, rules, s), RunArms(exec, rules, s))
  {
    ChoiceTriesCandidates(m, exec, rules, s);
    assert rules[0..] == rules && s.(nextID := s.nextID + 0) == s && Restored(s, s);
    LeavingOutDecliners(m, exec, rules, 0, ViableSet(m.analysis.value, Arms(rules), Ahead(m, s)), s, s, 0);
  }

  // ----------------------------------------------------------- sound analysis facts

  /**
   What the analysis says of an arm is true of the rule's grammar, wherever it is used: not
   nullable means so, FIRST holds every first token, and a guard asks for no more than the
   rule's own lookahead.
   */
  ghost predicate FactsSound(m: Setup, rule: Rule, arm: ChoiceDispatch.Arm) {
    m.analysis.Some? && (arm.path.Some? ==>
      var a, path := m.analysis.value, arm.path.value;
      && (path in a.nullable && !a.nullable[path] ==> !Nullable(LangOf(m, rule)))
      && (ChoiceDispatch.ArmFirst(a, path).Some? ==> FirstCovers(LangOf(m, rule), ChoiceDispatch.ArmFirst(a, path).value))
      && GuardImplied(LookaheadsOf(rule), ChoiceDispatch.ArmGuard(a, arm, path)))
  }

  ghost predicate FirstCovers(l: Language, first: set<Token>) {
    forall t :: Starts(l, t) ==> t in first
  }

  ghost predicate GuardImplied(own: Guard, guard: Guard) {
    forall p: Stream :: Matches(p, own) ==> Matches(p, guard)
  }

  /** Then an arm that is passed over does not match, when it demands nothing before its first token. */
  lemma {:induction false} ExcludedDeclines(m: Setup, calm: set<Label>, rule: Rule, arm: ChoiceDispatch.Arm, s: State, fuel: nat)
    requires InEntry(m, s) && CalmOnly(m, calm) && Tentative(m, calm, rule) && FactsSound(m, rule, arm)
    requires !ChoiceDispatch.Viable(m.analysis.value, arm, Ahead(m, s))
    ensures DeclinesAround(EngineAt(m, fuel), rule, s)
  {
    forall t | Restored(s, t) ensures Declined(EngineAt(m, fuel)(rule, Normal, t)) {
      assert Ahead(m, t) == Ahead(m, s) && Ahead(m, t)(0) == Peek(m, t).token;
      if Starts(LangOf(m, rule), Peek(m, t).token) {
        GuardedIdle(m, calm, rule, t, fuel);
      } else {
        EngineIdles(m, calm, fuel);
        assert RunsIdle(m, calm, EngineAt(m, fuel), rule, Normal, t);
      }
    }
  }

  /** An arm behind a lookahead of its own is not tried where that fails, when the analysis knows both facts of it and no guard. */
  lemma {:induction false} OwnGuardDispatch(m: Setup, rules: seq<Rule>, i: nat, s: State)
    requires m.analysis.Some? && i < |rules| && rules[i].body.Predict? && rules[i].body.when != [] && !Matches(Ahead(m, s), rules[i].body.when)
    requires var a, arm := m.analysis.value, Arms(rules)[i];
             ChoiceDispatch.FullyKnown(a, arm) && (arm.path.value in a.armPredict ==> a.armPredict[arm.path.value].guard == [])
    ensures !ChoiceDispatch.Chosen(ChoiceDispatch.DispatchOf(m.analysis, Arms(rules), Ahead(m, s)), i)
  {
    ChoiceDispatch.CandidatesExact(m.analysis.value, Arms(rules), Ahead(m, s), i);
    MatchesBySet(Ahead(m, s), rules[i].body.when);
  }

  lemma EngineArmsRun(m: Setup, s: State, fuel: nat)
    requires InEntry(m, s) && LedgerBelow(s)
    ensures ArmsRun(m, EngineAt(m, fuel), s)
  {
    EngineTransactional(m, fuel);
    forall b, d ensures BlindToIds(EngineAt(m, fuel), b, d) {
      EngineBlindToIds(m, b, d, fuel);
    }
  }

  /**
   Inside a parse, with sound facts and arms that demand nothing before their first token among
   those passed over, dispatch gives the outcome of ordered choice: the same result, the same
   errors, cursor and stacks, and the same nodes under earlier ids.
   */
  lemma {:induction false} EngineDispatchRefines(m: Setup, calm: set<Label>, rules: seq<Rule>, s: State, fuel: nat)
    requires InEntry(m, s) && LedgerBelow(s) && m.analysis.Some? && CalmOnly(m, calm)
    requires forall i: nat :: i < |rules| ==> FactsSound(m, rules[i], Arms(rules)[i]) && (PassedOver(m, rules, i, s) ==> Tentative(m, calm, rules[i]))
    requires RunArms(EngineAt(m, fuel), rules, s).Done?
    ensures Relabelled(s, RunChoice(m, EngineAt(m, fuel), rules, s), RunArms(EngineAt(m, fuel), rules, s))
  {
    EngineArmsRun(m, s, fuel);
    forall i: nat | i < |rules| && PassedOver(m, rules, i, s) ensures DeclinesAround(EngineAt(m, fuel), rules[i], s) {
      ExcludedDeclines(m, calm, rules[i], Arms(rules)[i], s, fuel);
    }
    DispatchRefines(m, EngineAt(m, fuel), rules, s);
  }

  // ------------------------------------------------------------ rules that never decline

  /** The same outcome, ids aside. */
  ghost predicate SameButIds(o: Outcome, o': Outcome) {
    Nameless(o) == Nameless(o')
  }

  function NamelessTree(t: Tree): Tree
    decreases t, 1
  {
    Tree(0, t.kind, t.tokens, NamelessTrees(t.children))
  }

  function NamelessTrees(ts: seq<Tree>): (r: seq<Tree>)
    ensures |r| == |ts| && forall i :: 0 <= i < |ts| ==> r[i] == NamelessTree(ts[i])
    decreases ts, 0
  {
    if ts == [] then [] else [NamelessTree(ts[0])] + NamelessTrees(ts[1..])
  }

  /** An outcome without its ids: the trees, how many nodes the ledger holds, and everything else. */
  function Nameless(o: Outcome): Outcome {
    if !o.Done? then o
    else Done(if o.result.Failure? || o.result.node.None? then o.result else o.result.(node := Some(NamelessTree(o.result.node.value))),
              o.state.(nextID := 0, created := seq(|o.state.created|, i => 0)))
  }

  lemma {:induction false} ShiftedTreeNameless(b: nat, d: nat, t: Tree)
    ensures NamelessTree(ShiftTree(b, d, t)) == NamelessTree(t)
    decreases t, 1
  {
    ShiftedTreesNameless(b, d, t.children);
  }

  lemma {:induction false} ShiftedTreesNameless(b: nat, d: nat, ts: seq<Tree>)
    ensures NamelessTrees(ShiftTrees(b, d, ts)) == NamelessTrees(ts)
    decreases ts, 0
  {
    if ts != [] {
      ShiftedTreeNameless(b, d, ts[0]);
      ShiftedTreesNameless(b, d, ts[1..]);
      assert ShiftTrees(b, d, ts)[1..] == ShiftTrees(b, d, ts[1..]);
    }
  }

  lemma ShiftedNameless(b: nat, d: nat, o: Outcome)
    ensures SameButIds(o, ShiftOutcome(b, d, o)) && (Decides(o) <==> Decides(ShiftOutcome(b, d, o)))
  {
    if o.Done? && o.result.Success? && o.result.node.Some? {
      ShiftedTreeNameless(b, d, o.result.node.value);
    }
  }

  lemma RelabelledSame(s: State, o: Outcome, o': Outcome)
    requires Relabelled(s, o, o')
    ensures SameButIds(o, o') && (Decides(o) <==> Decides(o')) && (o.Done? <==> o'.Done?)
  {
    var b: nat, d: nat :| b >= s.nextID && o' == ShiftOutcome(b, d, o);
    ShiftedNameless(b, d, o);
  }

  lemma {:induction false} ArmsInTwo(exec: Exec, a: seq<Rule>, b: seq<Rule>, s: State)
    ensures var o := RunArms(exec, a, s);
            RunArms(exec, a + b, s) == if o.Done? && Declined(o) then RunArms(exec, b, o.state) else o
    decreases |a|
  {
    if a == [] {
      assert a + b == b;
    } else {
      assert (a + b)[0] == a[0] && (a + b)[1..] == a[1..] + b;
      var c := exec(a[0], Normal, s);
      if c.Done? && Declined(c) {
        ArmsInTwo(exec, a[1..], b, c.state);
      }
    }
  }

  lemma {:induction false} ArmsRestore(m: Setup, exec: Exec, rules: seq<Rule>, s: State)
    requires Transactional(m, exec) && Ready(m, s)
    ensures var o := RunArms(exec, rules, s); o.Done? && Declined(o) ==> Restored(s, o.state)
    decreases |rules|
  {
    if rules != [] {
      assert RunsOk(m, exec, rules[0], Normal, s);
      var c := exec(rules[0], Normal, s);
      if c.Done? && Declined(c) {
        ArmsRestore(m, exec, rules[1..], c.state);
        var o := RunArms(exec, rules[1..], c.state);
        if o.Done? && Declined(o) {
          RestoredAgain(s, c.state, o.state);
        }
      }
    }
  }

  lemma {:induction false} ListedInTwo(rules: seq<Rule>, from: nat, j: nat, indices: set<nat>)
    requires from <= j <= |rules|
    ensures Listed(rules, from, indices) == Listed(rules[..j], from, indices) + Listed(rules, j, indices)
    decreases j - from
  {
    if from < j {
      ListedInTwo(rules, from + 1, j, indices);
    }
  }

  /** Arms tried in a state an undone arm left behind answer as they do before it, ids aside. */
  lemma {:induction false} ArmsLater(m: Setup, exec: Exec, rules: seq<Rule>, s: State, t: State)
    requires ArmsRun(m, exec, s) && Restored(s, t)
    ensures SameButIds(RunArms(exec, rules, s), RunArms(exec, rules, t))
  {
    var d := t.nextID - s.nextID;
    assert Restored(s, s);
    RestoredShifts(s, s, d);
    RestoredShifts(s, t, 0);
    assert BlindToIds(exec, s.nextID, d);
    ArmsShift(exec, s.nextID, d, rules, s);
    ShiftedNameless(s.nextID, d, RunArms(exec, rules, s));
  }

  lemma {:induction false} OneArm(exec: Exec, rule: Rule, rest: seq<Rule>, s: State)
    requires exec(rule, Normal, s).Done? ==> Decides(exec(rule, Normal, s))
    ensures RunArms(exec, [rule] + rest, s) == exec(rule, Normal, s) == RunArms(exec, [rule], s)
  {
    assert ([rule] + rest)[0] == rule;
  }

  lemma FromArm(rules: seq<Rule>, j: nat)
    requires j < |rules|
    ensures rules == rules[..j] + ([rules[j]] + rules[j + 1..])
  {
  }

  /** The candidates among the first j arms stand for those arms when the ones left out decline. */
  lemma {:induction false} CandidatesAround(m: Setup, exec: Exec, rules: seq<Rule>, s: State, j: nat)
    requires ArmsRun(m, exec, s) && m.analysis.Some? && j <= |rules|
    requires forall i: nat :: i < j && PassedOver(m, rules, i, s) ==> DeclinesAround(exec, rules[i], s)
    requires RunArms(exec, rules[..j], s).Done?
    ensures var before, o := Listed(rules[..j], 0, ViableSet(m.analysis.value, Arms(rules), Ahead(m, s))), RunArms(exec, rules[..j], s);
            && Candidates(m, rules, 0, s) == before + Candidates(m, rules, j, s)
            && Relabelled(s, RunArms(exec, before, s), o)
  {
    var viable := ViableSet(m.analysis.value, Arms(rules), Ahead(m, s));
    ListedInTwo(rules, 0, j, viable);
    assert rules[..j][0..] == rules[..j] && s.(nextID := s.nextID + 0) == s && Restored(s, s);
    LeavingOutDecliners(m, exec, rules[..j], 0, viable, s, s, 0);
  }

  /** An arm that ends an ordered choice in s ends it in every state an undone arm leaves behind. */
  lemma {:induction false} DecidesLater(m: Setup, exec: Exec, rule: Rule, s: State, t: State)
    requires ArmsRun(m, exec, s) && DecidesAt(exec, rule, s) && Restored(s, t)
    ensures DecidesAt(exec, rule, t)
  {
    assert Restored(s, s);
    RestoredShifts(s, t, 0);
    ArmTwice(m, exec, rule, s, s, t.nextID - s.nextID);
  }

  /** And one that declines in s declines in all of them. */
  lemma {:induction false} DeclinesLater(m: Setup, exec: Exec, rule: Rule, s: State)
    requires ArmsRun(m, exec, s) && Declined(exec(rule, Normal, s))
    ensures DeclinesAround(exec, rule, s)
  {
    forall t | Restored(s, t) ensures Declined(exec(rule, Normal, t)) {
      assert Restored(s, s);
      RestoredShifts(s, t, 0);
      ArmTwice(m, exec, rule, s, s, t.nextID - s.nextID);
    }
  }

  /**
   When an arm that is passed over ends the choice, dispatch and ordered choice agree exactly
   when an arm before it answers, or the candidates after it happen to give its own outcome.
   */
  lemma {:induction false} DispatchAgainstOrder(m: Setup, exec: Exec, rules: seq<Rule>, s: State, j: nat)
    requires ArmsRun(m, exec, s) && m.analysis.Some? && j < |rules| && PassedOver(m, rules, j, s) && DecidesAt(exec, rules[j], s)
    requires forall i: nat :: i < j && PassedOver(m, rules, i, s) ==> DeclinesAround(exec, rules[i], s)
    requires RunArms(exec, rules, s).Done?
    ensures SameButIds(RunChoice(m, exec, rules, s), RunArms(exec, rules, s)) <==>
            || Decides(RunArms(exec, rules[..j], s))
            || SameButIds(RunArms(exec, Candidates(m, rules, j + 1, s), s), exec(rules[j], Normal, s))
  {
    var o, rest := RunArms(exec, rules[..j], s), [rules[j]] + rules[j + 1..];
    FromArm(rules, j);
    ArmsInTwo(exec, rules[..j], rest, s);
    ChoiceTriesCandidates(m, exec, rules, s);
    CandidatesAround(m, exec, rules, s, j);
    var before, later := Listed(rules[..j], 0, ViableSet(m.analysis.value, Arms(rules), Ahead(m, s))), Candidates(m, rules, j + 1, s);
    assert Candidates(m, rules, j, s) == later;
    var c := RunArms(exec, before, s);
    ArmsInTwo(exec, before, later, s);
    RelabelledSame(s, c, o);
    if Declined(o) {
      ArmsRestore(m, exec, rules[..j], s);
      ArmsRestore(m, exec, before, s);
      DecidesLater(m, exec, rules[j], s, o.state);
      OneArm(exec, rules[j], rules[j + 1..], o.state);
      OneArm(exec, rules[j], rules[j + 1..], s);
      ArmsLater(m, exec, later, s, c.state);
      ArmsLater(m, exec, [rules[j]], s, o.state);
    }
  }

  // ------------------------------------------------------- dispatch against ordered choice

  /** The first arm, tried in s, that does not answer "no match"; the number of arms if there is none. */
  ghost function FirstAnswer(exec: Exec, rules: seq<Rule>, s: State): (j: nat)
    ensures j <= |rules|
    ensures forall i: nat :: i < j ==> Declined(exec(rules[i], Normal, s))
    ensures j < |rules| ==> !Declined(exec(rules[j], Normal, s))
    decreases |rules|
  {
    if rules == [] || !Declined(exec(rules[0], Normal, s)) then 0 else 1 + FirstAnswer(exec, rules[1..], s)
  }

  /** An arm that is a candidate stays when the candidates stand for the arms up to it. */
  lemma {:induction false} AnsweredByCandidate(m: Setup, exec: Exec, rules: seq<Rule>, s: State, j: nat)
    requires ArmsRun(m, exec, s) && m.analysis.Some? && j < |rules| && !PassedOver(m, rules, j, s)
    requires forall i: nat :: i < j ==> DeclinesAround(exec, rules[i], s)
    requires DecidesAt(exec, rules[j], s) && RunArms(exec, rules, s).Done?
    ensures SameButIds(RunChoice(m, exec, rules, s), RunArms(exec, rules, s))
  {
    FromArm(rules, j);
    assert rules == rules[..j + 1] + rules[j + 1..] && rules[..j + 1] == rules[..j] + [rules[j]];
    ArmsInTwo(exec, rules[..j], [rules[j]], s);
    ArmsInTwo(exec, rules[..j + 1], rules[j + 1..], s);
    var d := RunArms(exec, rules[..j], s);
    if d.Done? && Declined(d) {
      ArmsRestore(m, exec, rules[..j], s);
      DecidesLater(m, exec, rules[j], s, d.state);
      OneArm(exec, rules[j], [], d.state);
    }
    var o := RunArms(exec, rules[..j + 1], s);
    assert !Declined(o) && RunArms(exec, rules, s) == o;
    ChoiceTriesCandidates(m, exec, rules, s);
    CandidatesAround(m, exec, rules, s, j + 1);
    var before := Listed(rules[..j + 1], 0, ViableSet(m.analysis.value, Arms(rules), Ahead(m, s)));
    ArmsInTwo(exec, before, Candidates(m, rules, j + 1, s), s);
    RelabelledSame(s, RunArms(exec, before, s), o);
  }

  /** No arm answers, or the first that does is a candidate, or the candidates after it happen to give its outcome. */
  ghost predicate OrderKept(m: Setup, exec: Exec, rules: seq<Rule>, s: State)
    requires m.analysis.Some?
  {
    var j := FirstAnswer(exec, rules, s);
    || j == |rules| || !PassedOver(m, rules, j, s)
    || SameButIds(RunArms(exec, Candidates(m, rules, j + 1, s), s), exec(rules[j], Normal, s))
  }

  /** Dispatch gives the outcome of ordered choice, ids aside. */
  ghost predicate DispatchIsOrder(m: Setup, exec: Exec, rules: seq<Rule>, s: State) {
    SameButIds(RunChoice(m, exec, rules, s), RunArms(exec, rules, s))
  }

  /**
   Dispatch against ordered choice, for all arms and without asking the analysis for anything:
   they agree if and only if no arm answers, or the first that does is a candidate, or the
   candidates after it happen to give its outcome.
   */
  lemma {:induction false} DispatchExact(m: Setup, exec: Exec, rules: seq<Rule>, s: State)
    requires ArmsRun(m, exec, s) && m.analysis.Some? && RunArms(exec, rules, s).Done?
    ensures DispatchIsOrder(m, exec, rules, s) <==> OrderKept(m, exec, rules, s)
  {
    var j := FirstAnswer(exec, rules, s);
    forall i: nat | i < j ensures DeclinesAround(exec, rules[i], s) {
      DeclinesLater(m, exec, rules[i], s);
    }
    if j == |rules| {
      DispatchRefines(m, exec, rules, s);
      RelabelledSame(s, RunChoice(m, exec, rules, s), RunArms(exec, rules, s));
    } else if PassedOver(m, rules, j, s) {
      NoneBefore(m, exec, rules, s, j);
      DispatchAgainstOrder(m, exec, rules, s, j);
    } else {
      AnsweredByCandidate(m, exec, rules, s, j);
    }
  }

  lemma {:induction false} NoneBefore(m: Setup, exec: Exec, rules: seq<Rule>, s: State, j: nat)
    requires ArmsRun(m, exec, s) && j <= |rules| && forall i: nat :: i < j ==> DeclinesAround(exec, rules[i], s)
    ensures Declined(RunArms(exec, rules[..j], s))
    decreases j
  {
    if j > 0 {
      NoneBefore(m, exec, rules, s, j - 1);
      assert rules[..j] == rules[..j - 1] + [rules[j - 1]];
      ArmsInTwo(exec, rules[..j - 1], [rules[j - 1]], s);
      var d := RunArms(exec, rules[..j - 1], s);
      if d.Done? {
        ArmsRestore(m, exec, rules[..j - 1], s);
        assert [rules[j - 1]][1..] == [];
      }
    }
  }

  lemma {:induction false} EngineDispatchExact(m: Setup, rules: seq<Rule>, s: State, fuel: nat)
    requires InEntry(m, s) && LedgerBelow(s) && m.analysis.Some? && RunArms(EngineAt(m, fuel), rules, s).Done?
    ensures DispatchIsOrder(m, EngineAt(m, fuel), rules, s) <==> OrderKept(m, EngineAt(m, fuel), rules, s)
  {
    EngineArmsRun(m, s, fuel);
    DispatchExact(m, EngineAt(m, fuel), rules, s);
  }

  // ------------------------------------------------------------- arms that demand

  /** With sound facts an arm without a lookahead of its own is passed over only where no word of it starts. */
  lemma {:induction false} PassedOverCannotStart(m: Setup, rule: Rule, arm: ChoiceDispatch.Arm, s: State)
    requires InEntry(m, s) && FactsSound(m, rule, arm) && LookaheadsOf(rule) == []
    requires !ChoiceDispatch.Viable(m.analysis.value, arm, Ahead(m, s))
    ensures !Starts(LangOf(m, rule), Peek(m, s).token)
  {
    assert Matches(Ahead(m, s), []);
    assert Ahead(m, s)(0) == Peek(m, s).token;
  }

  /** The arm ends every ordered choice, or ends it where the analysis rightly passes over it. */
  ghost predicate Insists(m: Setup, calm: set<Label>, firm: set<Label>, rule: Rule, arm: ChoiceDispatch.Arm) {
    Demanding(firm, rule) || (BeginsDemanding(m, calm, rule) && LookaheadsOf(rule) == [] && FactsSound(m, rule, arm))
  }

  lemma {:induction false} InsistingDecides(m: Setup, calm: set<Label>, firm: set<Label>, rule: Rule, arm: ChoiceDispatch.Arm, s: State, fuel: nat)
    requires InEntry(m, s) && CalmOnly(m, calm) && FirmOnly(m, firm) && Insists(m, calm, firm, rule, arm) && m.analysis.Some?
    requires !ChoiceDispatch.Viable(m.analysis.value, arm, Ahead(m, s))
    ensures DecidesAt(EngineAt(m, fuel), rule, s)
  {
    if Demanding(firm, rule) {
      DemandingNeverDeclines(m, firm, rule, fuel);
    } else {
      PassedOverCannotStart(m, rule, arm, s);
      BeginningDecides(m, calm, rule, s, fuel);
    }
  }

  /**
   So the first arm passed over that demands, or begins with one that does, decides whether
   dispatch is ordered choice.
   */
  lemma {:induction false} EngineDispatchAgainstOrder(m: Setup, calm: set<Label>, firm: set<Label>, rules: seq<Rule>, s: State, fuel: nat, j: nat)
    requires InEntry(m, s) && LedgerBelow(s) && m.analysis.Some? && CalmOnly(m, calm) && FirmOnly(m, firm)
    requires j < |rules| && PassedOver(m, rules, j, s) && Insists(m, calm, firm, rules[j], Arms(rules)[j])
    requires forall i: nat :: i < j ==> FactsSound(m, rules[i], Arms(rules)[i]) && (PassedOver(m, rules, i, s) ==> Tentative(m, calm, rules[i]))
    requires RunArms(EngineAt(m, fuel), rules, s).Done?
    ensures SameButIds(RunChoice(m, EngineAt(m, fuel), rules, s), RunArms(EngineAt(m, fuel), rules, s)) <==>
            || Decides(RunArms(EngineAt(m, fuel), rules[..j], s))
            || SameButIds(RunArms(EngineAt(m, fuel), Candidates(m, rules, j + 1, s), s), EngineAt(m, fuel)(rules[j], Normal, s))
  {
    EngineArmsRun(m, s, fuel);
    InsistingDecides(m, calm, firm, rules[j], Arms(rules)[j], s, fuel);
    forall i: nat | i < j && PassedOver(m, rules, i, s) ensures DeclinesAround(EngineAt(m, fuel), rules[i], s) {
      ExcludedDeclines(m, calm, rules[i], Arms(rules)[i], s, fuel);
    }
    DispatchAgainstOrder(m, EngineAt(m, fuel), rules, s, j);
  }
}
