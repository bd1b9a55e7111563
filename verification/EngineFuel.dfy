/**
 Fuel bounds how deep rules nest and how long loops run. It never changes an answer.
 */
module EngineFuel {
  import opened Grammars
  import opened Rules
  import opened Engine
  import opened EngineTransaction
  import ChoiceDispatch

  /** exec' answers at least as often as exec, and the same. */
  ghost predicate SameRun(exec: Exec, exec': Exec, rule: Rule, mode: Mode, s: State) {
    exec(rule, mode, s) == OutOfFuel || exec(rule, mode, s) == exec'(rule, mode, s)
  }

  ghost predicate Extends(exec: Exec, exec': Exec) {
    forall rule, mode, s :: SameRun(exec, exec', rule, mode, s)
  }

  ghost predicate SameOrOut(o: Outcome, o': Outcome) {
    o == OutOfFuel || o == o'
  }

  lemma {:induction false} SequenceFuel(m: Setup, exec: Exec, exec': Exec, owner: Rule, kind: Option<Kind>, rules: seq<Rule>, marker: nat,
                                        children: seq<Tree>, s: State)
    requires Extends(exec, exec')
    ensures SameOrOut(RunSequence(m, exec, owner, kind, rules, marker, children, s),
                      RunSequence(m, exec', owner, kind, rules, marker, children, s))
    decreases |rules|
  {
    if rules != [] {
      assert SameRun(exec, exec', rules[0], Normal, s);
      var c := exec(rules[0], Normal, s);
      if c.Done? {
        var v := Judge(m, owner, rules[0], marker, c.result, c.state);
        if v.Keep? {
          SequenceFuel(m, exec, exec', owner, kind, rules[1..], marker, Attached(children, v.result), v.state);
        }
      }
    }
  }

  lemma {:induction false} RootFuel(m: Setup, exec: Exec, exec': Exec, owner: Rule, kind: Kind, id: nat, rules: seq<Rule>, committed: bool,
                                    children: seq<Tree>, s: State)
    requires Extends(exec, exec')
    ensures SameOrOut(RunRoot(m, exec, owner, kind, id, rules, committed, children, s),
                      RunRoot(m, exec', owner, kind, id, rules, committed, children, s))
    decreases |rules|
  {
    if rules != [] {
      assert SameRun(exec, exec', rules[0], Normal, s);
      var c := exec(rules[0], Normal, s);
      if c.Done? && c.result.Success? {
        RootFuel(m, exec, exec', owner, kind, id, rules[1..], true, Attached(children, c.result), c.state);
      }
    }
  }

  lemma {:induction false} LoopFuel(m: Setup, exec: Exec, exec': Exec, inner: Rule, max: Option<nat>, retries: bool, count: nat,
                                    children: seq<Tree>, s: State, turns: nat, turns': nat)
    requires Extends(exec, exec') && turns <= turns'
    ensures var o := RunLoop(m, exec, inner, max, retries, count, children, s, turns);
            o == LoopOutOfFuel || o == RunLoop(m, exec', inner, max, retries, count, children, s, turns')
    decreases turns
  {
    if !(max.Some? && count >= max.value) && turns > 0 {
      assert SameRun(exec, exec', inner, Normal, s);
      var c := exec(inner, Normal, s);
      if c.Done? {
        var turn := NextTurn(m, retries, count, children, s, c.result, c.state);
        if turn.Again? {
          LoopFuel(m, exec, exec', inner, max, retries, turn.count, turn.children, c.state, turns - 1, turns' - 1);
        }
      }
    }
  }

  lemma {:induction false} ArmsFuel(exec: Exec, exec': Exec, rules: seq<Rule>, s: State)
    requires Extends(exec, exec')
    ensures SameOrOut(RunArms(exec, rules, s), RunArms(exec', rules, s))
    decreases |rules|
  {
    if rules != [] {
      assert SameRun(exec, exec', rules[0], Normal, s);
      var c := exec(rules[0], Normal, s);
      if c.Done? && c.result.Failure? && c.result.kind.FailureNoMatch? {
        ArmsFuel(exec, exec', rules[1..], c.state);
      }
    }
  }

  lemma {:induction false} OneRuleFuel(m: Setup, exec: Exec, exec': Exec, rule: Rule, s: State, turns: nat, turns': nat)
    requires Extends(exec, exec') && RunsOneRule(rule.body)
    ensures SameOrOut(RunBody(m, exec, rule, s, turns), RunBody(m, exec', rule, s, turns'))
  {
    var inner := rule.body.inner;
    assert SameRun(exec, exec', inner, Normal, s) && SameRun(exec, exec', inner, Probe, s);
    assert SameRun(exec, exec', inner, Normal, Take(m, s));
  }

  lemma {:induction false} BodyFuel(m: Setup, exec: Exec, exec': Exec, rule: Rule, s: State, turns: nat, turns': nat)
    requires Extends(exec, exec') && turns <= turns'
    ensures SameOrOut(RunBody(m, exec, rule, s, turns), RunBody(m, exec', rule, s, turns'))
    decreases turns, 1
  {
    if RunsOneRule(rule.body) {
      OneRuleFuel(m, exec, exec', rule, s, turns, turns');
      return;
    }
    match rule.body
    case Sequence(kind, rules) => SequenceFuel(m, exec, exec', rule, kind, rules, Marker(m, s), [], s);
    case Wrap(kind, inner) => SequenceFuel(m, exec, exec', rule, Some(kind), [inner], Marker(m, s), [], s);
    case Root(kind, rules) => RootFuel(m, exec, exec', rule, kind, s.nextID + 1, rules, false, [], NewNode(s));
    case Repetition(kind, _, inner) =>
      LoopFuel(m, exec, exec', inner, None, true, 0, [], if kind.Some? then NewNode(s) else s, turns, turns');
    case BoundedRepetition(kind, _, max, inner) =>
      LoopFuel(m, exec, exec', inner, max, false, 0, [], if kind.Some? then NewNode(s) else s, turns, turns');
    case Nest(_, _, _, inner) => assert SameRun(exec, exec', inner, Normal, Opened(m, s));
    case Reference(target) => ReferenceFuel(m, exec, exec', target, s, turns, turns');
    case Choice(rules) =>
      ArmsFuel(exec, exec', rules, s);
      var d := ChoiceDispatch.DispatchOf(m.analysis, Arms(rules), Ahead(m, s));
      if d.Candidates? {
        ArmsFuel(exec, exec', Selected(rules, d.indices), s);
      }
    case _ =>
  }

  lemma {:induction false} ReferenceFuel(m: Setup, exec: Exec, exec': Exec, target: Label, s: State, turns: nat, turns': nat)
    requires Extends(exec, exec') && turns <= turns'
    ensures SameOrOut(RunReference(m, exec, target, s, turns), RunReference(m, exec', target, s, turns'))
    decreases turns, 0
  {
    if target in m.registry && turns > 0 {
      BodyFuel(m, exec, exec', m.registry[target], WithRecovery(m.registry[target], s), turns - 1, turns' - 1);
    }
  }

  lemma EngineExtendsStep(m: Setup, rule: Rule, mode: Mode, s: State, fuel: nat, fuel': nat)
    requires fuel <= fuel' && (fuel > 0 ==> Extends(EngineAt(m, fuel - 1), EngineAt(m, fuel' - 1)))
    ensures SameRun(EngineAt(m, fuel), EngineAt(m, fuel'), rule, mode, s)
  {
    EngineUnfolds(m, rule, mode, s, fuel);
    EngineUnfolds(m, rule, mode, s, fuel');
    if fuel > 0 {
      BodyFuel(m, EngineAt(m, fuel - 1), EngineAt(m, fuel' - 1), rule, Enter(m, rule, mode, s), fuel - 1, fuel' - 1);
    }
  }

  lemma {:induction false} EngineExtends(m: Setup, fuel: nat, fuel': nat)
    requires fuel <= fuel'
    ensures Extends(EngineAt(m, fuel), EngineAt(m, fuel'))
    decreases fuel
  {
    if fuel > 0 {
      EngineExtends(m, fuel - 1, fuel' - 1);
    }
    forall rule, mode, s ensures SameRun(EngineAt(m, fuel), EngineAt(m, fuel'), rule, mode, s) {
      EngineExtendsStep(m, rule, mode, s, fuel, fuel');
    }
  }

  /** Once a run has answered, more fuel gives the same answer: a result does not depend on the fuel that found it. */
  lemma {:induction false} FuelIrrelevant(m: Setup, rule: Rule, mode: Mode, s: State, fuel: nat, fuel': nat)
    requires ExecuteRule(m, rule, mode, s, fuel) != OutOfFuel && ExecuteRule(m, rule, mode, s, fuel') != OutOfFuel
    ensures ExecuteRule(m, rule, mode, s, fuel) == ExecuteRule(m, rule, mode, s, fuel')
  {
    if fuel <= fuel' {
      EngineExtends(m, fuel, fuel');
      assert SameRun(EngineAt(m, fuel), EngineAt(m, fuel'), rule, mode, s);
    } else {
      EngineExtends(m, fuel', fuel);
      assert SameRun(EngineAt(m, fuel'), EngineAt(m, fuel), rule, mode, s);
    }
  }
}
