/**
 Termination of the engine. When no production can come back to itself before consuming
 something and the body of every unbounded repetition consumes, every rule answers on every
 source: some fuel is enough.
 */
module EngineTermination {
  import opened Grammars
  import opened Sources
  import opened Rules
  import opened Engine
  import opened EngineTransaction
  import opened EngineFuel
  import opened EngineProgress
  import ChoiceDispatch
  import EngineParse

  /** Which productions can succeed on the spot, and a rank below top for each that falls along every reference at its left edge. */
  datatype Ranking = Ranking(empty: set<Label>, rank: map<Label, nat>, top: nat)

  /** Every reference the rule can run before it has consumed anything ranks below k. */
  predicate LeftBelow(z: Ranking, rule: Rule, k: nat)
    decreases rule, 1
  {
    match rule.body
    case Expect(_, _) => true
    case ListOf(_, _, _) => true
    case Nest(_, _, _, _) => true
    case Prefixed(_, _) => true
    case Reference(target) => target in z.rank ==> z.rank[target] < k
    case Sequence(_, rules) => LeftBelowInOrder(z, rules, k)
    case Root(_, rules) => LeftBelowInOrder(z, rules, k)
    case Choice(rules) => LeftBelowAll(z, rules, k)
    case Repetition(_, _, inner) => LeftBelow(z, inner, k)
    case BoundedRepetition(_, _, _, inner) => LeftBelow(z, inner, k)
    case Wrap(_, inner) => LeftBelow(z, inner, k)
    case Optional(inner) => LeftBelow(z, inner, k)
    case OptionalWhen(_, inner) => LeftBelow(z, inner, k)
    case Predict(_, inner) => LeftBelow(z, inner, k)
    case OptionalSuffix(_, inner, _) => LeftBelow(z, inner, k)
    case Required(inner) => LeftBelow(z, inner, k)
    case RecoverSync(inner) => LeftBelow(z, inner, k)
  }

  predicate LeftBelowInOrder(z: Ranking, rules: seq<Rule>, k: nat)
    decreases rules, 0
  {
    rules == [] || (LeftBelow(z, rules[0], k) && (MayBeEmpty(z.empty, rules[0]) ==> LeftBelowInOrder(z, rules[1..], k)))
  }

  predicate LeftBelowAll(z: Ranking, rules: seq<Rule>, k: nat)
    decreases rules, 0
  {
    rules == [] || (LeftBelow(z, rules[0], k) && LeftBelowAll(z, rules[1..], k))
  }

  /** The body of every unbounded repetition in the rule consumes. */
  predicate LoopsConsume(empty: set<Label>, rule: Rule)
    decreases rule, 1
  {
    match rule.body
    case Expect(_, _) => true
    case ListOf(_, _, _) => true
    case Reference(_) => true
    case Sequence(_, rules) => AllLoopsConsume(empty, rules)
    case Root(_, rules) => AllLoopsConsume(empty, rules)
    case Choice(rules) => AllLoopsConsume(empty, rules)
    case Repetition(_, _, inner) => !MayBeEmpty(empty, inner) && LoopsConsume(empty, inner)
    case BoundedRepetition(_, _, max, inner) => (max.None? ==> !MayBeEmpty(empty, inner)) && LoopsConsume(empty, inner)
    case Nest(_, _, _, inner) => LoopsConsume(empty, inner)
    case Prefixed(_, inner) => LoopsConsume(empty, inner)
    case Wrap(_, inner) => LoopsConsume(empty, inner)
    case Optional(inner) => LoopsConsume(empty, inner)
    case OptionalWhen(_, inner) => LoopsConsume(empty, inner)
    case Predict(_, inner) => LoopsConsume(empty, inner)
    case OptionalSuffix(_, inner, _) => LoopsConsume(empty, inner)
    case Required(inner) => LoopsConsume(empty, inner)
    case RecoverSync(inner) => LoopsConsume(empty, inner)
  }

  predicate AllLoopsConsume(empty: set<Label>, rules: seq<Rule>)
    decreases rules, 0
  {
    rules == [] || (LoopsConsume(empty, rules[0]) && AllLoopsConsume(empty, rules[1..]))
  }

  ghost predicate Fine(m: Setup, z: Ranking, rule: Rule) {
    WithoutEof(rule, m.src.eof) && LoopsConsume(z.empty, rule)
  }

  /** The registry is not left recursive and its loops consume, as z shows. */
  ghost predicate Ranks(m: Setup, z: Ranking) {
    && HoldsTheEmpty(m, z.empty) && RegistryWithoutEof(m.registry, m.src.eof)
    && m.registry.Keys <= z.rank.Keys && (forall l :: l in z.rank ==> z.rank[l] < z.top)
    && forall l :: l in m.registry ==> LeftBelow(z, m.registry[l], z.rank[l]) && LoopsConsume(z.empty, m.registry[l])
  }

  // ----------------------------------------------------------------- ranks and parts

  lemma {:induction false} TopCovers(z: Ranking, rule: Rule)
    requires forall l :: l in z.rank ==> z.rank[l] < z.top
    ensures LeftBelow(z, rule, z.top)
    decreases rule, 1
  {
    match rule.body
    case Sequence(_, rules) => TopCoversAll(z, rules);
    case Root(_, rules) => TopCoversAll(z, rules);
    case Choice(rules) => TopCoversAll(z, rules);
    case Repetition(_, _, inner) => TopCovers(z, inner);
    case BoundedRepetition(_, _, _, inner) => TopCovers(z, inner);
    case Wrap(_, inner) => TopCovers(z, inner);
    case Optional(inner) => TopCovers(z, inner);
    case OptionalWhen(_, inner) => TopCovers(z, inner);
    case Predict(_, inner) => TopCovers(z, inner);
    case OptionalSuffix(_, inner, _) => TopCovers(z, inner);
    case Required(inner) => TopCovers(z, inner);
    case RecoverSync(inner) => TopCovers(z, inner);
    case _ =>
  }

  lemma {:induction false} TopCoversAll(z: Ranking, rules: seq<Rule>)
    requires forall l :: l in z.rank ==> z.rank[l] < z.top
    ensures LeftBelowInOrder(z, rules, z.top) && LeftBelowAll(z, rules, z.top)
    decreases rules, 0
  {
    if rules != [] {
      TopCovers(z, rules[0]);
      TopCoversAll(z, rules[1..]);
    }
  }

  /** The parts of a rule: fine, and smaller than it. */
  ghost predicate PartsOf(m: Setup, z: Ranking, rules: seq<Rule>, parent: Rule) {
    forall r :: r in rules ==> r < parent && Fine(m, z, r)
  }

  lemma {:induction false} AllFine(m: Setup, z: Ranking, rules: seq<Rule>)
    requires AllWithoutEof(rules, m.src.eof) && AllLoopsConsume(z.empty, rules)
    ensures forall r :: r in rules ==> Fine(m, z, r)
    decreases |rules|
  {
    if rules != [] {
      AllFine(m, z, rules[1..]);
      assert rules == [rules[0]] + rules[1..];
    }
  }

  lemma {:induction false} LeftBelowEach(z: Ranking, rules: seq<Rule>, k: nat)
    requires LeftBelowAll(z, rules, k)
    ensures forall r :: r in rules ==> LeftBelow(z, r, k)
    decreases |rules|
  {
    if rules != [] {
      LeftBelowEach(z, rules[1..], k);
      assert rules == [rules[0]] + rules[1..];
    }
  }

  predicate HasParts(b: Body) {
    b.Sequence? || b.Root? || b.Choice?
  }

  lemma PartsFine(m: Setup, z: Ranking, rule: Rule)
    requires HasParts(rule.body) && Fine(m, z, rule)
    ensures PartsOf(m, z, rule.body.rules, rule)
  {
    AllFine(m, z, rule.body.rules);
  }

  ghost function Left(m: Setup, s: State): nat
    requires Ready(m, s)
  {
    |m.src.lexemes| - s.cursor
  }

  /** Engines by their fuel: more fuel answers more often and the same, and a body that answers makes its rule answer. */
  type Engines = nat -> Exec

  ghost predicate Rises(e: Engines, f: nat, g: nat) {
    f <= g ==> Extends(e(f), e(g))
  }

  ghost predicate Climbs(m: Setup, e: Engines, rule: Rule, mode: Mode, s: State, f: nat) {
    RunBody(m, e(f), rule, Enter(m, rule, mode, s), f) != OutOfFuel ==> e(f + 1)(rule, mode, s) != OutOfFuel
  }

  ghost predicate Moving(m: Setup, z: Ranking, exec: Exec) {
    Transactional(m, exec) && ConsumingExec(m, z.empty, exec)
  }

  ghost predicate Family(m: Setup, z: Ranking, e: Engines) {
    && (forall f, g :: Rises(e, f, g)) && (forall f :: Moving(m, z, e(f)))
    && forall rule, mode, s, f :: Climbs(m, e, rule, mode, s, f)
  }

  ghost predicate Running(m: Setup, z: Ranking, e: Engines, s: State, k: nat) {
    Ranks(m, z) && Family(m, z, e) && Ready(m, s) && k <= z.top
  }

  /** What a rule that has answered leaves behind. */
  lemma {:induction false} AnswerGoes(m: Setup, z: Ranking, exec: Exec, rule: Rule, mode: Mode, s: State)
    requires Moving(m, z, exec) && Ready(m, s) && Fine(m, z, rule)
    ensures var o := exec(rule, mode, s);
            && Goes(m, s, !MayBeEmpty(z.empty, rule), o) && (o.Done? ==> Ready(m, o.state))
            && (o.Done? && o.result.Failure? && o.result.kind.FailureNoMatch? ==> o.state.cursor == s.cursor)
  {
    ChildGoes(m, z.empty, exec, rule, mode, s);
  }

  /** More fuel gives the same answer. */
  lemma SameWithMore(m: Setup, z: Ranking, e: Engines, rule: Rule, mode: Mode, s: State, f: nat, g: nat)
    requires Family(m, z, e) && f <= g && e(f)(rule, mode, s) != OutOfFuel
    ensures e(g)(rule, mode, s) == e(f)(rule, mode, s) && Extends(e(f), e(g))
  {
    assert Rises(e, f, g);
    assert SameRun(e(f), e(g), rule, mode, s);
  }

  function Max(a: nat, b: nat): nat {
    if a < b then b else a
  }

  // ------------------------------------------------------------------ rules that answer

  lemma {:induction false} RuleAnswers(m: Setup, z: Ranking, e: Engines, rule: Rule, mode: Mode, s: State, k: nat) returns (f: nat)
    requires Running(m, z, e, s, k) && Fine(m, z, rule) && LeftBelow(z, rule, k)
    ensures e(f)(rule, mode, s) != OutOfFuel
    decreases Left(m, s), k, rule, 4
  {
    f := BodyAnswers(m, z, e, rule, Enter(m, rule, mode, s), k);
    assert Climbs(m, e, rule, mode, s, f);
    f := f + 1;
  }

  /** A sequence is at its start, or it has consumed something and any reference may run. */
  lemma {:induction false} SequenceAnswers(m: Setup, z: Ranking, e: Engines, parent: Rule, kind: Option<Kind>, rules: seq<Rule>, start: nat,
                                           children: seq<Tree>, s: State, k: nat) returns (f: nat)
    requires Running(m, z, e, s, k) && PartsOf(m, z, rules, parent) && start <= s.cursor
    requires k == z.top || (s.cursor == start && LeftBelowInOrder(z, rules, k))
    ensures RunSequence(m, e(f), parent, kind, rules, PeekRawAt(m.src, start).start, children, s) != OutOfFuel
    decreases Left(m, s), k, parent, 0, |rules|
  {
    f := 0;
    if rules != [] {
      TopCoversAll(z, rules);
      assert rules[0] in rules;
      f := RuleAnswers(m, z, e, rules[0], Normal, s, k);
      AnswerGoes(m, z, e(f), rules[0], Normal, s);
      var marker := PeekRawAt(m.src, start).start;
      var c := e(f)(rules[0], Normal, s);
      if c.Done? {
        JudgeGoes(m, parent, rules[0], start, c.result, c.state);
        var v := Judge(m, parent, rules[0], marker, c.result, c.state);
        if v.Keep? {
          var more := Attached(children, v.result);
          var next := if v.state.cursor == s.cursor then k else z.top;
          var g := SequenceAnswers(m, z, e, parent, kind, rules[1..], start, more, v.state, next);
          var h := Max(f, g);
          SameWithMore(m, z, e, rules[0], Normal, s, f, h);
          assert Rises(e, g, h);
          SequenceFuel(m, e(g), e(h), parent, kind, rules[1..], marker, more, v.state);
          f := h;
        }
      }
    }
  }

  lemma {:induction false} RootAnswers(m: Setup, z: Ranking, e: Engines, parent: Rule, kind: Kind, id: nat, rules: seq<Rule>, committed: bool,
                                       children: seq<Tree>, s: State, k: nat) returns (f: nat)
    requires Running(m, z, e, s, k) && PartsOf(m, z, rules, parent) && (k == z.top || LeftBelowInOrder(z, rules, k))
    ensures RunRoot(m, e(f), parent, kind, id, rules, committed, children, s) != OutOfFuel
    decreases Left(m, s), k, parent, 0, |rules|
  {
    f := 0;
    if rules != [] {
      TopCoversAll(z, rules);
      assert rules[0] in rules;
      f := RuleAnswers(m, z, e, rules[0], Normal, s, k);
      AnswerGoes(m, z, e(f), rules[0], Normal, s);
      var c := e(f)(rules[0], Normal, s);
      if c.Done? && c.result.Success? {
        var more := Attached(children, c.result);
        var next := if c.state.cursor == s.cursor then k else z.top;
        var g := RootAnswers(m, z, e, parent, kind, id, rules[1..], true, more, c.state, next);
        var h := Max(f, g);
        SameWithMore(m, z, e, rules[0], Normal, s, f, h);
        assert Rises(e, g, h);
        RootFuel(m, e(g), e(h), parent, kind, id, rules[1..], true, more, c.state);
        f := h;
      }
    }
  }

  ghost function RoundsLeft(max: Option<nat>, count: nat): nat {
    if max.Some? && count < max.value then max.value - count else 0
  }

  /** A round that is followed by another moves on, or it succeeds and counts. */
  lemma {:induction false} RoundProgress(m: Setup, z: Ranking, e: Engines, inner: Rule, max: Option<nat>, retries: bool, count: nat, children: seq<Tree>, s: State, f: nat)
    requires Ranks(m, z) && Family(m, z, e) && Ready(m, s) && Fine(m, z, inner) && (max.None? ==> !MayBeEmpty(z.empty, inner))
    requires !(max.Some? && count >= max.value)
    ensures var c := e(f)(inner, Normal, s);
            c.Done? ==>
              && Ready(m, c.state) && s.cursor <= c.state.cursor
              && var turn := NextTurn(m, retries, count, children, s, c.result, c.state);
                 turn.Again? && c.state.cursor == s.cursor ==> RoundsLeft(max, turn.count) < RoundsLeft(max, count)
  {
    AnswerGoes(m, z, e(f), inner, Normal, s);
  }

  lemma LoopStops(m: Setup, z: Ranking, e: Engines, inner: Rule, max: Option<nat>, retries: bool, count: nat, children: seq<Tree>, s: State, f: nat)
    requires Family(m, z, e)
    requires var c := e(f)(inner, Normal, s);
             c != OutOfFuel && (c.Done? ==> NextTurn(m, retries, count, children, s, c.result, c.state).Stop?)
    ensures RunLoop(m, e(f + 1), inner, max, retries, count, children, s, f + 1) != LoopOutOfFuel
  {
    SameWithMore(m, z, e, inner, Normal, s, f, f + 1);
  }

  lemma {:induction false} LoopGoesOn(m: Setup, z: Ranking, e: Engines, inner: Rule, max: Option<nat>, retries: bool, count: nat, children: seq<Tree>, s: State, g: nat, h: nat)
    requires Family(m, z, e)
    requires var c := e(g)(inner, Normal, s);
             c.Done? && var turn := NextTurn(m, retries, count, children, s, c.result, c.state);
             turn.Again? && RunLoop(m, e(h), inner, max, retries, turn.count, turn.children, c.state, h) != LoopOutOfFuel
    ensures var f := Max(g, h) + 1; RunLoop(m, e(f), inner, max, retries, count, children, s, f) != LoopOutOfFuel
  {
    var f := Max(g, h) + 1;
    var c := e(g)(inner, Normal, s);
    var turn := NextTurn(m, retries, count, children, s, c.result, c.state);
    SameWithMore(m, z, e, inner, Normal, s, g, f);
    assert Rises(e, h, f);
    LoopFuel(m, e(h), e(f), inner, max, retries, turn.count, turn.children, c.state, h, f - 1);
  }

  lemma {:induction false} LoopAnswers(m: Setup, z: Ranking, e: Engines, parent: Rule, inner: Rule, max: Option<nat>, retries: bool, count: nat,
                                       children: seq<Tree>, s: State, k: nat) returns (f: nat)
    requires Running(m, z, e, s, k) && inner < parent && Fine(m, z, inner) && LeftBelow(z, inner, k)
    requires max.None? ==> !MayBeEmpty(z.empty, inner)
    ensures RunLoop(m, e(f), inner, max, retries, count, children, s, f) != LoopOutOfFuel
    decreases Left(m, s), k, parent, 0, RoundsLeft(max, count)
  {
    if max.Some? && count >= max.value {
      return 0;
    }
    var g := RuleAnswers(m, z, e, inner, Normal, s, k);
    RoundProgress(m, z, e, inner, max, retries, count, children, s, g);
    var c := e(g)(inner, Normal, s);
    if c.Done? && NextTurn(m, retries, count, children, s, c.result, c.state).Again? {
      var turn := NextTurn(m, retries, count, children, s, c.result, c.state);
      TopCovers(z, inner);
      var next := if c.state.cursor == s.cursor then k else z.top;
      var h := LoopAnswers(m, z, e, parent, inner, max, retries, turn.count, turn.children, c.state, next);
      LoopGoesOn(m, z, e, inner, max, retries, count, children, s, g, h);
      f := Max(g, h) + 1;
    } else {
      LoopStops(m, z, e, inner, max, retries, count, children, s, g);
      f := g + 1;
    }
  }

  lemma {:induction false} RepetitionAnswers(m: Setup, z: Ranking, e: Engines, parent: Rule, kind: Option<Kind>, min: nat, max: Option<nat>,
                                             retries: bool, inner: Rule, s: State, k: nat) returns (f: nat)
    requires Running(m, z, e, s, k) && inner < parent && Fine(m, z, inner) && LeftBelow(z, inner, k)
    requires max.None? ==> !MayBeEmpty(z.empty, inner)
    ensures RunRepetition(m, e(f), kind, min, max, retries, inner, s, f) != OutOfFuel
    decreases Left(m, s), k, parent, 1
  {
    f := LoopAnswers(m, z, e, parent, inner, max, retries, 0, [], if kind.Some? then NewNode(s) else s, k);
  }

  lemma PartsRest(m: Setup, z: Ranking, rules: seq<Rule>, parent: Rule, k: nat)
    requires PartsOf(m, z, rules, parent) && (forall r :: r in rules ==> LeftBelow(z, r, k)) && rules != []
    ensures PartsOf(m, z, rules[1..], parent) && forall r :: r in rules[1..] ==> LeftBelow(z, r, k)
  {
    assert forall r :: r in rules[1..] ==> r in rules;
  }

  lemma {:induction false} ArmsAnswer(m: Setup, z: Ranking, e: Engines, parent: Rule, rules: seq<Rule>, s: State, k: nat) returns (f: nat)
    requires Running(m, z, e, s, k) && PartsOf(m, z, rules, parent) && forall r :: r in rules ==> LeftBelow(z, r, k)
    ensures RunArms(e(f), rules, s) != OutOfFuel
    decreases Left(m, s), k, parent, 0, |rules|
  {
    f := 0;
    if rules != [] {
      assert rules[0] in rules;
      f := RuleAnswers(m, z, e, rules[0], Normal, s, k);
      AnswerGoes(m, z, e(f), rules[0], Normal, s);
      var c := e(f)(rules[0], Normal, s);
      if c.Done? && c.result.Failure? && c.result.kind.FailureNoMatch? {
        PartsRest(m, z, rules, parent, k);
        var g := ArmsAnswer(m, z, e, parent, rules[1..], c.state, k);
        var h := Max(f, g);
        SameWithMore(m, z, e, rules[0], Normal, s, f, h);
        assert Rises(e, g, h);
        ArmsFuel(e(g), e(h), rules[1..], c.state);
        f := h;
      }
    }
  }

  lemma {:induction false} ChoiceAnswers(m: Setup, z: Ranking, e: Engines, rule: Rule, rules: seq<Rule>, s: State, k: nat) returns (f: nat)
    requires Running(m, z, e, s, k) && rule.body == Choice(rules) && Fine(m, z, rule) && LeftBelow(z, rule, k)
    ensures RunChoice(m, e(f), rules, s) != OutOfFuel
    decreases Left(m, s), k, rule, 1
  {
    PartsFine(m, z, rule);
    LeftBelowEach(z, rules, k);
    f := 0;
    match ChoiceDispatch.DispatchOf(m.analysis, Arms(rules), Ahead(m, s)) {
      case NoArm =>
      case Candidates(indices) =>
        SelectedIn(rules, indices);
        f := ArmsAnswer(m, z, e, rule, Selected(rules, indices), s, k);
      case Fallback =>
        f := ArmsAnswer(m, z, e, rule, rules, s, k);
    }
  }

  predicate RunsInner(b: Body) {
    b.Optional? || b.OptionalWhen? || b.Predict? || b.OptionalSuffix? || b.Required? || b.RecoverSync?
  }

  /** A rule around one inner rule at the same position. */
  lemma {:induction false} InnerAnswers(m: Setup, z: Ranking, e: Engines, rule: Rule, s: State, k: nat) returns (f: nat)
    requires Running(m, z, e, s, k) && RunsInner(rule.body) && Fine(m, z, rule) && LeftBelow(z, rule, k)
    ensures RunBody(m, e(f), rule, s, f) != OutOfFuel
    decreases Left(m, s), k, rule, 2
  {
    var inner := rule.body.inner;
    f := RuleAnswers(m, z, e, inner, if rule.body.Optional? then Probe else Normal, s, k);
  }

  /** A rule that runs its inner rule behind a token. */
  lemma {:induction false} BehindAnswers(m: Setup, z: Ranking, e: Engines, rule: Rule, s: State, k: nat) returns (f: nat)
    requires Running(m, z, e, s, k) && (rule.body.Nest? || rule.body.Prefixed?) && Fine(m, z, rule)
    ensures RunBody(m, e(f), rule, s, f) != OutOfFuel
    decreases Left(m, s), k, rule, 2
  {
    var inner := rule.body.inner;
    f := 0;
    if Peek(m, s).token == (if rule.body.Nest? then rule.body.open else rule.body.prefix) {
      TokenMoves(m, s);
      TopCovers(z, inner);
      f := RuleAnswers(m, z, e, inner, Normal, if rule.body.Nest? then Opened(m, s) else Take(m, s), z.top);
    }
  }

  lemma ReferenceUp(m: Setup, z: Ranking, e: Engines, target: Label, s: State, f: nat)
    requires Family(m, z, e) && target in m.registry
    requires RunBody(m, e(f), m.registry[target], WithRecovery(m.registry[target], s), f) != OutOfFuel
    ensures RunReference(m, e(f + 1), target, s, f + 1) != OutOfFuel
  {
    assert Rises(e, f, f + 1);
    BodyFuel(m, e(f), e(f + 1), m.registry[target], WithRecovery(m.registry[target], s), f, f);
  }

  lemma {:induction false} InOrderAnswers(m: Setup, z: Ranking, e: Engines, rule: Rule, s: State, k: nat) returns (f: nat)
    requires Running(m, z, e, s, k) && Fine(m, z, rule) && LeftBelow(z, rule, k)
    requires rule.body.Sequence? || rule.body.Wrap? || rule.body.Root?
    ensures RunBody(m, e(f), rule, s, f) != OutOfFuel
    decreases Left(m, s), k, rule, 2
  {
    match rule.body {
      case Sequence(kind, rules) =>
        PartsFine(m, z, rule);
        f := SequenceAnswers(m, z, e, rule, kind, rules, s.cursor, [], s, k);
      case Wrap(kind, inner) =>
        assert [inner][1..] == [];
        f := SequenceAnswers(m, z, e, rule, Some(kind), [inner], s.cursor, [], s, k);
      case Root(kind, rules) =>
        PartsFine(m, z, rule);
        f := RootAnswers(m, z, e, rule, kind, s.nextID + 1, rules, false, [], NewNode(s), k);
    }
  }

  lemma {:induction false} RoundsAnswer(m: Setup, z: Ranking, e: Engines, rule: Rule, s: State, k: nat) returns (f: nat)
    requires Running(m, z, e, s, k) && Fine(m, z, rule) && LeftBelow(z, rule, k)
    requires rule.body.Repetition? || rule.body.BoundedRepetition? || rule.body.Choice?
    ensures RunBody(m, e(f), rule, s, f) != OutOfFuel
    decreases Left(m, s), k, rule, 2
  {
    match rule.body {
      case Repetition(kind, min, inner) =>
        f := RepetitionAnswers(m, z, e, rule, kind, min, None, true, inner, s, k);
      case BoundedRepetition(kind, min, max, inner) =>
        f := RepetitionAnswers(m, z, e, rule, kind, min, max, false, inner, s, k);
      case Choice(rules) =>
        f := ChoiceAnswers(m, z, e, rule, rules, s, k);
    }
  }

  lemma {:induction false} BodyAnswers(m: Setup, z: Ranking, e: Engines, rule: Rule, s: State, k: nat) returns (f: nat)
    requires Running(m, z, e, s, k) && Fine(m, z, rule) && LeftBelow(z, rule, k)
    ensures RunBody(m, e(f), rule, s, f) != OutOfFuel
    decreases Left(m, s), k, rule, 3
  {
    if rule.body.Sequence? || rule.body.Wrap? || rule.body.Root? {
      f := InOrderAnswers(m, z, e, rule, s, k);
    } else if RunsParts(rule.body) {
      f := RoundsAnswer(m, z, e, rule, s, k);
    } else if RunsInner(rule.body) {
      f := InnerAnswers(m, z, e, rule, s, k);
    } else if rule.body.Nest? || rule.body.Prefixed? {
      f := BehindAnswers(m, z, e, rule, s, k);
    } else if rule.body.Reference? {
      var target := rule.body.target;
      f := 0;
      if target in m.registry {
        f := BodyAnswers(m, z, e, m.registry[target], WithRecovery(m.registry[target], s), z.rank[target]);
        ReferenceUp(m, z, e, target, s, f);
        f := f + 1;
      }
    } else {
      f := 0;
    }
  }

  lemma EngineClimbs(m: Setup, rule: Rule, mode: Mode, s: State, f: nat)
    requires RunBody(m, EngineAt(m, f), rule, Enter(m, rule, mode, s), f) != OutOfFuel
    ensures EngineAt(m, f + 1)(rule, mode, s) != OutOfFuel
  {
    EngineUnfolds(m, rule, mode, s, f + 1);
  }

  lemma EngineFamily(m: Setup, z: Ranking, e: Engines)
    requires Ranks(m, z) && forall f :: e(f) == EngineAt(m, f)
    ensures Family(m, z, e)
  {
    forall f, g ensures Rises(e, f, g) {
      if f <= g {
        EngineExtends(m, f, g);
      }
    }
    forall f ensures Moving(m, z, e(f)) {
      EngineTransactional(m, f);
      EngineConsumes(m, z.empty, f);
    }
    forall rule, mode, s, f ensures Climbs(m, e, rule, mode, s, f) {
      if RunBody(m, e(f), rule, Enter(m, rule, mode, s), f) != OutOfFuel {
        EngineClimbs(m, rule, mode, s, f);
      }
    }
  }

  /**
   The engine terminates: with a ranking of its productions, every rule whose unbounded
   repetitions consume answers from every state, whatever the source.
   */
  lemma EngineTerminates(m: Setup, z: Ranking, rule: Rule, mode: Mode, s: State) returns (fuel: nat)
    requires Ranks(m, z) && Fine(m, z, rule) && Ready(m, s)
    ensures ExecuteRule(m, rule, mode, s, fuel) != OutOfFuel
  {
    var e: Engines := (f: nat) => EngineAt(m, f);
    EngineFamily(m, z, e);
    TopCovers(z, rule);
    fuel := RuleAnswers(m, z, e, rule, mode, s, z.top);
  }

  /** So every parse ends. */
  lemma ParseTerminates(m: Setup, z: Ranking, rule: Rule) returns (fuel: nat)
    requires Ranks(m, z) && Fine(m, z, rule)
    ensures EngineParse.Parse(m, rule, fuel) != EngineParse.ParseOutOfFuel
  {
    fuel := EngineTerminates(m, z, rule, Normal, EngineParse.INITIAL);
  }

  /** A block: a bracketed run of items, each of them a node around one token or a block again. */
  predicate IsBlock(rule: Rule, block: Label, items: Rule, item: Rule, statement: Rule, word: Rule, again: Rule) {
    && rule.body.Nest? && rule.body.inner == items
    && items.body.Repetition? && items.body.min == 0 && items.body.inner == item
    && item.body == Choice([statement, again]) && statement.body.Wrap? && statement.body.inner == word
    && word.body.Expect? && again.body == Reference(block)
    && !MayRecoverInPlace(statement) && !MayRecoverInPlace(item) && !MayRecoverInPlace(again)
  }

  lemma {:induction false} ItemsConsume(empty: set<Label>, rule: Rule, block: Label, items: Rule, item: Rule, statement: Rule, word: Rule, again: Rule)
    requires IsBlock(rule, block, items, item, statement, word, again) && block !in empty
    ensures !MayBeEmpty(empty, item) && LoopsConsume(empty, item)
  {
    var arms := [statement, again];
    assert arms[0] == statement && arms[1..] == [again] && arms[1..][1..] == [];
    assert !MayBeEmpty(empty, word);
    assert !BodyMayBeEmpty(empty, statement) && !BodyMayBeEmpty(empty, again);
    assert !SomeMayBeEmpty(empty, arms[1..][1..]);
    assert !SomeMayBeEmpty(empty, arms[1..]);
    assert !SomeMayBeEmpty(empty, arms);
    assert LoopsConsume(empty, word) && LoopsConsume(empty, again);
    assert AllLoopsConsume(empty, arms[1..]);
    assert AllLoopsConsume(empty, arms);
  }

  /** Nested blocks, whose repetition runs barriers and comes back to the block, always answer. */
  lemma {:induction false} BlocksTerminate(m: Setup, block: Label, rule: Rule, items: Rule, item: Rule, statement: Rule, word: Rule, again: Rule,
                                           mode: Mode, s: State) returns (fuel: nat)
    requires IsBlock(rule, block, items, item, statement, word, again) && m.registry == map[block := rule]
    requires WithoutEof(rule, m.src.eof) && Ready(m, s)
    ensures ExecuteRule(m, rule, mode, s, fuel) != OutOfFuel
  {
    var none: set<Label> := {};
    var z := Ranking(none, map[block := 0], 1);
    ItemsConsume(none, rule, block, items, item, statement, word, again);
    assert LoopsConsume(none, items);
    assert LoopsConsume(none, rule);
    assert LeftBelow(z, rule, 0);
    assert !BodyMayBeEmpty(none, rule);
    fuel := EngineTerminates(m, z, rule, mode, s);
  }
}
