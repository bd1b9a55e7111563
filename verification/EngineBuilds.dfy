/**
 The tree of a clean success. Whenever the engine succeeds and leaves no error, its result is
 a reading of what it consumed: the nodes its combinators promise, in the order of the input,
 holding the lexemes taken under the kinds they were taken for.
 */
module EngineBuilds {
  import opened Languages
  import opened Grammars
  import opened TokenStreams
  import opened Sources
  import opened ErrorScopes
  import opened Rules
  import opened Engine
  import opened EngineTransaction
  import opened EngineSoundness
  import opened Readings
  import ListRule
  import ChoiceDispatch

  // -------------------------------------------------------------------- clean outcomes

  /** A fragment is a bare container. */
  predicate Bare(r: Result) {
    r.Success? && r.isFragment && r.node.Some? ==> r.node.value.kind == NO_KIND && r.node.value.tokens == []
  }

  /** A success without an error anywhere. */
  ghost predicate CleanSuccess(o: Outcome) {
    o.Done? && o.result.Success? && Clean(o.state.errors)
  }

  /** What a clean success makes is a reading of what it consumed. */
  ghost predicate OutcomeBuilt(m: Setup, rule: Rule, s: State, o: Outcome) {
    CleanSuccess(o) ==> Bare(o.result) && Built(m, rule, s.cursor, o.state.cursor, YieldOf(o.result))
  }

  ghost predicate RunBuilt(m: Setup, exec: Exec, rule: Rule, mode: Mode, s: State) {
    Ready(m, s) && WithoutEof(rule, m.src.eof) ==> OutcomeBuilt(m, rule, s, exec(rule, mode, s))
  }

  ghost predicate AllBuilt(m: Setup, exec: Exec) {
    forall rule, mode, s :: RunBuilt(m, exec, rule, mode, s)
  }

  /** The ground rules bodies run under. */
  ghost predicate Building(m: Setup, exec: Exec, s: State) {
    EngineSoundness.Inside(m, exec, s) && AllBuilt(m, exec)
  }

  /** What running an inner rule comes to. */
  ghost predicate ChildDone(m: Setup, rule: Rule, s: State, o: Outcome) {
    && OutcomeBuilt(m, rule, s, o) && OutcomeMoves(m, s, o)
    && (o.Done? && o.result.Failure? ==> if o.result.kind.FailureError? then !Clean(o.state.errors) else o.state.cursor == s.cursor)
  }

  lemma {:induction false} ChildBuilt(m: Setup, exec: Exec, rule: Rule, s: State)
    requires Building(m, exec, s) && WithoutEof(rule, m.src.eof)
    ensures ChildDone(m, rule, s, exec(rule, Normal, s))
    ensures var o := exec(rule, Normal, s); o.Done? ==> Building(m, exec, o.state)
  {
    assert RunBuilt(m, exec, rule, Normal, s);
    ChildSound(m, exec, rule, s);
  }

  /** The same of a result and the state it was returned in, read from c. */
  ghost predicate OutcomeBuiltFrom(m: Setup, rule: Rule, c: Position, r: Result, t: State) {
    r.Success? && Clean(t.errors) ==> Bare(r) && Built(m, rule, c, t.cursor, YieldOf(r))
  }

  /** A run that ends clean was clean all along. */
  lemma {:induction false} CleanBefore(m: Setup, t: State, o: Outcome)
    requires HasScope(t.errors.entries) && OutcomeMoves(m, t, o) && o.Done? && Clean(o.state.errors)
    ensures Clean(t.errors)
  {
    GrowsClean(t.errors, o.state.errors);
  }

  lemma {:induction false} ShapesAppend(a: seq<Tree>, b: seq<Tree>)
    ensures ShapesOf(a + b) == ShapesOf(a) + ShapesOf(b)
  {
  }

  lemma {:induction false} CollectedShapes(children: seq<Tree>, r: Result)
    requires r.Success?
    ensures ShapesOf(Attached(children, r)) == ShapesOf(children) + Parts(YieldOf(r))
  {
    if r.node.Some? {
      ShapesAppend(children, if r.isFragment then r.node.value.children else [r.node.value]);
    }
  }

  // --------------------------------------------------------------------- single tokens

  lemma {:induction false} ExpectBuilt(m: Setup, rule: Rule, tokens: seq<Token>, kind: Option<Kind>, s: State)
    requires Ready(m, s) && rule.body == Expect(tokens, kind)
    ensures OutcomeBuilt(m, rule, s, RunExpect(m, tokens, kind, s))
  {
    var o := RunExpect(m, tokens, kind, s);
    if CleanSuccess(o) {
      if kind.Some? {
        assert ShapeOf(o.result.node.value) == Shape(kind.value, [Peek(m, s)], []);
      }
      assert Builds(m, 0, rule, s.cursor, o.state.cursor, YieldOf(o.result));
    }
  }

  lemma {:induction false} ElementShapes(kind: Kind, first: nat, ls: seq<Lexeme>)
    ensures ShapesOf(Elements(kind, first, ls)) == Leaves(kind, ls)
  {
    var ts := Elements(kind, first, ls);
    forall i | 0 <= i < |ls| ensures ShapeOf(ts[i]) == Leaves(kind, ls)[i] {
      assert ShapeOf(ts[i]) == Shape(kind, [ls[i]], ShapesOf([]));
    }
  }

  lemma {:induction false} ListBuilt(m: Setup, rule: Rule, spec: ListRule.ListSpec, lk: Kind, ek: Kind, s: State)
    requires Ready(m, s) && rule.body == ListOf(spec, lk, ek) && WithoutEof(rule, m.src.eof)
    ensures OutcomeBuilt(m, rule, s, RunListOf(m, rule, spec, lk, ek, s))
  {
    var o := RunListOf(m, rule, spec, lk, ek, s);
    match ListRule.RunList(m.src, s.cursor, spec)
    case Accepted(at, elements) =>
      NewNodesKeep(s.(cursor := at), 1 + |elements|);
      ElementShapes(ek, s.nextID + 2, elements);
      var w := ListRule.ListAccepts(m.src, s.cursor, spec);
      assert ListRead(m.src, s.cursor, at, spec, elements);
      assert YieldOf(o.result) == One(Shape(lk, [], Leaves(ek, elements)));
      assert Builds(m, 0, rule, s.cursor, o.state.cursor, YieldOf(o.result));
    case Rejected(_, _, _) =>
  }

  // ------------------------------------------------------------------ rules in a row

  /** Rules one after the other have been read and lined up behind what was collected before. */
  ghost predicate Lined(m: Setup, rules: seq<Rule>, kind: Option<Kind>, before: seq<Shape>, s: State, o: Outcome) {
    CleanSuccess(o) ==> Bare(o.result) && exists xs :: LinedUp(m, rules, kind, before, s.cursor, o.state.cursor, YieldOf(o.result), xs)
  }

  ghost predicate LinedUp(m: Setup, rules: seq<Rule>, kind: Option<Kind>, before: seq<Shape>, c: Position, d: Position, y: Yield, xs: seq<Shape>) {
    BuiltAll(m, rules, c, d, xs) && y == Grouped(kind, before + xs)
  }

  lemma {:induction false} LinedAtEnd(m: Setup, kind: Option<Kind>, children: seq<Tree>, s: State, o: Outcome)
    requires o.Done? && o.result.Success? ==> o.state.cursor == s.cursor && Bare(o.result) && YieldOf(o.result) == Grouped(kind, ShapesOf(children))
    ensures Lined(m, [], kind, ShapesOf(children), s, o)
  {
    if CleanSuccess(o) {
      BuildsNone(m, s.cursor);
      assert ShapesOf(children) + [] == ShapesOf(children);
      assert LinedUp(m, [], kind, ShapesOf(children), s.cursor, s.cursor, YieldOf(o.result), []);
    }
  }

  lemma {:induction false} LinedUpMore(m: Setup, rules: seq<Rule>, kind: Option<Kind>, before: seq<Shape>, c: Position, e: Position, d: Position,
                                       z: Yield, y: Yield, xs: seq<Shape>)
    requires rules != [] && Built(m, rules[0], c, e, z) && LinedUp(m, rules[1..], kind, before + Parts(z), e, d, y, xs)
    ensures LinedUp(m, rules, kind, before, c, d, y, Parts(z) + xs)
  {
    BuiltThenAll(m, rules, c, e, d, z, xs);
    assert before + Parts(z) + xs == before + (Parts(z) + xs);
  }

  /** One more rule in front: it succeeded with r in t, and o is the rest of the run from there. */
  lemma {:induction false} LinedMore(m: Setup, rules: seq<Rule>, kind: Option<Kind>, children: seq<Tree>, s: State, r: Result, t: State, o: Outcome)
    requires rules != [] && r.Success? && OutcomeBuilt(m, rules[0], s, Done(r, t)) && HasScope(t.errors.entries) && OutcomeMoves(m, t, o)
    requires Lined(m, rules[1..], kind, ShapesOf(Attached(children, r)), t, o)
    ensures Lined(m, rules, kind, ShapesOf(children), s, o)
  {
    if CleanSuccess(o) {
      CleanBefore(m, t, o);
      CollectedShapes(children, r);
      var y, z := YieldOf(o.result), YieldOf(r);
      var xs :| LinedUp(m, rules[1..], kind, ShapesOf(children) + Parts(z), t.cursor, o.state.cursor, y, xs);
      assert Built(m, rules[0], s.cursor, t.cursor, z);
      LinedUpMore(m, rules, kind, ShapesOf(children), s.cursor, t.cursor, o.state.cursor, z, y, xs);
    }
  }

  /** A run that is not clean where it stands has nothing to show. */
  lemma {:induction false} UncleanStays(m: Setup, t: State, o: Outcome)
    requires HasScope(t.errors.entries) && OutcomeMoves(m, t, o) && !Clean(t.errors)
    ensures !CleanSuccess(o)
  {
    if CleanSuccess(o) {
      CleanBefore(m, t, o);
    }
  }

  /** An element kept in a sequence has succeeded, or its absence is on record. */
  lemma {:induction false} LinedKept(m: Setup, owner: Rule, kind: Option<Kind>, rules: seq<Rule>, marker: nat, children: seq<Tree>, s: State,
                                     r: Result, t: State, kept: Result, u: State, o: Outcome)
    requires rules != [] && Ready(m, t) && HasScope(t.errors.entries) && HasScope(u.errors.entries)
    requires OutcomeBuilt(m, rules[0], s, Done(r, t)) && Judge(m, owner, rules[0], marker, r, t) == Keep(kept, u)
    requires OutcomeMoves(m, u, o) && Lined(m, rules[1..], kind, ShapesOf(Attached(children, kept)), u, o)
    ensures Lined(m, rules, kind, ShapesOf(children), s, o)
  {
    if r.Success? {
      LinedMore(m, rules, kind, children, s, r, t, o);
    } else {
      ExpectedUnclean(m, t, owner);
      UncleanStays(m, u, o);
    }
  }

  lemma {:induction false} SequenceBuilt(m: Setup, exec: Exec, owner: Rule, kind: Option<Kind>, rules: seq<Rule>, marker: nat,
                                         children: seq<Tree>, s: State)
    requires Building(m, exec, s) && AllWithoutEof(rules, m.src.eof)
    ensures Lined(m, rules, kind, ShapesOf(children), s, RunSequence(m, exec, owner, kind, rules, marker, children, s))
    decreases |rules|
  {
    if rules == [] {
      LinedAtEnd(m, kind, children, s, Close(kind, children, s));
    } else {
      ChildBuilt(m, exec, rules[0], s);
      var c := exec(rules[0], Normal, s);
      if c.Done? {
        JudgeMoves(m, s, owner, rules[0], marker, c.result, c.state);
        var v := Judge(m, owner, rules[0], marker, c.result, c.state);
        if v.Keep? {
          var more := Attached(children, v.result);
          SequenceBuilt(m, exec, owner, kind, rules[1..], marker, more, v.state);
          SequenceMoves(m, exec, owner, kind, rules[1..], marker, more, v.state);
          LinedKept(m, owner, kind, rules, marker, children, s, c.result, c.state, v.result, v.state,
                    RunSequence(m, exec, owner, kind, rules[1..], marker, more, v.state));
        }
      }
    }
  }

  lemma {:induction false} RootBuilt(m: Setup, exec: Exec, owner: Rule, kind: Kind, id: nat, rules: seq<Rule>, committed: bool,
                                     children: seq<Tree>, s: State)
    requires Building(m, exec, s) && AllWithoutEof(rules, m.src.eof)
    ensures Lined(m, rules, Some(kind), ShapesOf(children), s, RunRoot(m, exec, owner, kind, id, rules, committed, children, s))
    decreases |rules|
  {
    if rules == [] {
      LinedAtEnd(m, Some(kind), children, s, RunRoot(m, exec, owner, kind, id, rules, committed, children, s));
    } else {
      ChildBuilt(m, exec, rules[0], s);
      var c := exec(rules[0], Normal, s);
      if c.Done? && c.result.Success? {
        var more := Attached(children, c.result);
        RootBuilt(m, exec, owner, kind, id, rules[1..], true, more, c.state);
        RootMoves(m, exec, owner, kind, id, rules[1..], true, more, c.state);
        LinedMore(m, rules, Some(kind), children, s, c.result, c.state, RunRoot(m, exec, owner, kind, id, rules[1..], true, more, c.state));
      }
    }
  }

  lemma {:induction false} RowBuilt(m: Setup, exec: Exec, rule: Rule, s: State, turns: nat)
    requires Building(m, exec, s) && WithoutEof(rule, m.src.eof) && (rule.body.Sequence? || rule.body.Root?)
    ensures OutcomeBuilt(m, rule, s, RunBody(m, exec, rule, s, turns))
  {
    var o := RunBody(m, exec, rule, s, turns);
    var kind := if rule.body.Sequence? then rule.body.sequenceKind else Some(rule.body.rootKind);
    match rule.body {
      case Sequence(_, rules) => SequenceBuilt(m, exec, rule, kind, rules, Marker(m, s), [], s);
      case Root(k, rules) => RootBuilt(m, exec, rule, k, s.nextID + 1, rules, false, [], NewNode(s));
    }
    if CleanSuccess(o) {
      var xs :| LinedUp(m, rule.body.rules, kind, ShapesOf([]), s.cursor, o.state.cursor, YieldOf(o.result), xs);
      assert ShapesOf([]) + xs == xs;
      var h: nat :| BuildsAll(m, h, rule.body.rules, s.cursor, o.state.cursor, xs);
      assert Builds(m, h, rule, s.cursor, o.state.cursor, YieldOf(o.result));
    }
  }

  lemma {:induction false} FirstOfAll(m: Setup, h: nat, rules: seq<Rule>, c: Position, d: Position, xs: seq<Shape>) returns (e: nat, y: Yield, more: seq<Shape>)
    requires rules != [] && BuildsAll(m, h, rules, c, d, xs)
    ensures Builds(m, h, rules[0], c, e, y) && BuildsAll(m, h, rules[1..], e, d, more) && xs == Parts(y) + more
  {
    e, y, more :| Builds(m, h, rules[0], c, e, y) && BuildsAll(m, h, rules[1..], e, d, more) && xs == Parts(y) + more;
  }

  /** A row of one rule. */
  lemma {:induction false} AllOfOne(m: Setup, h: nat, inner: Rule, c: Position, d: Position, xs: seq<Shape>) returns (z: Yield)
    requires BuildsAll(m, h, [inner], c, d, xs)
    ensures Builds(m, h, inner, c, d, z) && xs == Parts(z)
  {
    var e, y, more := FirstOfAll(m, h, [inner], c, d, xs);
    assert [inner][1..] == [];
    assert e == d && more == [];
    z := y;
  }

  lemma {:induction false} WrapBuilt(m: Setup, exec: Exec, rule: Rule, kind: Kind, inner: Rule, s: State)
    requires Building(m, exec, s) && WithoutEof(inner, m.src.eof) && rule.body == Wrap(kind, inner)
    ensures OutcomeBuilt(m, rule, s, RunSequence(m, exec, rule, Some(kind), [inner], Marker(m, s), [], s))
  {
    assert [inner][1..] == [];
    SequenceBuilt(m, exec, rule, Some(kind), [inner], Marker(m, s), [], s);
    var o := RunSequence(m, exec, rule, Some(kind), [inner], Marker(m, s), [], s);
    if CleanSuccess(o) {
      var xs :| LinedUp(m, [inner], Some(kind), ShapesOf([]), s.cursor, o.state.cursor, YieldOf(o.result), xs);
      assert ShapesOf([]) + xs == xs;
      var h: nat :| BuildsAll(m, h, [inner], s.cursor, o.state.cursor, xs);
      var z := AllOfOne(m, h, inner, s.cursor, o.state.cursor, xs);
      assert Builds(m, h, rule, s.cursor, o.state.cursor, YieldOf(o.result));
    }
  }

  // ----------------------------------------------------------------------- repetitions

  /** The body read n times and lined up behind what was collected before. */
  ghost predicate RoundsUp(m: Setup, inner: Rule, n: int, before: seq<Shape>, c: Position, d: Position, all: seq<Shape>, xs: seq<Shape>) {
    n >= 0 && BuiltRounds(m, inner, n, c, d, xs) && all == before + xs
  }

  ghost predicate RoundsRead(m: Setup, inner: Rule, n: int, before: seq<Shape>, c: Position, d: Position, all: seq<Shape>) {
    exists xs :: RoundsUp(m, inner, n, before, c, d, all, xs)
  }

  /** A loop that ends well and without an error anywhere. */
  ghost predicate CleanLoop(o: LoopOutcome) {
    o.LoopDone? && Clean(o.state.errors)
  }

  lemma {:induction false} CleanLoopBefore(m: Setup, t: State, o: LoopOutcome)
    requires HasScope(t.errors.entries) && LoopMoved(m, t, o) && CleanLoop(o)
    ensures Clean(t.errors)
  {
    GrowsClean(t.errors, o.state.errors);
  }

  /** A loop that ends clean has read its body as often as it counted, and lined up what it made. */
  ghost predicate LoopBuilt(m: Setup, inner: Rule, count: nat, max: Option<nat>, before: seq<Shape>, s: State, o: LoopOutcome) {
    && (o.LoopFailed? ==> o.result.Failure?)
    && (CleanLoop(o) ==>
          && (max.Some? && count <= max.value ==> o.count <= max.value)
          && RoundsRead(m, inner, o.count - count, before, s.cursor, o.state.cursor, ShapesOf(o.children)))
  }

  lemma {:induction false} LoopBuiltHere(m: Setup, inner: Rule, count: nat, max: Option<nat>, children: seq<Tree>, s: State, t: State)
    requires t.cursor == s.cursor
    ensures LoopBuilt(m, inner, count, max, ShapesOf(children), s, LoopDone(count, children, t))
  {
    RoundsNone(m, inner, s.cursor);
    assert ShapesOf(children) + [] == ShapesOf(children);
    assert RoundsUp(m, inner, 0, ShapesOf(children), s.cursor, s.cursor, ShapesOf(children), []);
  }

  /** A turn's outcome stops the loop with what it has, fails, or is recovered and leaves an error. */
  lemma {:induction false} TurnBuilt(m: Setup, inner: Rule, retries: bool, count: nat, max: Option<nat>, children: seq<Tree>, s: State, r: Result, t: State)
    requires ChildDone(m, inner, s, Done(r, t))
    ensures var turn := NextTurn(m, retries, count, children, s, r, t);
            && (turn.Stop? ==> LoopBuilt(m, inner, count, max, ShapesOf(children), s, turn.outcome))
            && (turn.Again? ==> if r.Success? then turn == Again(count + 1, Attached(children, r)) else !Clean(t.errors))
  {
    if r.Failure? && r.kind.FailureNoMatch? {
      LoopBuiltHere(m, inner, count, max, children, s, t);
    }
  }

  lemma {:induction false} RoundsUpMore(m: Setup, inner: Rule, n: nat, before: seq<Shape>, c: Position, e: Position, d: Position, z: Yield,
                                        all: seq<Shape>, xs: seq<Shape>)
    requires Built(m, inner, c, e, z) && RoundsUp(m, inner, n, before + Parts(z), e, d, all, xs)
    ensures RoundsUp(m, inner, n + 1, before, c, d, all, Parts(z) + xs)
  {
    BuiltThenRounds(m, inner, n, c, e, d, z, xs);
    assert before + Parts(z) + xs == before + (Parts(z) + xs);
  }

  lemma {:induction false} RoundsReadMore(m: Setup, inner: Rule, n: int, before: seq<Shape>, c: Position, e: Position, d: Position, z: Yield, all: seq<Shape>)
    requires Built(m, inner, c, e, z) && RoundsRead(m, inner, n, before + Parts(z), e, d, all)
    ensures n >= 0 && RoundsRead(m, inner, n + 1, before, c, d, all)
  {
    var xs :| RoundsUp(m, inner, n, before + Parts(z), e, d, all, xs);
    RoundsUpMore(m, inner, n, before, c, e, d, z, all, xs);
  }

  /** One more round in front. */
  lemma {:induction false} LoopBuiltMore(m: Setup, inner: Rule, count: nat, max: Option<nat>, children: seq<Tree>, s: State, r: Result, t: State, o: LoopOutcome)
    requires r.Success? && OutcomeBuiltFrom(m, inner, s.cursor, r, t) && (CleanLoop(o) ==> Clean(t.errors))
    requires !(max.Some? && count >= max.value) && LoopBuilt(m, inner, count + 1, max, ShapesOf(Attached(children, r)), t, o)
    ensures LoopBuilt(m, inner, count, max, ShapesOf(children), s, o)
  {
    if CleanLoop(o) {
      CollectedShapes(children, r);
      RoundsReadMore(m, inner, o.count - (count + 1), ShapesOf(children), s.cursor, t.cursor, o.state.cursor, YieldOf(r), ShapesOf(o.children));
      assert o.count - (count + 1) + 1 == o.count - count;
    }
  }

  lemma {:induction false} LoopUnclean(m: Setup, inner: Rule, count: nat, max: Option<nat>, before: seq<Shape>, s: State, t: State, n: nat,
                                       after: seq<Shape>, o: LoopOutcome)
    requires !CleanLoop(o) && LoopBuilt(m, inner, n, max, after, t, o)
    ensures LoopBuilt(m, inner, count, max, before, s, o)
  {
  }

  /** A round that is followed by another, which is counted if it succeeded and has left an error if not, in front of the rest o. */
  lemma {:induction false} LoopBuiltOn(m: Setup, inner: Rule, count: nat, max: Option<nat>, children: seq<Tree>, s: State, r: Result, t: State,
                                       n: nat, more: seq<Tree>, o: LoopOutcome)
    requires HasScope(t.errors.entries) && LoopMoved(m, t, o) && LoopBuilt(m, inner, n, max, ShapesOf(more), t, o) && !(max.Some? && count >= max.value)
    requires if r.Success? then n == count + 1 && more == Attached(children, r) && OutcomeBuiltFrom(m, inner, s.cursor, r, t) else !Clean(t.errors)
    ensures LoopBuilt(m, inner, count, max, ShapesOf(children), s, o)
  {
    if CleanLoop(o) {
      CleanLoopBefore(m, t, o);
    }
    if r.Success? {
      LoopBuiltMore(m, inner, count, max, children, s, r, t, o);
    } else {
      LoopUnclean(m, inner, count, max, ShapesOf(children), s, t, n, ShapesOf(more), o);
    }
  }

  lemma {:induction false} LoopBuilds(m: Setup, exec: Exec, inner: Rule, max: Option<nat>, retries: bool, count: nat, children: seq<Tree>,
                                      s: State, turns: nat)
    requires Building(m, exec, s) && WithoutEof(inner, m.src.eof)
    ensures LoopBuilt(m, inner, count, max, ShapesOf(children), s, RunLoop(m, exec, inner, max, retries, count, children, s, turns))
    decreases turns
  {
    if max.Some? && count >= max.value {
      LoopBuiltHere(m, inner, count, max, children, s, s);
    } else if turns > 0 {
      ChildBuilt(m, exec, inner, s);
      var c := exec(inner, Normal, s);
      if c.Done? {
        TurnBuilt(m, inner, retries, count, max, children, s, c.result, c.state);
        var turn := NextTurn(m, retries, count, children, s, c.result, c.state);
        if turn.Again? {
          LoopBuilds(m, exec, inner, max, retries, turn.count, turn.children, c.state, turns - 1);
          LoopMoves(m, exec, inner, max, retries, turn.count, turn.children, c.state, turns - 1);
          LoopBuiltOn(m, inner, count, max, children, s, c.result, c.state, turn.count, turn.children,
                      RunLoop(m, exec, inner, max, retries, turn.count, turn.children, c.state, turns - 1));
        }
      }
    }
  }

  lemma {:induction false} BuiltLoop(m: Setup, rule: Rule, n: nat, c: Position, d: Position, xs: seq<Shape>)
    requires rule.body.Repetition? || (rule.body.BoundedRepetition? && (rule.body.max.Some? ==> n <= rule.body.max.value))
    requires n >= rule.body.min && BuiltRounds(m, rule.body.inner, n, c, d, xs)
    ensures Built(m, rule, c, d, Grouped(rule.body.repeatKind, xs))
  {
    var h: nat :| BuildsRounds(m, h, rule.body.inner, n, c, d, xs);
    assert Builds(m, h, rule, c, d, Grouped(rule.body.repeatKind, xs));
  }

  lemma {:induction false} LoopCloses(m: Setup, rule: Rule, max: Option<nat>, s: State, id: nat, l: LoopOutcome)
    requires rule.body.Repetition? || (rule.body.BoundedRepetition? && max == rule.body.max)
    requires LoopBuilt(m, rule.body.inner, 0, max, ShapesOf([]), s, l)
    ensures OutcomeBuilt(m, rule, s, CloseLoop(rule.body.repeatKind, id, rule.body.min, l))
  {
    if CleanSuccess(CloseLoop(rule.body.repeatKind, id, rule.body.min, l)) {
      assert RoundsRead(m, rule.body.inner, l.count - 0, ShapesOf([]), s.cursor, l.state.cursor, ShapesOf(l.children));
      var xs :| RoundsUp(m, rule.body.inner, l.count - 0, ShapesOf([]), s.cursor, l.state.cursor, ShapesOf(l.children), xs);
      assert ShapesOf([]) + xs == xs;
      BuiltLoop(m, rule, l.count, s.cursor, l.state.cursor, xs);
    }
  }

  lemma {:induction false} RepetitionBuilt(m: Setup, exec: Exec, rule: Rule, kind: Option<Kind>, min: nat, max: Option<nat>, retries: bool, inner: Rule,
                                           s: State, turns: nat)
    requires Building(m, exec, s) && WithoutEof(inner, m.src.eof)
    requires rule.body == if retries then Repetition(kind, min, inner) else BoundedRepetition(kind, min, max, inner)
    requires retries ==> max.None?
    ensures OutcomeBuilt(m, rule, s, RunRepetition(m, exec, kind, min, max, retries, inner, s, turns))
  {
    var e := if kind.Some? then NewNode(s) else s;
    LoopBuilds(m, exec, inner, max, retries, 0, [], e, turns);
    LoopCloses(m, rule, max, s, s.nextID + 1, RunLoop(m, exec, inner, max, retries, 0, [], e, turns));
  }

  // -------------------------------------------------------------- around one inner rule

  /** A rule that passes on what its inner rule makes. */
  predicate PassesOn(b: Body) {
    b.Optional? || b.OptionalWhen? || b.Predict? || b.Required? || b.RecoverSync?
  }

  lemma {:induction false} BuiltAsInner(m: Setup, rule: Rule, c: Position, d: Position, y: Yield)
    requires PassesOn(rule.body) && Built(m, rule.body.inner, c, d, y)
    ensures Built(m, rule, c, d, y)
  {
    var h: nat :| Builds(m, h, rule.body.inner, c, d, y);
    assert Builds(m, h, rule, c, d, y);
  }

  lemma {:induction false} BuiltSkipped(m: Setup, rule: Rule, c: Position)
    requires rule.body.Optional? || rule.body.OptionalWhen?
    ensures Built(m, rule, c, c, Nothing)
  {
    assert Builds(m, 0, rule, c, c, Nothing);
  }

  lemma {:induction false} OptionalBuilt(m: Setup, exec: Exec, rule: Rule, inner: Rule, s: State)
    requires Building(m, exec, s) && WithoutEof(inner, m.src.eof) && rule.body == Optional(inner)
    ensures OutcomeBuilt(m, rule, s, RunOptional(exec, inner, s))
  {
    var c := exec(inner, Probe, s);
    assert RunBuilt(m, exec, inner, Probe, s) && RunsOk(m, exec, inner, Probe, s);
    if CleanSuccess(RunOptional(exec, inner, s)) {
      if c.result.Success? {
        BuiltAsInner(m, rule, s.cursor, c.state.cursor, YieldOf(c.result));
      } else {
        BuiltSkipped(m, rule, s.cursor);
      }
    }
  }

  lemma {:induction false} GuardedBuilt(m: Setup, exec: Exec, rule: Rule, s: State, turns: nat)
    requires Building(m, exec, s) && WithoutEof(rule, m.src.eof)
    requires rule.body.OptionalWhen? || rule.body.Predict? || rule.body.Required? || rule.body.RecoverSync?
    ensures OutcomeBuilt(m, rule, s, RunBody(m, exec, rule, s, turns))
  {
    var inner := rule.body.inner;
    ChildBuilt(m, exec, inner, s);
    var c := exec(inner, Normal, s);
    if CleanSuccess(c) {
      BuiltAsInner(m, rule, s.cursor, c.state.cursor, YieldOf(c.result));
    }
    if rule.body.OptionalWhen? {
      BuiltSkipped(m, rule, s.cursor);
    }
  }

  /** With the suffix or without it. */
  lemma {:induction false} BuiltSuffix(m: Setup, rule: Rule, c: Position, e: Position, z: Yield)
    requires rule.body.OptionalSuffix? && Built(m, rule.body.inner, c, e, z)
    ensures Built(m, rule, c, e, z)
    ensures Within(m.src, e) && PeekAt(m.src, e, 0).token == rule.body.suffix ==>
              Built(m, rule, c, Advance(m.src, e), One(Shape(rule.body.suffixKind, [PeekAt(m.src, e, 0)], Whole(z))))
  {
    var h: nat :| Builds(m, h, rule.body.inner, c, e, z);
    assert Builds(m, h, rule, c, e, z);
    if Within(m.src, e) && PeekAt(m.src, e, 0).token == rule.body.suffix {
      assert Taking(m.src, e, Advance(m.src, e), rule.body.suffix);
      assert Builds(m, h, rule, c, Advance(m.src, e), One(Shape(rule.body.suffixKind, [PeekAt(m.src, e, 0)], Whole(z))));
    }
  }

  lemma {:induction false} SuffixTaken(m: Setup, rule: Rule, s: State, r: Result, t: State)
    requires rule.body.OptionalSuffix? && Ready(m, t) && OutcomeBuiltFrom(m, rule.body.inner, s.cursor, r, t)
    ensures OutcomeBuilt(m, rule, s, TakeSuffix(m, rule.body.suffixKind, rule.body.suffix, r, t))
  {
    if r.Success? && Clean(t.errors) {
      BuiltSuffix(m, rule, s.cursor, t.cursor, YieldOf(r));
      if Peek(m, t).token == rule.body.suffix {
        var held := if r.node.Some? then [r.node.value] else [];
        assert ShapesOf(held) == Whole(YieldOf(r));
      }
    }
  }

  lemma {:induction false} SuffixBuilt(m: Setup, exec: Exec, rule: Rule, kind: Kind, inner: Rule, suffix: Token, s: State)
    requires Building(m, exec, s) && rule.body == OptionalSuffix(kind, inner, suffix) && WithoutEof(rule, m.src.eof)
    ensures OutcomeBuilt(m, rule, s, RunSuffix(m, exec, kind, inner, suffix, s))
  {
    ChildBuilt(m, exec, inner, s);
    var c := exec(inner, Normal, s);
    if c.Done? {
      SuffixTaken(m, rule, s, c.result, c.state);
    }
  }

  lemma {:induction false} PrefixedBuilt(m: Setup, exec: Exec, rule: Rule, prefix: Token, inner: Rule, s: State, turns: nat)
    requires Building(m, exec, s) && rule.body == Prefixed(prefix, inner) && WithoutEof(rule, m.src.eof)
    ensures OutcomeBuilt(m, rule, s, RunBody(m, exec, rule, s, turns))
  {
    var t := Take(m, s);
    var o := RunBody(m, exec, rule, s, turns);
    if CleanSuccess(o) {
      ChildBuilt(m, exec, inner, t);
      var h: nat :| Builds(m, h, inner, t.cursor, o.state.cursor, YieldOf(o.result));
      assert Taking(m.src, s.cursor, t.cursor, prefix);
      assert Builds(m, h, rule, s.cursor, o.state.cursor, YieldOf(o.result));
    }
  }

  lemma {:induction false} BuiltNest(m: Setup, rule: Rule, c: Position, e: Position, f: Position, d: Position, z: Yield)
    requires rule.body.Nest? && Taking(m.src, c, e, rule.body.open) && Taking(m.src, f, d, rule.body.close)
    requires Built(m, rule.body.inner, e, f, z)
    ensures Built(m, rule, c, d, if rule.body.nestKind.None? then z else One(Shape(rule.body.nestKind.value, [], Parts(z))))
  {
    var h: nat :| Builds(m, h, rule.body.inner, e, f, z);
    assert Builds(m, h, rule, c, d, if rule.body.nestKind.None? then z else One(Shape(rule.body.nestKind.value, [], Parts(z))));
  }

  /** The inner rule of a nest ended in t with r, and the closing delimiter was there. */
  lemma {:induction false} NestClosed(m: Setup, rule: Rule, kind: Option<Kind>, open: Token, close: Token, inner: Rule, s: State, e: Position, r: Result, t: State)
    requires rule.body == Nest(kind, open, close, inner) && Ready(m, t) && |t.errors.entries| > 1 && HasScope(t.errors.entries)
    requires Taking(m.src, s.cursor, e, open) && OutcomeBuiltFrom(m, inner, e, r, t)
    ensures OutcomeBuilt(m, rule, s, CloseNest(m, rule, kind, close, r, t))
  {
    var o := CloseNest(m, rule, kind, close, r, t);
    if CleanSuccess(o) {
      var u := if kind.None? then Take(m, t) else NewNode(Take(m, t));
      PopRegionClean(u);
      assert u.errors == t.errors;
      var z := YieldOf(r);
      assert Taking(m.src, t.cursor, o.state.cursor, close);
      BuiltNest(m, rule, s.cursor, e, t.cursor, o.state.cursor, z);
      CollectedShapes([], r);
      assert [] + Parts(z) == Parts(z);
    }
  }

  /** The inner rule of a nest opened in s. */
  lemma {:induction false} InsideBuilt(m: Setup, exec: Exec, inner: Rule, s: State)
    requires Building(m, exec, s) && WithoutEof(inner, m.src.eof)
    ensures var c := RunCommitted(m, exec, inner, Opened(m, s));
            c.Done? ==>
              && OutcomeBuiltFrom(m, inner, Opened(m, s).cursor, c.result, c.state)
              && Ready(m, c.state) && HasScope(c.state.errors.entries) && |c.state.errors.entries| > 1
  {
    var e := Opened(m, s);
    OpenedInRegion(m, s);
    ChildBuilt(m, exec, inner, e);
    CommittedMoves(m, exec, inner, e);
    var c := RunCommitted(m, exec, inner, e);
    if c.Done? {
      MovesDepth(m, e, c.state);
      NestDepth(s);
    }
  }

  lemma {:induction false} NestBuilt(m: Setup, exec: Exec, rule: Rule, kind: Option<Kind>, open: Token, close: Token, inner: Rule, s: State)
    requires Building(m, exec, s) && rule.body == Nest(kind, open, close, inner) && WithoutEof(rule, m.src.eof)
    ensures OutcomeBuilt(m, rule, s, RunNest(m, exec, rule, kind, open, close, inner, s))
  {
    if Peek(m, s).token == open {
      var e := Opened(m, s);
      InsideBuilt(m, exec, inner, s);
      var c := RunCommitted(m, exec, inner, e);
      if c.Done? {
        assert Taking(m.src, s.cursor, e.cursor, open);
        NestClosed(m, rule, kind, open, close, inner, s, e.cursor, c.result, c.state);
      }
    }
  }

  // --------------------------------------------------------------- choices, references

  /** Some rule of the set has made it. */
  ghost predicate BuiltByOne(m: Setup, rules: seq<Rule>, s: State, o: Outcome) {
    CleanSuccess(o) ==> Bare(o.result) && exists r :: r in rules && Built(m, r, s.cursor, o.state.cursor, YieldOf(o.result))
  }

  lemma {:induction false} ArmsBuilt(m: Setup, exec: Exec, rules: seq<Rule>, s: State)
    requires Building(m, exec, s) && AllWithoutEof(rules, m.src.eof)
    ensures BuiltByOne(m, rules, s, RunArms(exec, rules, s))
    decreases |rules|
  {
    if rules != [] {
      ChildBuilt(m, exec, rules[0], s);
      var c := exec(rules[0], Normal, s);
      assert rules[0] in rules;
      if c.Done? && c.result.Failure? && c.result.kind.FailureNoMatch? {
        ArmsBuilt(m, exec, rules[1..], c.state);
        assert forall r :: r in rules[1..] ==> r in rules;
      }
    }
  }

  lemma {:induction false} BuiltArm(m: Setup, rule: Rule, arm: Rule, c: Position, d: Position, y: Yield)
    requires rule.body.Choice? && arm in rule.body.rules && Built(m, arm, c, d, y)
    ensures Built(m, rule, c, d, y)
  {
    var i: nat :| i < |rule.body.rules| && rule.body.rules[i] == arm;
    var h: nat :| Builds(m, h, rule.body.rules[i], c, d, y);
    assert Builds(m, h, rule, c, d, y);
  }

  lemma {:induction false} ChoiceBuilt(m: Setup, exec: Exec, rule: Rule, rules: seq<Rule>, s: State)
    requires Building(m, exec, s) && rule.body == Choice(rules) && AllWithoutEof(rules, m.src.eof)
    ensures OutcomeBuilt(m, rule, s, RunChoice(m, exec, rules, s))
  {
    var o := RunChoice(m, exec, rules, s);
    match ChoiceDispatch.DispatchOf(m.analysis, Arms(rules), Ahead(m, s)) {
      case NoArm =>
      case Fallback => ArmsBuilt(m, exec, rules, s);
      case Candidates(indices) =>
        SelectedFrom(rules, indices, m.src.eof);
        ArmsBuilt(m, exec, Selected(rules, indices), s);
    }
    if CleanSuccess(o) {
      var y := YieldOf(o.result);
      var r :| r in rules && Built(m, r, s.cursor, o.state.cursor, y);
      BuiltArm(m, rule, r, s.cursor, o.state.cursor, y);
    }
  }

  lemma {:induction false} ReferenceBuilt(m: Setup, exec: Exec, rule: Rule, target: Label, s: State, turns: nat)
    requires Building(m, exec, s) && RegistryWithoutEof(m.registry, m.src.eof) && rule.body == Reference(target)
    ensures OutcomeBuilt(m, rule, s, RunReference(m, exec, target, s, turns))
    decreases turns, 0
  {
    if target in m.registry && turns > 0 {
      BodyBuilt(m, exec, m.registry[target], WithRecovery(m.registry[target], s), turns - 1);
      var o := RunReference(m, exec, target, s, turns);
      if CleanSuccess(o) {
        var h: nat :| Builds(m, h, m.registry[target], s.cursor, o.state.cursor, YieldOf(o.result));
        assert Builds(m, h + 1, rule, s.cursor, o.state.cursor, YieldOf(o.result));
      }
    }
  }

  // ------------------------------------------------------------------- rules and engine

  lemma {:induction false} BodyBuilt(m: Setup, exec: Exec, rule: Rule, s: State, turns: nat)
    requires Building(m, exec, s) && RegistryWithoutEof(m.registry, m.src.eof) && WithoutEof(rule, m.src.eof)
    ensures OutcomeBuilt(m, rule, s, RunBody(m, exec, rule, s, turns))
    decreases turns, 1
  {
    match rule.body
    case Expect(tokens, kind) => ExpectBuilt(m, rule, tokens, kind, s);
    case ListOf(spec, lk, ek) => ListBuilt(m, rule, spec, lk, ek, s);
    case Sequence(_, _) => RowBuilt(m, exec, rule, s, turns);
    case Root(_, _) => RowBuilt(m, exec, rule, s, turns);
    case Wrap(kind, inner) => WrapBuilt(m, exec, rule, kind, inner, s);
    case Optional(inner) => OptionalBuilt(m, exec, rule, inner, s);
    case OptionalWhen(_, _) => GuardedBuilt(m, exec, rule, s, turns);
    case Predict(_, _) => GuardedBuilt(m, exec, rule, s, turns);
    case Required(_) => GuardedBuilt(m, exec, rule, s, turns);
    case RecoverSync(_) => GuardedBuilt(m, exec, rule, s, turns);
    case OptionalSuffix(kind, inner, suffix) => SuffixBuilt(m, exec, rule, kind, inner, suffix, s);
    case Repetition(kind, min, inner) => RepetitionBuilt(m, exec, rule, kind, min, None, true, inner, s, turns);
    case BoundedRepetition(kind, min, max, inner) => RepetitionBuilt(m, exec, rule, kind, min, max, false, inner, s, turns);
    case Nest(kind, open, close, inner) => NestBuilt(m, exec, rule, kind, open, close, inner, s);
    case Prefixed(prefix, inner) => PrefixedBuilt(m, exec, rule, prefix, inner, s, turns);
    case Reference(target) => ReferenceBuilt(m, exec, rule, target, s, turns);
    case Choice(rules) => ChoiceBuilt(m, exec, rule, rules, s);
  }

  /** A rule that recovers succeeds with an error on record. */
  lemma {:induction false} RecoveredUnclean(m: Setup, exec: Exec, rule: Rule, mode: Mode, s: State, turns: nat, c: Outcome)
    requires Transactional(m, exec) && SoundExec(m, exec) && Ready(m, s) && RegistryWithoutEof(m.registry, m.src.eof) && WithoutEof(rule, m.src.eof)
    requires c == RunBody(m, exec, rule, Enter(m, rule, mode, s), turns) && c.Done? && c.result.Failure?
    ensures !CleanSuccess(RunEnvelope(m, exec, rule, mode, s, turns))
  {
    var e := Enter(m, rule, mode, s);
    EnterInScope(m, rule, mode, s);
    BodyMoves(m, exec, rule, e, turns);
    BodySound(m, exec, rule, e, turns);
    BodyInside(m, rule, mode, s, c.state);
    if mode.Normal? && c.result.kind.FailureError? {
      HandledUnclean(m, rule, s, c.result, Truncated(c.state, |s.created|));
    }
  }

  lemma {:induction false} EnvelopeBuilt(m: Setup, exec: Exec, rule: Rule, mode: Mode, s: State, turns: nat)
    requires Transactional(m, exec) && SoundExec(m, exec) && AllBuilt(m, exec) && Ready(m, s)
    requires RegistryWithoutEof(m.registry, m.src.eof) && WithoutEof(rule, m.src.eof)
    ensures OutcomeBuilt(m, rule, s, RunEnvelope(m, exec, rule, mode, s, turns))
  {
    var e := Enter(m, rule, mode, s);
    EnterInScope(m, rule, mode, s);
    var c := RunBody(m, exec, rule, e, turns);
    if c.Done? {
      if c.result.Success? {
        BodyMoves(m, exec, rule, e, turns);
        BodyBuilt(m, exec, rule, e, turns);
        BodyInside(m, rule, mode, s, c.state);
        PopCommitClean(c.state, s.errors);
      } else {
        RecoveredUnclean(m, exec, rule, mode, s, turns, c);
      }
    }
  }

  lemma {:induction false} BuiltIsKept(m: Setup, exec: Exec, p: (Rule, Mode, State, Outcome) -> bool)
    requires RegistryWithoutEof(m.registry, m.src.eof)
    requires forall rule, mode, s, o ::
               p(rule, mode, s, o) <==> (Ready(m, s) && WithoutEof(rule, m.src.eof) ==>
                                           OutcomeBuilt(m, rule, s, o) && (o.Done? && (o.result.Success? || mode.Normal?) ==> OutcomeSound(m, s, LangOf(m, rule), o)))
    ensures EnvelopeKeeps(m, exec, p)
  {
    if Transactional(m, exec) && AllRuns(exec, p) {
      forall rule, mode, s ensures RunBuilt(m, exec, rule, mode, s) && (WithoutEof(rule, m.src.eof) ==> RunSound(m, exec, rule, mode, s)) {
        assert p(rule, mode, s, exec(rule, mode, s));
      }
      forall rule, mode, s, turns ensures p(rule, mode, s, RunEnvelope(m, exec, rule, mode, s, turns)) {
        if Ready(m, s) && WithoutEof(rule, m.src.eof) {
          EnvelopeSound(m, exec, rule, mode, s, turns);
          EnvelopeBuilt(m, exec, rule, mode, s, turns);
        }
      }
    }
  }

  lemma {:induction false} EngineBuilds(m: Setup, fuel: nat)
    requires RegistryWithoutEof(m.registry, m.src.eof)
    ensures AllBuilt(m, EngineAt(m, fuel))
  {
    var p := (r: Rule, md: Mode, st: State, o: Outcome) =>
      Ready(m, st) && WithoutEof(r, m.src.eof) ==>
        OutcomeBuilt(m, r, st, o) && (o.Done? && (o.result.Success? || md.Normal?) ==> OutcomeSound(m, st, LangOf(m, r), o));
    forall exec {
      BuiltIsKept(m, exec, p);
    }
    forall rule, mode, s ensures p(rule, mode, s, OutOfFuel) {
      assert OutcomeBuilt(m, rule, s, OutOfFuel);
    }
    EngineInduction(m, p, fuel);
    forall rule, mode, s ensures RunBuilt(m, EngineAt(m, fuel), rule, mode, s) {
      assert p(rule, mode, s, EngineAt(m, fuel)(rule, mode, s));
    }
  }

  /**
   The tree of a clean success: whenever a rule succeeds and leaves no error anywhere, what it
   returns is a reading of the input between the two cursors. Every lexeme held is one its
   combinators take with a node, under the kind they take it for, in the order of the input.
   */
  lemma {:induction false} CleanSuccessBuilds(m: Setup, rule: Rule, mode: Mode, s: State, fuel: nat)
    requires Ready(m, s) && RegistryWithoutEof(m.registry, m.src.eof) && WithoutEof(rule, m.src.eof)
    ensures var o := ExecuteRule(m, rule, mode, s, fuel);
            o.Done? && o.result.Success? && Clean(o.state.errors) ==> Built(m, rule, s.cursor, o.state.cursor, YieldOf(o.result))
  {
    EngineBuilds(m, fuel);
    assert RunBuilt(m, EngineAt(m, fuel), rule, mode, s);
  }

  /** Two tokens in a row: the children stand in the order of the input, each under its own kind. */
  lemma {:induction false} PairBuilds(m: Setup, rule: Rule, kind: Kind, a: Rule, b: Rule, s: Token, t: Token, k: Kind, l: Kind, c: Position, d: Position, y: Yield)
    requires rule.body == Sequence(Some(kind), [a, b]) && a.body == Expect([s], Some(k)) && b.body == Expect([t], Some(l))
    requires Built(m, rule, c, d, y)
    ensures Within(m.src, c) && y == One(Shape(kind, [], [Shape(k, [PeekAt(m.src, c, 0)], []), Shape(l, [PeekAt(m.src, Advance(m.src, c), 0)], [])]))
  {
    var h: nat :| Builds(m, h, rule, c, d, y);
    var xs :| BuildsAll(m, h, [a, b], c, d, xs) && y == Grouped(Some(kind), xs);
    var e, z, more := FirstOfAll(m, h, [a, b], c, d, xs);
    assert [a, b][1..] == [b];
    var z' := AllOfOne(m, h, b, e, d, more);
    assert xs == [Shape(k, [PeekAt(m.src, c, 0)], []), Shape(l, [PeekAt(m.src, e, 0)], [])];
  }
}
