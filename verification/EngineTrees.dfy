/**
 The order of the input in the tree of a result, recovered or not. Every node holds lexemes of an
 interval of its own: its children's intervals follow one another, and the lexemes of the node
 itself come after them. So no lexeme is held twice, none out of order, and none from outside what
 the rule consumed.
 */
module EngineTrees {
  import opened Languages
  import opened Grammars
  import opened TokenStreams
  import opened Sources
  import opened Rules
  import opened Engine
  import opened EngineTransaction
  import ListRule
  import ChoiceDispatch

  // -------------------------------------------------------------- lexemes and intervals

  /** The lexemes stand in the source in this order, between c and d; the end-of-file lexeme stands nowhere. */
  ghost predicate Stand(src: Source, c: Position, d: Position, ls: seq<Lexeme>)
    decreases |ls|
  {
    if ls == [] then c <= d
    else if ls[0].token == src.eof then Stand(src, c, d, ls[1..])
    else exists i: nat :: c <= i < d && StandsAt(src, i, ls[0]) && Stand(src, i + 1, d, ls[1..])
  }

  predicate StandsAt(src: Source, i: Position, l: Lexeme) {
    i < |src.lexemes| && src.lexemes[i] == l
  }

  /** The node holds lexemes from c to d: first those below it, child by child, then its own. */
  ghost predicate InOrder(src: Source, c: Position, d: Position, t: Tree)
    decreases t, 1
  {
    exists k: nat :: InOrderAll(src, c, k, t.children) && Stand(src, k, d, t.tokens)
  }

  /** Each tree has an interval of its own, behind that of the tree before it. */
  ghost predicate InOrderAll(src: Source, c: Position, d: Position, ts: seq<Tree>)
    decreases ts, 0
  {
    if ts == [] then c <= d else exists k: nat :: InOrder(src, c, k, ts[0]) && InOrderAll(src, k, d, ts[1..])
  }

  lemma {:induction false} StandForward(src: Source, c: Position, d: Position, ls: seq<Lexeme>)
    requires Stand(src, c, d, ls)
    ensures c <= d
    decreases |ls|
  {
    if ls != [] && ls[0].token == src.eof {
      StandForward(src, c, d, ls[1..]);
    }
  }

  lemma {:induction false} StandWider(src: Source, b: Position, c: Position, d: Position, e: Position, ls: seq<Lexeme>)
    requires Stand(src, c, d, ls) && b <= c && d <= e
    ensures Stand(src, b, e, ls)
    decreases |ls|
  {
    if ls != [] {
      if ls[0].token == src.eof {
        StandWider(src, b, c, d, e, ls[1..]);
      } else {
        var i: nat :| c <= i < d && StandsAt(src, i, ls[0]) && Stand(src, i + 1, d, ls[1..]);
        StandWider(src, i + 1, i + 1, d, e, ls[1..]);
      }
    }
  }

  lemma {:induction false} StandAppend(src: Source, c: Position, d: Position, e: Position, a: seq<Lexeme>, b: seq<Lexeme>)
    requires Stand(src, c, d, a) && Stand(src, d, e, b)
    ensures Stand(src, c, e, a + b)
    decreases |a|
  {
    if a == [] {
      assert a + b == b;
      StandForward(src, d, e, b);
      StandWider(src, c, d, e, e, b);
    } else {
      assert (a + b)[0] == a[0] && (a + b)[1..] == a[1..] + b;
      if a[0].token == src.eof {
        StandAppend(src, c, d, e, a[1..], b);
      } else {
        var i: nat :| c <= i < d && StandsAt(src, i, a[0]) && Stand(src, i + 1, d, a[1..]);
        StandAppend(src, i + 1, d, e, a[1..], b);
        StandForward(src, d, e, b);
      }
    }
  }

  /** The lexeme peeked at stands between the cursor and where consuming it leads. */
  lemma {:induction false} PeekedStands(src: Source, c: Position)
    requires Within(src, c)
    ensures Stand(src, c, Advance(src, c), [PeekAt(src, c, 0)])
  {
    var l := PeekAt(src, c, 0);
    assert [l][1..] == [];
    if l.token != src.eof {
      var rest := src.lexemes[c..];
      FirstShown(rest, src.eof, src.skip);
      var i := c + HiddenRun(rest, src.eof, src.skip);
      assert StandsAt(src, i, l) && Stand(src, i + 1, Advance(src, c), []);
    }
  }

  lemma {:induction false} OrderForward(src: Source, c: Position, d: Position, t: Tree)
    requires InOrder(src, c, d, t)
    ensures c <= d
    decreases t, 1
  {
    var k: nat :| InOrderAll(src, c, k, t.children) && Stand(src, k, d, t.tokens);
    OrderAllForward(src, c, k, t.children);
    StandForward(src, k, d, t.tokens);
  }

  lemma {:induction false} OrderAllForward(src: Source, c: Position, d: Position, ts: seq<Tree>)
    requires InOrderAll(src, c, d, ts)
    ensures c <= d
    decreases ts, 0
  {
    if ts != [] {
      var k: nat :| InOrder(src, c, k, ts[0]) && InOrderAll(src, k, d, ts[1..]);
      OrderForward(src, c, k, ts[0]);
      OrderAllForward(src, k, d, ts[1..]);
    }
  }

  lemma {:induction false} OrderWider(src: Source, b: Position, c: Position, d: Position, e: Position, t: Tree)
    requires InOrder(src, c, d, t) && b <= c && d <= e
    ensures InOrder(src, b, e, t)
    decreases t, 1
  {
    var k: nat :| InOrderAll(src, c, k, t.children) && Stand(src, k, d, t.tokens);
    OrderAllWider(src, b, c, k, k, t.children);
    StandWider(src, k, k, d, e, t.tokens);
  }

  lemma {:induction false} OrderAllWider(src: Source, b: Position, c: Position, d: Position, e: Position, ts: seq<Tree>)
    requires InOrderAll(src, c, d, ts) && b <= c && d <= e
    ensures InOrderAll(src, b, e, ts)
    decreases ts, 0
  {
    if ts != [] {
      var k: nat :| InOrder(src, c, k, ts[0]) && InOrderAll(src, k, d, ts[1..]);
      OrderWider(src, b, c, k, k, ts[0]);
      OrderAllWider(src, k, k, d, e, ts[1..]);
    }
  }

  lemma {:induction false} OrderAppend(src: Source, c: Position, d: Position, e: Position, a: seq<Tree>, b: seq<Tree>)
    requires InOrderAll(src, c, d, a) && InOrderAll(src, d, e, b)
    ensures InOrderAll(src, c, e, a + b)
    decreases |a|
  {
    if a == [] {
      assert a + b == b;
      OrderAllForward(src, d, e, b);
      OrderAllWider(src, c, d, e, e, b);
    } else {
      assert (a + b)[0] == a[0] && (a + b)[1..] == a[1..] + b;
      var k: nat :| InOrder(src, c, k, a[0]) && InOrderAll(src, k, d, a[1..]);
      OrderAppend(src, k, d, e, a[1..], b);
    }
  }

  lemma {:induction false} OrderOne(src: Source, c: Position, d: Position, t: Tree)
    requires InOrder(src, c, d, t)
    ensures InOrderAll(src, c, d, [t])
  {
    assert [t][1..] == [] && InOrderAll(src, d, d, []);
  }

  /** A node around trees in order, holding no lexeme of its own. */
  lemma {:induction false} OrderAround(src: Source, c: Position, d: Position, id: nat, kind: Kind, children: seq<Tree>)
    requires InOrderAll(src, c, d, children)
    ensures InOrder(src, c, d, Tree(id, kind, [], children))
  {
    assert Stand(src, d, d, []);
  }

  /** A node that holds the lexeme behind its children. */
  lemma {:induction false} OrderWithToken(src: Source, c: Position, k: Position, id: nat, kind: Kind, children: seq<Tree>)
    requires Within(src, k) && InOrderAll(src, c, k, children)
    ensures InOrder(src, c, Advance(src, k), Tree(id, kind, [PeekAt(src, k, 0)], children))
  {
    PeekedStands(src, k);
  }

  // ------------------------------------------------------------------------- outcomes

  /** The tree of a result, if it has one, lies between c and d. */
  ghost predicate ResultIn(src: Source, c: Position, d: Position, r: Result) {
    r.Success? && r.node.Some? ==> InOrder(src, c, d, r.node.value)
  }

  ghost predicate TreeOut(m: Setup, c: Position, o: Outcome) {
    o.Done? ==> c <= o.state.cursor <= |m.src.lexemes| && ResultIn(m.src, c, o.state.cursor, o.result)
  }

  ghost predicate RunsInOrder(m: Setup, exec: Exec, rule: Rule, mode: Mode, s: State) {
    Ready(m, s) ==> TreeOut(m, s.cursor, exec(rule, mode, s))
  }

  ghost predicate Ordering(m: Setup, exec: Exec, s: State) {
    Ready(m, s) && forall rule, mode, u :: RunsInOrder(m, exec, rule, mode, u)
  }

  lemma {:induction false} ChildOrdered(m: Setup, exec: Exec, rule: Rule, mode: Mode, s: State)
    requires Ordering(m, exec, s)
    ensures var o := exec(rule, mode, s); TreeOut(m, s.cursor, o) && (o.Done? ==> Ordering(m, exec, o.state))
  {
    assert RunsInOrder(m, exec, rule, mode, s);
  }

  lemma {:induction false} TreeOutFrom(m: Setup, b: Position, c: Position, o: Outcome)
    requires b <= c && TreeOut(m, c, o)
    ensures TreeOut(m, b, o)
  {
    if o.Done? && o.result.Success? && o.result.node.Some? {
      OrderWider(m.src, b, c, o.state.cursor, o.state.cursor, o.result.node.value);
    }
  }

  /** What a result adds to the children collected so far. */
  lemma {:induction false} CollectedInOrder(m: Setup, b: Position, c: Position, d: Position, children: seq<Tree>, r: Result)
    requires r.Success? && c <= d && InOrderAll(m.src, b, c, children) && ResultIn(m.src, c, d, r)
    ensures InOrderAll(m.src, b, d, Attached(children, r))
  {
    if r.node.None? {
      OrderAllWider(m.src, b, b, c, d, children);
    } else {
      var node := r.node.value;
      if r.isFragment {
        var k: nat :| InOrderAll(m.src, c, k, node.children) && Stand(m.src, k, d, node.tokens);
        StandForward(m.src, k, d, node.tokens);
        OrderAllWider(m.src, c, c, k, d, node.children);
        OrderAppend(m.src, b, c, d, children, node.children);
      } else {
        OrderOne(m.src, c, d, node);
        OrderAppend(m.src, b, c, d, children, [node]);
      }
    }
  }

  // ------------------------------------------------------------------------ the bodies

  lemma {:induction false} ExpectOrdered(m: Setup, tokens: seq<Token>, kind: Option<Kind>, s: State)
    requires Ready(m, s)
    ensures TreeOut(m, s.cursor, RunExpect(m, tokens, kind, s))
  {
    if kind.Some? {
      OrderWithToken(m.src, s.cursor, s.cursor, s.nextID + 1, kind.value, []);
    }
  }

  lemma {:induction false} ElementsInOrder(src: Source, c: Position, d: Position, kind: Kind, first: nat, ls: seq<Lexeme>)
    requires Stand(src, c, d, ls)
    ensures InOrderAll(src, c, d, Elements(kind, first, ls))
    decreases |ls|
  {
    if ls != [] {
      var es := Elements(kind, first, ls);
      assert es[1..] == Elements(kind, first + 1, ls[1..]);
      assert es[0] == Tree(first, kind, [ls[0]], []) && [ls[0]][1..] == [];
      if ls[0].token == src.eof {
        ElementsInOrder(src, c, d, kind, first + 1, ls[1..]);
        assert InOrderAll(src, c, c, []) && Stand(src, c, c, [ls[0]]);
        assert InOrder(src, c, c, es[0]);
      } else {
        var i: nat :| c <= i < d && StandsAt(src, i, ls[0]) && Stand(src, i + 1, d, ls[1..]);
        ElementsInOrder(src, i + 1, d, kind, first + 1, ls[1..]);
        assert Stand(src, i + 1, i + 1, []) && InOrderAll(src, c, c, []);
        assert Stand(src, c, i + 1, [ls[0]]);
        assert InOrder(src, c, i + 1, es[0]);
      }
    }
  }

  /** The loop of a list adds lexemes it meets one behind the other. */
  lemma {:induction false} TailStands(src: Source, b: Position, c: Position, spec: ListRule.ListSpec, elements: seq<Lexeme>)
    requires Within(src, c) && Stand(src, b, c, elements)
    ensures var run := ListRule.RunTail(src, c, spec, elements); run.Accepted? ==> Stand(src, b, run.at, run.elements)
    decreases |src.lexemes| - c
  {
    var run := ListRule.RunTail(src, c, spec, elements);
    var d := Advance(src, c);
    var next := PeekAt(src, d, 0);
    StandWider(src, b, b, c, run.at, elements);
    if PeekAt(src, c, 0).token == spec.separator != spec.close && spec.separator != spec.element && next.token == spec.element != spec.close {
      ListRule.SeparatedMoves(src, c, spec);
      PeekedStands(src, d);
      StandWider(src, b, b, c, d, elements);
      StandAppend(src, b, d, Advance(src, d), elements, [next]);
      TailStands(src, b, Advance(src, d), spec, elements + [next]);
    }
  }

  lemma {:induction false} ListStands(src: Source, c: Position, spec: ListRule.ListSpec)
    requires Within(src, c)
    ensures var run := ListRule.RunList(src, c, spec); run.Accepted? ==> Stand(src, c, run.at, run.elements)
  {
    var d := Advance(src, c);
    PeekedStands(src, d);
    StandWider(src, c, d, Advance(src, d), Advance(src, d), [PeekAt(src, d, 0)]);
    TailStands(src, c, Advance(src, d), spec, [PeekAt(src, d, 0)]);
  }

  lemma {:induction false} NewNodesHere(s: State, n: nat)
    ensures NewNodes(s, n).cursor == s.cursor
    decreases n
  {
    if n > 0 {
      NewNodesHere(s, n - 1);
    }
  }

  lemma {:induction false} ListOrdered(m: Setup, rule: Rule, spec: ListRule.ListSpec, lk: Kind, ek: Kind, s: State)
    requires Ready(m, s)
    ensures TreeOut(m, s.cursor, RunListOf(m, rule, spec, lk, ek, s))
  {
    ListStands(m.src, s.cursor, spec);
    match ListRule.RunList(m.src, s.cursor, spec)
    case Accepted(at, elements) =>
      NewNodesHere(s.(cursor := at), 1 + |elements|);
      ElementsInOrder(m.src, s.cursor, at, ek, s.nextID + 2, elements);
      OrderAround(m.src, s.cursor, at, s.nextID + 1, lk, Elements(ek, s.nextID + 2, elements));
    case Rejected(at, blame, made) => NewNodesHere(s.(cursor := at), made);
  }

  lemma {:induction false} CloseOrdered(m: Setup, c: Position, kind: Option<Kind>, children: seq<Tree>, s: State)
    requires Ready(m, s) && c <= s.cursor && InOrderAll(m.src, c, s.cursor, children)
    ensures TreeOut(m, c, Close(kind, children, s))
  {
    OrderAround(m.src, c, s.cursor, TRANSIENT, NO_KIND, children);
    if kind.Some? {
      OrderAround(m.src, c, s.cursor, s.nextID + 1, kind.value, children);
    }
  }

  lemma {:induction false} JudgeOrdered(m: Setup, c: Position, owner: Rule, element: Rule, marker: nat, r: Result, t: State)
    requires c <= t.cursor && ResultIn(m.src, c, t.cursor, r)
    ensures var v := Judge(m, owner, element, marker, r, t); v.state.cursor == t.cursor && ResultIn(m.src, c, t.cursor, v.result)
  {
    OrderAround(m.src, c, t.cursor, TRANSIENT, NO_KIND, []);
  }

  lemma {:induction false} SequenceOrdered(m: Setup, exec: Exec, c: Position, owner: Rule, kind: Option<Kind>, rules: seq<Rule>, marker: nat,
                                           children: seq<Tree>, s: State)
    requires Ordering(m, exec, s) && c <= s.cursor && InOrderAll(m.src, c, s.cursor, children)
    ensures TreeOut(m, c, RunSequence(m, exec, owner, kind, rules, marker, children, s))
    decreases |rules|
  {
    if rules == [] {
      CloseOrdered(m, c, kind, children, s);
    } else {
      ChildOrdered(m, exec, rules[0], Normal, s);
      var o := exec(rules[0], Normal, s);
      if o.Done? {
        JudgeOrdered(m, s.cursor, owner, rules[0], marker, o.result, o.state);
        var v := Judge(m, owner, rules[0], marker, o.result, o.state);
        if v.Keep? {
          CollectedInOrder(m, c, s.cursor, v.state.cursor, children, v.result);
          SequenceOrdered(m, exec, c, owner, kind, rules[1..], marker, Attached(children, v.result), v.state);
        }
      }
    }
  }

  lemma {:induction false} RootOrdered(m: Setup, exec: Exec, c: Position, owner: Rule, kind: Kind, id: nat, rules: seq<Rule>, committed: bool,
                                       children: seq<Tree>, s: State)
    requires Ordering(m, exec, s) && c <= s.cursor && InOrderAll(m.src, c, s.cursor, children)
    ensures TreeOut(m, c, RunRoot(m, exec, owner, kind, id, rules, committed, children, s))
    decreases |rules|
  {
    if rules == [] {
      OrderAround(m.src, c, s.cursor, id, kind, children);
    } else {
      ChildOrdered(m, exec, rules[0], Normal, s);
      var o := exec(rules[0], Normal, s);
      if o.Done? && o.result.Success? {
        CollectedInOrder(m, c, s.cursor, o.state.cursor, children, o.result);
        RootOrdered(m, exec, c, owner, kind, id, rules[1..], true, Attached(children, o.result), o.state);
      }
    }
  }

  ghost predicate LoopOut(m: Setup, c: Position, o: LoopOutcome) {
    && (o.LoopDone? || o.LoopFailed? ==> c <= o.state.cursor <= |m.src.lexemes|)
    && (o.LoopDone? ==> InOrderAll(m.src, c, o.state.cursor, o.children)) && (o.LoopFailed? ==> o.result.Failure?)
  }

  lemma {:induction false} LoopOrdered(m: Setup, exec: Exec, c: Position, inner: Rule, max: Option<nat>, retries: bool, count: nat, children: seq<Tree>,
                                       s: State, turns: nat)
    requires Ordering(m, exec, s) && c <= s.cursor && InOrderAll(m.src, c, s.cursor, children)
    ensures LoopOut(m, c, RunLoop(m, exec, inner, max, retries, count, children, s, turns))
    decreases turns
  {
    if !(max.Some? && count >= max.value) && turns > 0 {
      ChildOrdered(m, exec, inner, Normal, s);
      var o := exec(inner, Normal, s);
      if o.Done? {
        OrderAllWider(m.src, c, c, s.cursor, o.state.cursor, children);
        if o.result.Success? {
          CollectedInOrder(m, c, s.cursor, o.state.cursor, children, o.result);
        }
        var turn := NextTurn(m, retries, count, children, s, o.result, o.state);
        if turn.Again? {
          LoopOrdered(m, exec, c, inner, max, retries, turn.count, turn.children, o.state, turns - 1);
        }
      }
    }
  }

  lemma {:induction false} RepetitionOrdered(m: Setup, exec: Exec, kind: Option<Kind>, min: nat, max: Option<nat>, retries: bool, inner: Rule,
                                             s: State, turns: nat)
    requires Ordering(m, exec, s)
    ensures TreeOut(m, s.cursor, RunRepetition(m, exec, kind, min, max, retries, inner, s, turns))
  {
    var e := if kind.Some? then NewNode(s) else s;
    LoopOrdered(m, exec, s.cursor, inner, max, retries, 0, [], e, turns);
    var o := RunLoop(m, exec, inner, max, retries, 0, [], e, turns);
    if o.LoopDone? {
      OrderAround(m.src, s.cursor, o.state.cursor, TRANSIENT, NO_KIND, o.children);
      if kind.Some? {
        OrderAround(m.src, s.cursor, o.state.cursor, s.nextID + 1, kind.value, o.children);
      }
    }
  }

  lemma {:induction false} SuffixOrdered(m: Setup, exec: Exec, kind: Kind, inner: Rule, suffix: Token, s: State)
    requires Ordering(m, exec, s)
    ensures TreeOut(m, s.cursor, RunSuffix(m, exec, kind, inner, suffix, s))
  {
    ChildOrdered(m, exec, inner, Normal, s);
    var o := exec(inner, Normal, s);
    if o.Done? && o.result.Success? && Peek(m, o.state).token == suffix {
      var inside := if o.result.node.Some? then [o.result.node.value] else [];
      if o.result.node.Some? {
        OrderOne(m.src, s.cursor, o.state.cursor, o.result.node.value);
      }
      OrderWithToken(m.src, s.cursor, o.state.cursor, o.state.nextID + 1, kind, inside);
    }
  }

  lemma {:induction false} CommittedOrdered(m: Setup, exec: Exec, c: Position, inner: Rule, s: State)
    requires Ordering(m, exec, s) && c <= s.cursor
    ensures TreeOut(m, c, RunCommitted(m, exec, inner, s))
  {
    ChildOrdered(m, exec, inner, Normal, s);
    TreeOutFrom(m, c, s.cursor, exec(inner, Normal, s));
  }

  lemma {:induction false} ClosedOrdered(m: Setup, c: Position, owner: Rule, kind: Option<Kind>, close: Token, r: Result, t: State)
    requires Ready(m, t) && c <= t.cursor && ResultIn(m.src, c, t.cursor, r)
    ensures TreeOut(m, c, CloseNest(m, owner, kind, close, r, t))
  {
    if r.Success? && Peek(m, t).token == close {
      var after := Take(m, t).cursor;
      if kind.None? {
        if r.node.Some? {
          OrderWider(m.src, c, c, t.cursor, after, r.node.value);
        }
      } else {
        CollectedInOrder(m, c, c, t.cursor, [], r);
        OrderAllWider(m.src, c, c, t.cursor, after, Attached([], r));
        OrderAround(m.src, c, after, t.nextID + 1, kind.value, Attached([], r));
      }
    }
  }

  lemma {:induction false} NestOrdered(m: Setup, exec: Exec, owner: Rule, kind: Option<Kind>, open: Token, close: Token, inner: Rule, s: State)
    requires Ordering(m, exec, s)
    ensures TreeOut(m, s.cursor, RunNest(m, exec, owner, kind, open, close, inner, s))
  {
    if Peek(m, s).token == open {
      CommittedOrdered(m, exec, s.cursor, inner, Opened(m, s));
      var o := RunCommitted(m, exec, inner, Opened(m, s));
      if o.Done? {
        ClosedOrdered(m, s.cursor, owner, kind, close, o.result, o.state);
      }
    }
  }

  lemma {:induction false} ArmsOrdered(m: Setup, exec: Exec, c: Position, rules: seq<Rule>, s: State)
    requires Ordering(m, exec, s) && c <= s.cursor
    ensures TreeOut(m, c, RunArms(exec, rules, s))
    decreases |rules|
  {
    if rules != [] {
      ChildOrdered(m, exec, rules[0], Normal, s);
      var o := exec(rules[0], Normal, s);
      TreeOutFrom(m, c, s.cursor, o);
      if o.Done? && o.result.Failure? && o.result.kind.FailureNoMatch? {
        ArmsOrdered(m, exec, c, rules[1..], o.state);
      }
    }
  }

  lemma {:induction false} ChoiceOrdered(m: Setup, exec: Exec, rules: seq<Rule>, s: State)
    requires Ordering(m, exec, s)
    ensures TreeOut(m, s.cursor, RunChoice(m, exec, rules, s))
  {
    match ChoiceDispatch.DispatchOf(m.analysis, Arms(rules), Ahead(m, s))
    case NoArm =>
    case Candidates(indices) => ArmsOrdered(m, exec, s.cursor, Selected(rules, indices), s);
    case Fallback => ArmsOrdered(m, exec, s.cursor, rules, s);
  }

  predicate RunsGroup(b: Body) {
    b.Sequence? || b.Wrap? || b.Root? || b.Repetition? || b.BoundedRepetition? || b.Choice?
  }

  lemma {:induction false} GroupOrdered(m: Setup, exec: Exec, rule: Rule, s: State, turns: nat)
    requires Ordering(m, exec, s) && RunsGroup(rule.body)
    ensures TreeOut(m, s.cursor, RunBody(m, exec, rule, s, turns))
  {
    match rule.body
    case Sequence(kind, rules) => SequenceOrdered(m, exec, s.cursor, rule, kind, rules, Marker(m, s), [], s);
    case Wrap(kind, inner) => SequenceOrdered(m, exec, s.cursor, rule, Some(kind), [inner], Marker(m, s), [], s);
    case Root(kind, rules) => RootOrdered(m, exec, s.cursor, rule, kind, s.nextID + 1, rules, false, [], NewNode(s));
    case Repetition(kind, min, inner) => RepetitionOrdered(m, exec, kind, min, None, true, inner, s, turns);
    case BoundedRepetition(kind, min, max, inner) => RepetitionOrdered(m, exec, kind, min, max, false, inner, s, turns);
    case Choice(rules) => ChoiceOrdered(m, exec, rules, s);
  }

  lemma {:induction false} OneOrdered(m: Setup, exec: Exec, rule: Rule, s: State, turns: nat)
    requires Ordering(m, exec, s) && !RunsGroup(rule.body) && !rule.body.Reference?
    ensures TreeOut(m, s.cursor, RunBody(m, exec, rule, s, turns))
  {
    match rule.body
    case Expect(tokens, kind) => ExpectOrdered(m, tokens, kind, s);
    case ListOf(spec, lk, ek) => ListOrdered(m, rule, spec, lk, ek, s);
    case Optional(inner) => ChildOrdered(m, exec, inner, Probe, s);
    case OptionalWhen(_, inner) => ChildOrdered(m, exec, inner, Normal, s);
    case Predict(_, inner) => ChildOrdered(m, exec, inner, Normal, s);
    case OptionalSuffix(kind, inner, suffix) => SuffixOrdered(m, exec, kind, inner, suffix, s);
    case Required(inner) => ChildOrdered(m, exec, inner, Normal, s);
    case RecoverSync(inner) => ChildOrdered(m, exec, inner, Normal, s);
    case Nest(kind, open, close, inner) => NestOrdered(m, exec, rule, kind, open, close, inner, s);
    case Prefixed(_, inner) => CommittedOrdered(m, exec, s.cursor, inner, Take(m, s));
  }

  lemma {:induction false} BodyOrdered(m: Setup, exec: Exec, rule: Rule, s: State, turns: nat)
    requires Ordering(m, exec, s)
    ensures TreeOut(m, s.cursor, RunBody(m, exec, rule, s, turns))
    decreases turns
  {
    if rule.body.Reference? {
      var target := rule.body.target;
      if target in m.registry && turns > 0 {
        BodyOrdered(m, exec, m.registry[target], WithRecovery(m.registry[target], s), turns - 1);
      }
    } else if RunsGroup(rule.body) {
      GroupOrdered(m, exec, rule, s, turns);
    } else {
      OneOrdered(m, exec, rule, s, turns);
    }
  }

  // -------------------------------------------------------------------- rules and engine

  /** Recovery's node holds nothing. */
  lemma {:induction false} HandledTree(m: Setup, rule: Rule, mode: Mode, s: State, pre: Lexeme, r: Result, t: State, c: Position, d: Position)
    requires r.Failure? && c <= d
    ensures ResultIn(m.src, c, d, HandleFailure(m, rule, mode, s, pre, r, t).0)
  {
    if mode.Normal? && r.kind.FailureError? {
      RecoveredTree(m, rule, s, r, Pop(NoteUnexpected(m, rule, s, pre, t), true), c, d);
    }
  }

  lemma {:induction false} RecoveredTree(m: Setup, rule: Rule, start: State, r: Result, s: State, c: Position, d: Position)
    requires r.Failure? && c <= d
    ensures ResultIn(m.src, c, d, Recovered(m, rule, start, r, s).0)
  {
    match Landing(m, s)
    case None =>
    case Some(n) =>
      var t := s.(cursor := Clamped(m, s) + n);
      var (r', u) := Landed(m, rule, t);
      OrderAround(m.src, c, d, u.nextID, m.errorKind, []);
  }

  lemma {:induction false} EnvelopeOrdered(m: Setup, exec: Exec, rule: Rule, mode: Mode, s: State, turns: nat)
    requires Transactional(m, exec) && Ordering(m, exec, s)
    ensures TreeOut(m, s.cursor, RunEnvelope(m, exec, rule, mode, s, turns))
  {
    EnvelopeTransaction(m, exec, rule, mode, s, turns);
    var e := Enter(m, rule, mode, s);
    BodyOrdered(m, exec, rule, e, turns);
    var c, o := RunBody(m, exec, rule, e, turns), RunEnvelope(m, exec, rule, mode, s, turns);
    if o.Done? && c.result.Failure? {
      HandledTree(m, rule, mode, s, Peek(m, s), c.result, Truncated(c.state, |s.created|), s.cursor, o.state.cursor);
    }
  }

  lemma {:induction false} OrderIsKept(m: Setup, exec: Exec, p: (Rule, Mode, State, Outcome) -> bool)
    requires forall rule, mode, s, o :: p(rule, mode, s, o) <==> (Ready(m, s) ==> TreeOut(m, s.cursor, o))
    ensures EnvelopeKeeps(m, exec, p)
  {
    if Transactional(m, exec) && AllRuns(exec, p) {
      forall rule, mode, s ensures RunsInOrder(m, exec, rule, mode, s) {
        assert p(rule, mode, s, exec(rule, mode, s));
      }
      forall rule, mode, s, turns ensures p(rule, mode, s, RunEnvelope(m, exec, rule, mode, s, turns)) {
        if Ready(m, s) {
          EnvelopeOrdered(m, exec, rule, mode, s, turns);
        }
      }
    }
  }

  /**
   For every rule, mode, state and fuel: in the tree of a success all lexemes below a child stand
   in the input before all those below the next one, and every lexeme held lies in what was
   consumed, at a place of its own.
   */
  lemma {:induction false} TreeFollowsInput(m: Setup, rule: Rule, mode: Mode, s: State, fuel: nat)
    requires Ready(m, s)
    ensures var o := ExecuteRule(m, rule, mode, s, fuel);
            o.Done? && o.result.Success? && o.result.node.Some? ==> InOrder(m.src, s.cursor, o.state.cursor, o.result.node.value)
  {
    var p := (r: Rule, md: Mode, st: State, o: Outcome) => Ready(m, st) ==> TreeOut(m, st.cursor, o);
    forall exec {
      OrderIsKept(m, exec, p);
    }
    forall rule, mode, s ensures p(rule, mode, s, OutOfFuel) {
      assert TreeOut(m, s.cursor, OutOfFuel);
    }
    EngineInduction(m, p, fuel);
    assert p(rule, mode, s, EngineAt(m, fuel)(rule, mode, s));
  }
}
