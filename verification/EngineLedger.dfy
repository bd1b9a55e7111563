/**
 The nodes of a result. Every node of the tree a rule returns was handed out while the rule ran,
 is on the ledger of created nodes behind those that were there before, and occurs once. So a
 tree built before a rule and one built while it runs have no node in common, which is what lets
 a failed rule take its nodes back by cutting the ledger.
 */
module EngineLedger {
  import opened Languages
  import opened Grammars
  import opened TokenStreams
  import opened Rules
  import opened Engine
  import opened EngineTransaction
  import ListRule
  import ChoiceDispatch

  // ------------------------------------------------------------------------- node ids

  /** The ids of a tree's nodes, parents first; transient containers carry none. */
  function Ids(t: Tree): seq<nat>
    decreases t, 1
  {
    (if t.id == TRANSIENT then [] else [t.id]) + IdsOfAll(t.children)
  }

  function IdsOfAll(ts: seq<Tree>): seq<nat>
    decreases ts, 0
  {
    if ts == [] then [] else Ids(ts[0]) + IdsOfAll(ts[1..])
  }

  lemma {:induction false} IdsAppend(a: seq<Tree>, b: seq<Tree>)
    ensures IdsOfAll(a + b) == IdsOfAll(a) + IdsOfAll(b)
    decreases |a|
  {
    if a == [] {
      assert a + b == b;
    } else {
      IdsAppend(a[1..], b);
      assert (a + b)[0] == a[0] && (a + b)[1..] == a[1..] + b;
    }
  }

  lemma {:induction false} IdsOfOne(t: Tree)
    ensures IdsOfAll([t]) == Ids(t)
  {
    assert [t][1..] == [];
  }

  ghost predicate Once(ids: seq<nat>) {
    forall i, j :: 0 <= i < j < |ids| ==> ids[i] != ids[j]
  }

  /** The ids are on the ledger of s, were handed out after lo, and occur once. */
  ghost predicate Fresh(ids: seq<nat>, lo: nat, s: State) {
    Once(ids) && forall id :: id in ids ==> lo < id && id in s.created
  }

  /** The ledger lists each id once, in the order handed out. */
  ghost predicate LedgerOk(s: State) {
    && (forall i, j :: 0 <= i < j < |s.created| ==> s.created[i] < s.created[j])
    && (forall i :: 0 <= i < |s.created| ==> TRANSIENT < s.created[i] <= s.nextID)
  }

  /** The ledger has only grown. */
  ghost predicate Onward(m: Setup, s: State, t: State) {
    Ready(m, t) && LedgerOk(t) && s.created <= t.created && s.nextID <= t.nextID
  }

  lemma OnwardTrans(m: Setup, s: State, t: State, u: State)
    requires Onward(m, s, t) && Onward(m, t, u)
    ensures Onward(m, s, u)
  {
  }

  lemma FreshLater(m: Setup, ids: seq<nat>, lo: nat, s: State, t: State)
    requires Fresh(ids, lo, s) && Onward(m, s, t)
    ensures Fresh(ids, lo, t)
  {
    forall id | id in ids ensures id in t.created {
      assert id in s.created;
    }
  }

  lemma FreshSince(ids: seq<nat>, lo: nat, hi: nat, s: State)
    requires Fresh(ids, hi, s) && lo <= hi
    ensures Fresh(ids, lo, s)
  {
  }

  /** Ids handed out before s and after it, side by side. */
  lemma FreshJoin(m: Setup, a: seq<nat>, b: seq<nat>, lo: nat, s: State, t: State)
    requires LedgerOk(s) && lo <= s.nextID && Fresh(a, lo, s) && Onward(m, s, t) && Fresh(b, s.nextID, t)
    ensures Fresh(a + b, lo, t)
  {
    FreshLater(m, a, lo, s, t);
    forall i, j | 0 <= i < j < |a + b| ensures (a + b)[i] != (a + b)[j] {
      if i < |a| <= j {
        assert a[i] in a && b[j - |a|] in b;
        assert a[i] in s.created;
      }
    }
  }

  lemma FreshTail(a: seq<nat>, b: seq<nat>, lo: nat, s: State)
    requires Fresh(a + b, lo, s)
    ensures Fresh(b, lo, s)
  {
    forall i, j | 0 <= i < j < |b| ensures b[i] != b[j] {
      assert (a + b)[|a| + i] == b[i] && (a + b)[|a| + j] == b[j];
    }
    forall id | id in b ensures id in a + b {
    }
  }

  // ------------------------------------------------------------------------- outcomes

  /** The ids of a result's node, none when it has none. */
  function ResultIds(r: Result): seq<nat> {
    if r.Success? && r.node.Some? then Ids(r.node.value) else []
  }

  ghost predicate FreshOut(m: Setup, lo: nat, s: State, o: Outcome) {
    o.Done? ==> Onward(m, s, o.state) && Fresh(ResultIds(o.result), lo, o.state)
  }

  ghost predicate RunsFresh(m: Setup, exec: Exec, rule: Rule, mode: Mode, s: State) {
    Ready(m, s) && LedgerOk(s) ==> FreshOut(m, s.nextID, s, exec(rule, mode, s))
  }

  ghost predicate FreshExec(m: Setup, exec: Exec) {
    forall rule, mode, s :: RunsFresh(m, exec, rule, mode, s)
  }

  ghost predicate Starting(m: Setup, exec: Exec, s: State) {
    FreshExec(m, exec) && Ready(m, s) && LedgerOk(s)
  }

  lemma {:induction false} ChildFresh(m: Setup, exec: Exec, rule: Rule, mode: Mode, s: State)
    requires Starting(m, exec, s)
    ensures FreshOut(m, s.nextID, s, exec(rule, mode, s))
    ensures exec(rule, mode, s).Done? ==> Starting(m, exec, exec(rule, mode, s).state)
  {
    assert RunsFresh(m, exec, rule, mode, s);
  }

  lemma {:induction false} NewNodeOnward(m: Setup, s: State)
    requires Ready(m, s) && LedgerOk(s)
    ensures Onward(m, s, NewNode(s)) && NewNode(s).nextID == s.nextID + 1 && Fresh([s.nextID + 1], s.nextID, NewNode(s))
  {
    var t := NewNode(s);
    assert t.created[|s.created|] == s.nextID + 1;
  }

  /** A step that leaves ids and ledger alone. */
  lemma SameLedger(m: Setup, s: State, t: State)
    requires Ready(m, t) && LedgerOk(s) && t.created == s.created && t.nextID == s.nextID
    ensures Onward(m, s, t)
  {
  }

  lemma FreshOutFrom(m: Setup, lo: nat, s: State, t: State, o: Outcome)
    requires Onward(m, s, t) && FreshOut(m, lo, t, o)
    ensures FreshOut(m, lo, s, o)
  {
    if o.Done? {
      OnwardTrans(m, s, t, o.state);
    }
  }

  /** What a result adds to the children collected so far. */
  lemma {:induction false} AttachedFresh(m: Setup, lo: nat, children: seq<Tree>, r: Result, s: State, t: State)
    requires LedgerOk(s) && lo <= s.nextID && Onward(m, s, t) && r.Success?
    requires Fresh(IdsOfAll(children), lo, s) && Fresh(ResultIds(r), s.nextID, t)
    ensures Fresh(IdsOfAll(Attached(children, r)), lo, t)
  {
    if r.node.None? {
      FreshLater(m, IdsOfAll(children), lo, s, t);
    } else {
      var node := r.node.value;
      if r.isFragment {
        FreshTail(if node.id == TRANSIENT then [] else [node.id], IdsOfAll(node.children), s.nextID, t);
        IdsAppend(children, node.children);
        FreshJoin(m, IdsOfAll(children), IdsOfAll(node.children), lo, s, t);
      } else {
        IdsAppend(children, [node]);
        IdsOfOne(node);
        FreshJoin(m, IdsOfAll(children), Ids(node), lo, s, t);
      }
    }
  }

  /** A node made last, around children made before. */
  lemma {:induction false} NodeFresh(m: Setup, lo: nat, kind: Kind, tokens: seq<Lexeme>, children: seq<Tree>, s: State)
    requires Ready(m, s) && LedgerOk(s) && lo <= s.nextID && Fresh(IdsOfAll(children), lo, s)
    ensures Fresh(Ids(Tree(s.nextID + 1, kind, tokens, children)), lo, NewNode(s)) && Onward(m, s, NewNode(s))
  {
    NewNodeOnward(m, s);
    var a, b := IdsOfAll(children), [s.nextID + 1];
    FreshJoin(m, a, b, lo, s, NewNode(s));
    FreshSwap(a, b, lo, NewNode(s));
    assert Ids(Tree(s.nextID + 1, kind, tokens, children)) == b + a;
  }

  lemma FreshSwap(a: seq<nat>, b: seq<nat>, lo: nat, s: State)
    requires Fresh(a + b, lo, s)
    ensures Fresh(b + a, lo, s)
  {
    forall i, j | 0 <= i < j < |b + a| ensures (b + a)[i] != (b + a)[j] {
      var x := if i < |b| then |a| + i else i - |b|;
      var y := if j < |b| then |a| + j else j - |b|;
      assert (a + b)[x] == (b + a)[i] && (a + b)[y] == (b + a)[j] && x != y;
    }
    forall id | id in b + a ensures id in a + b {
    }
  }

  /** A node made first, around children made after it. */
  lemma {:induction false} ContainerFresh(m: Setup, s: State, id: nat, kind: Kind, children: seq<Tree>, t: State)
    requires Ready(m, s) && LedgerOk(s) && id == s.nextID + 1
    requires Onward(m, NewNode(s), t) && Fresh(IdsOfAll(children), id, t)
    ensures Fresh(Ids(Tree(id, kind, [], children)), s.nextID, t)
  {
    NewNodeOnward(m, s);
    FreshJoin(m, [id], IdsOfAll(children), s.nextID, NewNode(s), t);
  }

  // ------------------------------------------------------------------------ the bodies

  lemma {:induction false} TakeOnward(m: Setup, s: State)
    requires Ready(m, s) && LedgerOk(s)
    ensures Onward(m, s, Take(m, s)) && Take(m, s).nextID == s.nextID && Take(m, s).created == s.created
  {
    SameLedger(m, s, Take(m, s));
  }

  /** A node made behind a token just taken. */
  lemma {:induction false} NodeBehindToken(m: Setup, lo: nat, kind: Kind, tokens: seq<Lexeme>, children: seq<Tree>, s: State)
    requires Ready(m, s) && LedgerOk(s) && lo <= s.nextID && Fresh(IdsOfAll(children), lo, s)
    ensures var t := NewNode(Take(m, s)); Onward(m, s, t) && Fresh(Ids(Tree(s.nextID + 1, kind, tokens, children)), lo, t)
  {
    TakeOnward(m, s);
    var t := Take(m, s);
    FreshLater(m, IdsOfAll(children), lo, s, t);
    NodeFresh(m, lo, kind, tokens, children, t);
    OnwardTrans(m, s, t, NewNode(t));
  }

  lemma {:induction false} ExpectFresh(m: Setup, tokens: seq<Token>, kind: Option<Kind>, s: State)
    requires Ready(m, s) && LedgerOk(s)
    ensures FreshOut(m, s.nextID, s, RunExpect(m, tokens, kind, s))
  {
    SameLedger(m, s, s);
    TakeOnward(m, s);
    if kind.Some? {
      NodeBehindToken(m, s.nextID, kind.value, [Peek(m, s)], [], s);
    }
  }

  lemma {:induction false} NewNodesOnward(m: Setup, s: State, n: nat)
    requires Ready(m, s) && LedgerOk(s)
    ensures Onward(m, s, NewNodes(s, n)) && NewNodes(s, n).nextID == s.nextID + n && NewNodes(s, n).cursor == s.cursor
    ensures forall id :: s.nextID < id <= s.nextID + n ==> id in NewNodes(s, n).created
    decreases n
  {
    if n > 0 {
      NewNodesOnward(m, s, n - 1);
      var t := NewNodes(s, n - 1);
      NewNodeOnward(m, t);
      forall id | s.nextID < id <= s.nextID + n ensures id in NewNode(t).created {
        assert NewNode(t).created == t.created + [t.nextID + 1];
      }
    }
  }

  /** The ids of nodes numbered one after the other. */
  function Numbered(first: nat, n: nat): seq<nat> {
    seq(n, i requires 0 <= i < n => first + i)
  }

  lemma NumberedFresh(lo: nat, n: nat, t: State)
    requires forall id :: lo < id <= lo + n ==> id in t.created
    ensures Fresh(Numbered(lo + 1, n), lo, t)
  {
  }

  lemma {:induction false} ElementIds(kind: Kind, first: nat, ls: seq<Lexeme>)
    requires first > 0
    ensures IdsOfAll(Elements(kind, first, ls)) == Numbered(first, |ls|)
    decreases |ls|
  {
    if ls != [] {
      var es, rest := Elements(kind, first, ls), Elements(kind, first + 1, ls[1..]);
      ElementIds(kind, first + 1, ls[1..]);
      assert es[1..] == rest;
      assert Ids(es[0]) == [first] + IdsOfAll([]) == [first];
      assert IdsOfAll(es) == [first] + IdsOfAll(rest);
    }
  }

  lemma {:induction false} ListIds(kind: Kind, elementKind: Kind, first: nat, ls: seq<Lexeme>)
    requires first > 0
    ensures Ids(Tree(first, kind, [], Elements(elementKind, first + 1, ls))) == Numbered(first, 1 + |ls|)
  {
    ElementIds(elementKind, first + 1, ls);
  }

  lemma {:induction false} ListFresh(m: Setup, rule: Rule, lk: Kind, ek: Kind, s: State, run: ListRule.ListRun)
    requires Ready(m, s) && LedgerOk(s) && run.at <= |m.src.lexemes|
    ensures FreshOut(m, s.nextID, s, ListResult(m, rule, lk, ek, s, run))
  {
    var at := s.(cursor := run.at);
    SameLedger(m, s, at);
    match run
    case Accepted(_, elements) =>
      NewNodesOnward(m, at, 1 + |elements|);
      var t := NewNodes(at, 1 + |elements|);
      OnwardTrans(m, s, at, t);
      ListIds(lk, ek, s.nextID + 1, elements);
      NumberedFresh(s.nextID, 1 + |elements|, t);
    case Rejected(_, blame, made) =>
      NewNodesOnward(m, at, made);
      var t := NewNodes(at, made);
      OnwardTrans(m, s, at, t);
      SameLedger(m, t, ReportPosition(t, rule, blame.start));
      OnwardTrans(m, s, t, ReportPosition(t, rule, blame.start));
  }

  lemma {:induction false} FragmentIds(children: seq<Tree>)
    ensures Ids(Tree(TRANSIENT, NO_KIND, [], children)) == IdsOfAll(children)
  {
  }

  lemma {:induction false} CloseFresh(m: Setup, lo: nat, kind: Option<Kind>, children: seq<Tree>, s: State)
    requires Ready(m, s) && LedgerOk(s) && lo <= s.nextID && Fresh(IdsOfAll(children), lo, s)
    ensures FreshOut(m, lo, s, Close(kind, children, s))
  {
    if kind.Some? {
      NodeFresh(m, lo, kind.value, [], children, s);
    } else {
      SameLedger(m, s, s);
      FragmentIds(children);
    }
  }

  lemma {:induction false} JudgeFresh(m: Setup, lo: nat, owner: Rule, element: Rule, marker: nat, r: Result, s: State, t: State)
    requires Onward(m, s, t) && Fresh(ResultIds(r), lo, t)
    ensures var v := Judge(m, owner, element, marker, r, t); Onward(m, s, v.state) && Fresh(ResultIds(v.result), lo, v.state)
  {
    SameLedger(m, t, ReportExpected(m, t, owner));
    OnwardTrans(m, s, t, ReportExpected(m, t, owner));
    assert Ids(Tree(TRANSIENT, NO_KIND, [], [])) == [];
  }

  lemma {:induction false} SequenceFresh(m: Setup, exec: Exec, lo: nat, owner: Rule, kind: Option<Kind>, rules: seq<Rule>, marker: nat,
                                         children: seq<Tree>, s: State)
    requires Starting(m, exec, s) && lo <= s.nextID && Fresh(IdsOfAll(children), lo, s)
    ensures FreshOut(m, lo, s, RunSequence(m, exec, owner, kind, rules, marker, children, s))
    decreases |rules|
  {
    if rules == [] {
      CloseFresh(m, lo, kind, children, s);
    } else {
      ChildFresh(m, exec, rules[0], Normal, s);
      var c := exec(rules[0], Normal, s);
      if c.Done? {
        JudgeFresh(m, s.nextID, owner, rules[0], marker, c.result, s, c.state);
        var v := Judge(m, owner, rules[0], marker, c.result, c.state);
        if v.Keep? {
          AttachedFresh(m, lo, children, v.result, s, v.state);
          var more := Attached(children, v.result);
          SequenceFresh(m, exec, lo, owner, kind, rules[1..], marker, more, v.state);
          FreshOutFrom(m, lo, s, v.state, RunSequence(m, exec, owner, kind, rules[1..], marker, more, v.state));
        }
      }
    }
  }

  lemma {:induction false} RootFresh(m: Setup, exec: Exec, s0: State, owner: Rule, kind: Kind, rules: seq<Rule>, committed: bool,
                                     children: seq<Tree>, s: State)
    requires Ready(m, s0) && LedgerOk(s0) && Starting(m, exec, s) && Onward(m, NewNode(s0), s)
    requires Fresh(IdsOfAll(children), s0.nextID + 1, s)
    ensures FreshOut(m, s0.nextID, s, RunRoot(m, exec, owner, kind, s0.nextID + 1, rules, committed, children, s))
    decreases |rules|
  {
    SameLedger(m, s, s);
    if rules == [] {
      ContainerFresh(m, s0, s0.nextID + 1, kind, children, s);
    } else {
      ChildFresh(m, exec, rules[0], Normal, s);
      var c := exec(rules[0], Normal, s);
      if c.Done? {
        if c.result.Success? {
          AttachedFresh(m, s0.nextID + 1, children, c.result, s, c.state);
          OnwardTrans(m, NewNode(s0), s, c.state);
          var more := Attached(children, c.result);
          RootFresh(m, exec, s0, owner, kind, rules[1..], true, more, c.state);
          FreshOutFrom(m, s0.nextID, s, c.state, RunRoot(m, exec, owner, kind, s0.nextID + 1, rules[1..], true, more, c.state));
        } else {
          SameLedger(m, c.state, ReportExpected(m, c.state, owner));
        }
      }
    }
  }

  ghost predicate FreshLoop(m: Setup, lo: nat, s: State, o: LoopOutcome) {
    && (o.LoopDone? ==> Onward(m, s, o.state) && Fresh(IdsOfAll(o.children), lo, o.state))
    && (o.LoopFailed? ==> Onward(m, s, o.state) && o.result.Failure?)
  }

  lemma FreshLoopFrom(m: Setup, lo: nat, s: State, t: State, o: LoopOutcome)
    requires Onward(m, s, t) && FreshLoop(m, lo, t, o)
    ensures FreshLoop(m, lo, s, o)
  {
    if o.LoopDone? || o.LoopFailed? {
      OnwardTrans(m, s, t, o.state);
    }
  }

  lemma {:induction false} LoopFresh(m: Setup, exec: Exec, lo: nat, inner: Rule, max: Option<nat>, retries: bool, count: nat, children: seq<Tree>,
                                     s: State, turns: nat)
    requires Starting(m, exec, s) && lo <= s.nextID && Fresh(IdsOfAll(children), lo, s)
    ensures FreshLoop(m, lo, s, RunLoop(m, exec, inner, max, retries, count, children, s, turns))
    decreases turns
  {
    SameLedger(m, s, s);
    if !(max.Some? && count >= max.value) && turns > 0 {
      ChildFresh(m, exec, inner, Normal, s);
      var c := exec(inner, Normal, s);
      if c.Done? {
        FreshLater(m, IdsOfAll(children), lo, s, c.state);
        if c.result.Success? {
          AttachedFresh(m, lo, children, c.result, s, c.state);
        }
        var turn := NextTurn(m, retries, count, children, s, c.result, c.state);
        if turn.Again? {
          LoopFresh(m, exec, lo, inner, max, retries, turn.count, turn.children, c.state, turns - 1);
          FreshLoopFrom(m, lo, s, c.state, RunLoop(m, exec, inner, max, retries, turn.count, turn.children, c.state, turns - 1));
        }
      }
    }
  }

  lemma {:induction false} RepetitionFresh(m: Setup, exec: Exec, kind: Option<Kind>, min: nat, max: Option<nat>, retries: bool, inner: Rule,
                                           s: State, turns: nat)
    requires Starting(m, exec, s)
    ensures FreshOut(m, s.nextID, s, RunRepetition(m, exec, kind, min, max, retries, inner, s, turns))
  {
    NewNodeOnward(m, s);
    SameLedger(m, s, s);
    var e := if kind.Some? then NewNode(s) else s;
    LoopFresh(m, exec, e.nextID, inner, max, retries, 0, [], e, turns);
    var o := RunLoop(m, exec, inner, max, retries, 0, [], e, turns);
    FreshLoopFrom(m, e.nextID, s, e, o);
    if o.LoopDone? {
      if kind.Some? {
        ContainerFresh(m, s, s.nextID + 1, kind.value, o.children, o.state);
      } else {
        FragmentIds(o.children);
      }
    }
  }

  lemma {:induction false} WrappedFresh(m: Setup, lo: nat, kind: Kind, inside: seq<Tree>, s: State)
    requires Ready(m, s) && LedgerOk(s) && lo <= s.nextID && Fresh(IdsOfAll(inside), lo, s)
    ensures FreshOut(m, lo, s, Done(Success(Some(Tree(Take(m, s).nextID + 1, kind, [Peek(m, s)], inside)), false), NewNode(Take(m, s))))
  {
    NodeBehindToken(m, lo, kind, [Peek(m, s)], inside, s);
  }

  lemma {:induction false} TakeSuffixFresh(m: Setup, lo: nat, kind: Kind, suffix: Token, r: Result, s: State)
    requires Ready(m, s) && LedgerOk(s) && lo <= s.nextID && Fresh(ResultIds(r), lo, s)
    ensures FreshOut(m, lo, s, TakeSuffix(m, kind, suffix, r, s))
  {
    if r.Failure? || Peek(m, s).token != suffix {
      SameLedger(m, s, s);
    } else {
      var inside := if r.node.Some? then [r.node.value] else [];
      InsideIds(r, inside);
      WrappedFresh(m, lo, kind, inside, s);
    }
  }

  lemma {:induction false} InsideIds(r: Result, inside: seq<Tree>)
    requires r.Success? && inside == if r.node.Some? then [r.node.value] else []
    ensures IdsOfAll(inside) == ResultIds(r)
  {
    if r.node.Some? {
      IdsOfOne(r.node.value);
    }
  }

  lemma {:induction false} SuffixFresh(m: Setup, exec: Exec, kind: Kind, inner: Rule, suffix: Token, s: State)
    requires Starting(m, exec, s)
    ensures FreshOut(m, s.nextID, s, RunSuffix(m, exec, kind, inner, suffix, s))
  {
    ChildFresh(m, exec, inner, Normal, s);
    var c := exec(inner, Normal, s);
    if c.Done? {
      TakeSuffixFresh(m, s.nextID, kind, suffix, c.result, c.state);
      FreshOutFrom(m, s.nextID, s, c.state, TakeSuffix(m, kind, suffix, c.result, c.state));
    }
  }

  lemma {:induction false} RequiredFresh(m: Setup, exec: Exec, owner: Rule, inner: Rule, s: State)
    requires Starting(m, exec, s)
    ensures FreshOut(m, s.nextID, s, RunRequired(m, exec, owner, inner, s))
  {
    ChildFresh(m, exec, inner, Normal, s);
    var c := exec(inner, Normal, s);
    if c.Done? {
      SameLedger(m, c.state, ReportExpected(m, c.state, owner));
      OnwardTrans(m, s, c.state, ReportExpected(m, c.state, owner));
    }
  }

  lemma {:induction false} InnerFresh(lo: nat, r: Result, s: State)
    requires r.Success? && Fresh(ResultIds(r), lo, s)
    ensures Fresh(IdsOfAll(Attached([], r)), lo, s)
  {
    if r.node.Some? {
      var node := r.node.value;
      if r.isFragment {
        assert Attached([], r) == node.children;
        FreshTail(if node.id == TRANSIENT then [] else [node.id], IdsOfAll(node.children), lo, s);
      } else {
        assert Attached([], r) == [node];
        IdsOfOne(node);
      }
    }
  }

  lemma {:induction false} BeforeCloseFresh(m: Setup, lo: nat, owner: Rule, kind: Option<Kind>, close: Token, r: Result, s: State)
    requires Ready(m, s) && LedgerOk(s) && lo <= s.nextID && Fresh(ResultIds(r), lo, s)
    ensures var (r', u) := BeforeClose(m, owner, kind, close, r, s); Onward(m, s, u) && Fresh(ResultIds(r'), lo, u)
  {
    if r.Failure? {
      SameLedger(m, s, s);
    } else if Peek(m, s).token != close {
      SameLedger(m, s, CloseMissing(m, owner, s));
    } else if kind.None? {
      TakeOnward(m, s);
      FreshLater(m, ResultIds(r), lo, s, Take(m, s));
    } else {
      InnerFresh(lo, r, s);
      NodeBehindToken(m, lo, kind.value, [], Attached([], r), s);
    }
  }

  lemma {:induction false} NestFresh(m: Setup, exec: Exec, owner: Rule, kind: Option<Kind>, open: Token, close: Token, inner: Rule, s: State)
    requires Starting(m, exec, s)
    ensures FreshOut(m, s.nextID, s, RunNest(m, exec, owner, kind, open, close, inner, s))
  {
    SameLedger(m, s, s);
    var e := Opened(m, s);
    SameLedger(m, s, e);
    CommittedFresh(m, exec, inner, e);
    var c := RunCommitted(m, exec, inner, e);
    if Peek(m, s).token == open && c.Done? {
      BeforeCloseFresh(m, s.nextID, owner, kind, close, c.result, c.state);
      var (r, u) := BeforeClose(m, owner, kind, close, c.result, c.state);
      SameLedger(m, u, PopRegionOf(u));
      OnwardTrans(m, s, e, c.state);
      OnwardTrans(m, s, c.state, u);
      OnwardTrans(m, s, u, PopRegionOf(u));
    }
  }

  lemma {:induction false} CommittedFresh(m: Setup, exec: Exec, inner: Rule, s: State)
    requires Starting(m, exec, s)
    ensures FreshOut(m, s.nextID, s, RunCommitted(m, exec, inner, s))
    ensures RunCommitted(m, exec, inner, s).Done? ==> LedgerOk(RunCommitted(m, exec, inner, s).state)
  {
    ChildFresh(m, exec, inner, Normal, s);
  }

  lemma {:induction false} PrefixedFresh(m: Setup, exec: Exec, inner: Rule, s: State)
    requires Starting(m, exec, s)
    ensures FreshOut(m, s.nextID, s, RunCommitted(m, exec, inner, Take(m, s)))
  {
    SameLedger(m, s, Take(m, s));
    CommittedFresh(m, exec, inner, Take(m, s));
    FreshOutFrom(m, s.nextID, s, Take(m, s), RunCommitted(m, exec, inner, Take(m, s)));
  }

  lemma {:induction false} ArmsFresh(m: Setup, exec: Exec, lo: nat, rules: seq<Rule>, s: State)
    requires Starting(m, exec, s) && lo <= s.nextID
    ensures FreshOut(m, lo, s, RunArms(exec, rules, s))
    decreases |rules|
  {
    SameLedger(m, s, s);
    if rules != [] {
      ChildFresh(m, exec, rules[0], Normal, s);
      var c := exec(rules[0], Normal, s);
      if c.Done? {
        if c.result.Failure? && c.result.kind.FailureNoMatch? {
          ArmsFresh(m, exec, lo, rules[1..], c.state);
          FreshOutFrom(m, lo, s, c.state, RunArms(exec, rules[1..], c.state));
        } else {
          FreshSince(ResultIds(c.result), lo, s.nextID, c.state);
        }
      }
    }
  }

  lemma {:induction false} ChoiceFresh(m: Setup, exec: Exec, rules: seq<Rule>, s: State)
    requires Starting(m, exec, s)
    ensures FreshOut(m, s.nextID, s, RunChoice(m, exec, rules, s))
  {
    SameLedger(m, s, s);
    match ChoiceDispatch.DispatchOf(m.analysis, Arms(rules), Ahead(m, s))
    case NoArm =>
    case Candidates(indices) => ArmsFresh(m, exec, s.nextID, Selected(rules, indices), s);
    case Fallback => ArmsFresh(m, exec, s.nextID, rules, s);
  }

  predicate RunsGroup(b: Body) {
    b.Sequence? || b.Wrap? || b.Root? || b.Repetition? || b.BoundedRepetition? || b.Choice?
  }

  lemma {:induction false} GroupFresh(m: Setup, exec: Exec, rule: Rule, s: State, turns: nat)
    requires Starting(m, exec, s) && RunsGroup(rule.body)
    ensures FreshOut(m, s.nextID, s, RunBody(m, exec, rule, s, turns))
  {
    match rule.body
    case Sequence(kind, rules) => SequenceFresh(m, exec, s.nextID, rule, kind, rules, Marker(m, s), [], s);
    case Wrap(kind, inner) => SequenceFresh(m, exec, s.nextID, rule, Some(kind), [inner], Marker(m, s), [], s);
    case Root(kind, rules) =>
      NewNodeOnward(m, s);
      SameLedger(m, NewNode(s), NewNode(s));
      RootFresh(m, exec, s, rule, kind, rules, false, [], NewNode(s));
      FreshOutFrom(m, s.nextID, s, NewNode(s), RunRoot(m, exec, rule, kind, s.nextID + 1, rules, false, [], NewNode(s)));
    case Repetition(kind, min, inner) => RepetitionFresh(m, exec, kind, min, None, true, inner, s, turns);
    case BoundedRepetition(kind, min, max, inner) => RepetitionFresh(m, exec, kind, min, max, false, inner, s, turns);
    case Choice(rules) => ChoiceFresh(m, exec, rules, s);
  }

  lemma {:induction false} OneFresh(m: Setup, exec: Exec, rule: Rule, s: State, turns: nat)
    requires Starting(m, exec, s) && !RunsGroup(rule.body) && !rule.body.Reference?
    ensures FreshOut(m, s.nextID, s, RunBody(m, exec, rule, s, turns))
  {
    SameLedger(m, s, s);
    match rule.body
    case Expect(tokens, kind) => ExpectFresh(m, tokens, kind, s);
    case ListOf(spec, lk, ek) => ListFresh(m, rule, lk, ek, s, ListRule.RunList(m.src, s.cursor, spec));
    case Optional(inner) => ChildFresh(m, exec, inner, Probe, s);
    case OptionalWhen(_, inner) => ChildFresh(m, exec, inner, Normal, s);
    case Predict(_, inner) => ChildFresh(m, exec, inner, Normal, s);
    case OptionalSuffix(kind, inner, suffix) => SuffixFresh(m, exec, kind, inner, suffix, s);
    case Required(inner) => RequiredFresh(m, exec, rule, inner, s);
    case RecoverSync(inner) => ChildFresh(m, exec, inner, Normal, s);
    case Nest(kind, open, close, inner) => NestFresh(m, exec, rule, kind, open, close, inner, s);
    case Prefixed(_, inner) => PrefixedFresh(m, exec, inner, s);
  }

  lemma {:induction false} BodyFresh(m: Setup, exec: Exec, rule: Rule, s: State, turns: nat)
    requires Starting(m, exec, s)
    ensures FreshOut(m, s.nextID, s, RunBody(m, exec, rule, s, turns))
    decreases turns
  {
    if rule.body.Reference? {
      var target := rule.body.target;
      if target in m.registry && turns > 0 {
        var e := WithRecovery(m.registry[target], s);
        SameLedger(m, s, e);
        BodyFresh(m, exec, m.registry[target], e, turns - 1);
        var c := RunBody(m, exec, m.registry[target], e, turns - 1);
        if c.Done? {
          OnwardTrans(m, s, e, c.state);
          SameLedger(m, c.state, WithoutTopRecovery(c.state));
          OnwardTrans(m, s, c.state, WithoutTopRecovery(c.state));
        }
      }
    } else if RunsGroup(rule.body) {
      GroupFresh(m, exec, rule, s, turns);
    } else {
      OneFresh(m, exec, rule, s, turns);
    }
  }

  // -------------------------------------------------------------------- rules and engine

  /** No node is made but the one a recovering barrier returns. */
  ghost predicate KeptOrNode(s: State, r: Result, t: State) {
    if r.Failure? then t.created == s.created && s.nextID <= t.nextID
    else t.created == s.created + [s.nextID + 1] && t.nextID == s.nextID + 1 && ResultIds(r) == [s.nextID + 1]
  }

  lemma {:induction false} RecoveredFresh(m: Setup, rule: Rule, start: State, r: Result, s: State)
    requires r.Failure?
    ensures var (r', t) := Recovered(m, rule, start, r, s); KeptOrNode(s, r', t)
  {
    match Landing(m, s)
    case None =>
    case Some(n) =>
      var t := s.(cursor := Clamped(m, s) + n);
      var (r', u) := Landed(m, rule, t);
      if r'.Success? {
        assert ResultIds(r') == [s.nextID + 1] + IdsOfAll([]);
      }
  }

  lemma {:induction false} PoppedKeeps(s: State, commit: bool)
    ensures Pop(s, commit).created == s.created && Pop(s, commit).nextID == s.nextID
  {
  }

  lemma {:induction false} NotedKeeps(m: Setup, rule: Rule, start: State, pre: Lexeme, s: State)
    ensures var t := NoteUnexpected(m, rule, start, pre, s); t.created == s.created && t.nextID == s.nextID
  {
  }

  lemma {:induction false} RecoveredFrom(m: Setup, rule: Rule, start: State, r: Result, s: State, t: State)
    requires r.Failure? && t.created == s.created && t.nextID == s.nextID
    ensures var (r', u) := Recovered(m, rule, start, r, t); KeptOrNode(s, r', u)
  {
    RecoveredFresh(m, rule, start, r, t);
  }

  lemma {:induction false} HandledFresh(m: Setup, rule: Rule, mode: Mode, start: State, pre: Lexeme, r: Result, s: State)
    requires r.Failure?
    ensures var (r', t) := HandleFailure(m, rule, mode, start, pre, r, s); KeptOrNode(s, r', t)
  {
    if mode.Probe? || r.kind.FailureNoMatch? {
      PoppedKeeps(s.(cursor := start.cursor), false);
    } else if !r.consumeSyncToken && s.cursor != start.cursor {
      PoppedKeeps(s, true);
    } else {
      var noted := NoteUnexpected(m, rule, start, pre, s);
      NotedKeeps(m, rule, start, pre, s);
      PoppedKeeps(noted, true);
      RecoveredFrom(m, rule, start, r, s, Pop(noted, true));
    }
  }

  lemma {:induction false} TakenBack(m: Setup, s: State, cut: State, u: State, r: Result)
    requires LedgerOk(s) && cut.created == s.created && s.nextID <= cut.nextID && Ready(m, u) && KeptOrNode(cut, r, u)
    ensures Onward(m, s, u) && Fresh(ResultIds(r), s.nextID, u)
  {
    if r.Success? {
      assert u.created[|s.created|] == cut.nextID + 1;
    }
  }

  lemma {:induction false} FailureFresh(m: Setup, exec: Exec, rule: Rule, mode: Mode, s: State, turns: nat, c: Outcome)
    requires Transactional(m, exec) && Starting(m, exec, s)
    requires c == RunBody(m, exec, rule, Enter(m, rule, mode, s), turns) && c.Done? && c.result.Failure?
    ensures var (r, u) := HandleFailure(m, rule, mode, s, Peek(m, s), c.result, Truncated(c.state, |s.created|));
            FreshOut(m, s.nextID, s, Done(r, Leave(m, rule, mode, u)))
  {
    var e := Enter(m, rule, mode, s);
    EnterInScope(m, rule, mode, s);
    BodyMoves(m, exec, rule, e, turns);
    BodyInside(m, rule, mode, s, c.state);
    var cut := Truncated(c.state, |s.created|);
    HandleFailureOk(m, rule, mode, s, c.result, cut);
    HandledFresh(m, rule, mode, s, Peek(m, s), c.result, cut);
    var (r, u) := HandleFailure(m, rule, mode, s, Peek(m, s), c.result, cut);
    TakenBack(m, s, cut, Leave(m, rule, mode, u), r);
  }

  lemma {:induction false} EnvelopeFresh(m: Setup, exec: Exec, rule: Rule, mode: Mode, s: State, turns: nat)
    requires Transactional(m, exec) && Starting(m, exec, s)
    ensures FreshOut(m, s.nextID, s, RunEnvelope(m, exec, rule, mode, s, turns))
  {
    var e := Enter(m, rule, mode, s);
    SameLedger(m, s, e);
    BodyFresh(m, exec, rule, e, turns);
    var c := RunBody(m, exec, rule, e, turns);
    if c.Done? {
      if c.result.Success? {
        var left := Leave(m, rule, mode, Pop(c.state, true));
        OnwardTrans(m, s, e, c.state);
        SameLedger(m, c.state, left);
        OnwardTrans(m, s, c.state, left);
        FreshLater(m, ResultIds(c.result), s.nextID, c.state, left);
      } else {
        FailureFresh(m, exec, rule, mode, s, turns, c);
      }
    }
  }

  lemma {:induction false} FreshIsKept(m: Setup, exec: Exec, p: (Rule, Mode, State, Outcome) -> bool)
    requires forall rule, mode, s, o :: p(rule, mode, s, o) <==> (Ready(m, s) && LedgerOk(s) ==> FreshOut(m, s.nextID, s, o))
    ensures EnvelopeKeeps(m, exec, p)
  {
    if Transactional(m, exec) && AllRuns(exec, p) {
      forall rule, mode, s ensures RunsFresh(m, exec, rule, mode, s) {
        assert p(rule, mode, s, exec(rule, mode, s));
      }
      forall rule, mode, s, turns ensures p(rule, mode, s, RunEnvelope(m, exec, rule, mode, s, turns)) {
        if Ready(m, s) && LedgerOk(s) {
          EnvelopeFresh(m, exec, rule, mode, s, turns);
        }
      }
    }
  }

  /**
   For every rule, mode, state and fuel: the ledger stays in order, and each node of the result
   was handed out during the run, stands on the ledger, and occurs in the tree once.
   */
  lemma {:induction false} NodesAreFresh(m: Setup, rule: Rule, mode: Mode, s: State, fuel: nat)
    requires Ready(m, s) && LedgerOk(s)
    ensures FreshOut(m, s.nextID, s, ExecuteRule(m, rule, mode, s, fuel))
  {
    var p := (r: Rule, md: Mode, st: State, o: Outcome) => Ready(m, st) && LedgerOk(st) ==> FreshOut(m, st.nextID, st, o);
    forall exec {
      FreshIsKept(m, exec, p);
    }
    EngineInduction(m, p, fuel);
    assert p(rule, mode, s, EngineAt(m, fuel)(rule, mode, s));
  }

  /**
   So the ledger can be cut where a rule began: a tree on the ledger before the rule and a tree
   the rule returns share no node, and all nodes of the one lie before the mark and all of the
   other behind it.
   */
  lemma {:induction false} CutKeepsApart(m: Setup, rule: Rule, mode: Mode, s: State, fuel: nat, earlier: Tree, lo: nat)
    requires Ready(m, s) && LedgerOk(s) && Fresh(Ids(earlier), lo, s)
    ensures var o := ExecuteRule(m, rule, mode, s, fuel);
            o.Done? ==>
              && s.created <= o.state.created
              && (forall id :: id in Ids(earlier) ==> id in o.state.created[..|s.created|])
              && (forall id :: id in ResultIds(o.result) ==> id in o.state.created[|s.created|..] && id !in Ids(earlier))
  {
    NodesAreFresh(m, rule, mode, s, fuel);
    var o := ExecuteRule(m, rule, mode, s, fuel);
    if o.Done? {
      ApartAtMark(m, s, o.state, Ids(earlier), ResultIds(o.result), lo);
    }
  }

  lemma {:induction false} ApartAtMark(m: Setup, s: State, t: State, a: seq<nat>, b: seq<nat>, lo: nat)
    requires LedgerOk(s) && Onward(m, s, t) && Fresh(a, lo, s) && Fresh(b, s.nextID, t)
    ensures forall id :: id in a ==> id in t.created[..|s.created|]
    ensures forall id :: id in b ==> id in t.created[|s.created|..] && id !in a
  {
    assert t.created == s.created + t.created[|s.created|..];
    forall id | id in b ensures id !in s.created && id in t.created[|s.created|..] {
      assert id in t.created;
    }
  }
}
