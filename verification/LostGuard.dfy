/**
 A run on which a guard is lost across a nest: every arm entered held its guard, every token
 was taken under guard, and still the guard of the terminal behind the nest fails, because it
 asks for the token after the opening bracket where the token after the nest is.
 */
module LostGuard {
  import opened Languages
  import opened Grammars
  import opened Semantics
  import opened Guards
  import opened Terminals
  import opened Lookaheads
  import opened Advance
  import opened GuardRuns
  import opened GuardConjunction
  import S = StateGraph

  function At(path: Path, id: Label): NodeInfo {
    NodeInfo(Some(path), id, [], false)
  }

  /** A bracketed token in a choice arm that also looks at the token after the bracket, and a token behind it. */
  const INSIDE: Grammar := GToken(At([0, 0, 0, 0], "inside"), 2)
  const CLOSE: Grammar := S.CloseNode(3)
  const ARM: Grammar := GNest(NodeInfo(Some([0, 0, 0]), "arm", [Lookahead(1, 2)], false), 1, 3, INSIDE)
  const CHOICE: Grammar := GChoice(At([0, 0], "choice"), [ARM])
  const BEHIND: Grammar := GToken(At([0, 1], "behind"), 4)
  const LOST: Grammar := GConcat(At([0], "lost"), [CHOICE, BEHIND])

  /** The package of that one rule, with its analysis. */
  const KNOWN: Env := Env(map["lost" := LOST], Some(Analysis(
    map[[0] := false, [0, 0] := false, [0, 0, 0] := false, [0, 0, 0, 0] := false, [0, 1] := false],
    map[[0] := {1}, [0, 0] := {1}, [0, 0, 0] := {1}, [0, 0, 0, 0] := {2}, [0, 1] := {4}],
    map[[0, 0, 0] := GuardedArm({1}, [Lookahead(1, 2)])])))

  /** The analysis knows the node, and that it cannot be empty. */
  predicate NotEmpty(env: Env, g: Grammar) {
    env.analysis.Some? && g.info.path.Some? && !AnalysisNullable(env.analysis.value, g.info.path.value)
  }

  /** What the lowering asks of the analysis. */
  predicate Knows(env: Env) {
    && NotEmpty(env, INSIDE) && NotEmpty(env, ARM) && NotEmpty(env, CHOICE) && NotEmpty(env, BEHIND) && NotEmpty(env, LOST)
    && ArmFirst(env, INSIDE).None? && ArmFirst(env, CHOICE).None? && ArmFirst(env, BEHIND).None? && ArmFirst(env, LOST).None?
    && ArmFirst(env, ARM) == Some({1}) && ArmGuard(env, ARM) == [Lookahead(1, 2)]
  }

  function Counting(): Stream {
    (n: nat) => n + 1
  }

  function Bare(token: Token, remaining: seq<Grammar>, popOffset: nat, guard: Guard): Terminal {
    Terminal(token, remaining, [], None, popOffset, guard)
  }

  lemma {:induction false} ShiftedArm()
    ensures Shift([Lookahead(1, 2)], 1) == [Lookahead(0, 2)]
    ensures Normalize([Lookahead(1, 2)]) == [Lookahead(1, 2)] && Normalize([Lookahead(0, 2)]) == [Lookahead(0, 2)]
  {
    SortedUnique(Normalize([Lookahead(1, 2)]), [Lookahead(1, 2)]);
    SortedUnique(Normalize([Lookahead(0, 2)]), [Lookahead(0, 2)]);
    assert ShiftRaw([Lookahead(1, 2)], 1) == [Lookahead(0, 2)];
  }

  /** A token the rule holds, or the closing bracket the graph builder adds. */
  predicate Leaf(g: Grammar) {
    g == INSIDE || g == CLOSE || g == BEHIND
  }

  lemma {:induction false} TokenTerms(env: Env, g: Grammar, visiting: set<Label>)
    requires Knows(env)
    requires Leaf(g)
    ensures LookaheadNode(env, g, visiting) == Found([Bare(g.token, [], 0, [])], false)
    ensures LookaheadConcat(env, [g], visiting) == Found([Bare(g.token, [], 0, [])], false)
    ensures NodeArms(env, g, visiting) == [[]]
    ensures ConcatArms(env, [g], visiting) == [[]]
  {
    var ts := [Bare(g.token, [], 0, [])];
    EncloseNone(ts);
    assert [g][1..] == [];
    assert ExtendAll(ts, []) == ts by {
      assert ts[0].remaining + [] == ts[0].remaining;
    }
  }

  const NESTED: Terminal := Terminal(1, [BEHIND], [], Some(ARM), 0, [Lookahead(1, 2)])

  lemma {:induction false} ArmNode(env: Env, visiting: set<Label>)
    requires Knows(env)
    ensures LookaheadNode(env, ARM, visiting) == Found([NESTED.(remaining := [], guard := [])], false)
    ensures NodeArms(env, ARM, visiting) == [[]]
  {
    EncloseNone([Terminal(1, [], [], Some(ARM), 0, [])]);
  }

  lemma {:induction false} ArmGuarded(env: Env)
    requires Knows(env)
    ensures FilterArm(env, ARM, [NESTED.(remaining := [], guard := [])]) == [NESTED.(remaining := [], guard := [])]
    ensures GuardArm(env, ARM, [NESTED.(remaining := [], guard := [])]) == [NESTED.(remaining := [])]
  {
    var ts := [NESTED.(remaining := [], guard := [])];
    ShiftedArm();
    assert FilterByFirst(ts, {1}) == ts by {
      assert ts[1..] == [];
    }
    assert GuardAll(ts, [Lookahead(1, 2)]) == [NESTED.(remaining := [])];
  }

  lemma {:induction false} ArmTerms(env: Env, visiting: set<Label>)
    requires Knows(env)
    ensures LookaheadArm(env, ARM, visiting) == Found([NESTED.(remaining := [])], false)
    ensures ArmArms(env, ARM, visiting) == [[[Lookahead(1, 2)]]]
  {
    ArmNode(env, visiting);
    ArmGuarded(env);
    var none: seq<seq<Guard>> := [[]];
    assert KeepArms([NESTED.(remaining := [], guard := [])], none, {1}) == none by {
      assert none[1..] == [];
    }
    assert EnterAll(none, [Lookahead(1, 2)])[0] == [] + [[Lookahead(1, 2)]] == [[Lookahead(1, 2)]];
  }

  lemma {:induction false} ChoiceTerms(env: Env, visiting: set<Label>)
    requires Knows(env)
    ensures LookaheadNode(env, CHOICE, visiting) == Found([NESTED.(remaining := [])], false)
    ensures NodeArms(env, CHOICE, visiting) == [[[Lookahead(1, 2)]]]
  {
    ArmTerms(env, visiting);
    var ts := [NESTED.(remaining := [])];
    assert [ARM][1..] == [];
    assert LookaheadChoice(env, [ARM], visiting) == Found(ts, false) by {
      assert ts + [] == ts;
    }
    EncloseNone(ts);
  }

  lemma {:induction false} RootTerms(env: Env)
    requires Knows(env)
    ensures S.Root(env, LOST) == S.Ctx([NESTED], false)
    ensures NodeArms(env, LOST, {}) == [[[Lookahead(1, 2)]]]
  {
    var nodes := [CHOICE, BEHIND];
    ChoiceTerms(env, {});
    assert nodes[1..] == [BEHIND];
    assert ExtendAll([NESTED.(remaining := [])], [BEHIND]) == [NESTED] by {
      assert [] + [BEHIND] == [BEHIND];
    }
    assert LookaheadConcat(env, nodes, {}) == Found([NESTED], false);
    EncloseNone([NESTED]);
  }

  /** One token after another. */
  lemma {:induction false} AdvanceOne(env: Env, token: Token, next: Grammar, guard: Guard, popOffset: nat)
    requires Knows(env)
    requires Leaf(next)
    ensures var t := Bare(token, [next], popOffset, guard);
            && AdvanceTerminal(env, t) == Found([Bare(next.token, [], 0, Merge(Shift(guard, token), []))], false)
            && AdvanceArms(env, t) == [[]]
  {
    var t := Bare(token, [next], popOffset, guard);
    TokenTerms(env, next, {});
    assert Levels(t) == [Frame(None, "", [next])];
    assert Levels(t)[1..] == [];
    EncloseNone([Bare(next.token, [], 0, [])]);
  }

  lemma {:induction false} AdvanceNone(env: Env, token: Token, guard: Guard, popOffset: nat)
    requires Knows(env)
    ensures AdvanceTerminal(env, Bare(token, [], popOffset, guard)).terms == []
  {
    var t := Bare(token, [], popOffset, guard);
    assert Levels(t) == [Frame(None, "", [])] && Levels(t)[1..] == [];
    assert AdvanceLevels(env, [], Shift(guard, token)) == Found([], true);
    assert AdvanceLevels(env, Levels(t), Shift(guard, token)) == Found([], true);
  }

  lemma {:induction false} InsideTerms(env: Env)
    requires Knows(env)
    ensures S.ContentTerms(env, ARM) == [Bare(2, [CLOSE], 1, [])]
    ensures ContentArms(env, ARM) == [[]]
  {
    var nodes := [INSIDE, CLOSE];
    TokenTerms(env, INSIDE, {});
    assert nodes[1..] == [CLOSE];
    assert ExtendAll([Bare(2, [], 0, [])], nodes[1..]) == [Bare(2, [CLOSE], 0, [])] by {
      assert [] + nodes[1..] == nodes[1..];
    }
  }

  lemma {:induction false} TokenAnalyzed(env: Env, g: Grammar)
    requires Knows(env) && Leaf(g)
    ensures Analyzed(env, g) && Lang(Lowered, env.rules, g) == Single(g.token)
  {
    LangToken(Lowered, env.rules, g);
  }

  lemma {:induction false} StartsWith(a: Language, token: Token, first: Token)
    ensures [] !in Cat(Single(token), a)
    ensures Deriv(first, Cat(Single(token), a)) != Empty ==> first == token
  {
    if Deriv(first, Cat(Single(token), a)) != Empty {
      var w :| w in Deriv(first, Cat(Single(token), a));
      assert ([first] + w)[0] == first;
    }
  }

  lemma {:induction false} ArmAnalyzed(env: Env)
    requires Knows(env)
    ensures Analyzed(env, ARM) && [] !in Lang(Lowered, env.rules, ARM)
  {
    TokenAnalyzed(env, INSIDE);
    LangNest(Lowered, env.rules, ARM);
    var l := Lang(Lowered, env.rules, ARM);
    forall t: Token | Deriv(t, l) != Empty ensures t == 1 {
      StartsWith(Cat(Single(2), Single(3)), 1, t);
    }
    StartsWith(Cat(Single(2), Single(3)), 1, 1);
    assert forall c :: c in ChildrenOf(ARM) ==> c == INSIDE;
  }

  /** The analysis of the rule is exact. */
  lemma {:induction false} LostAnalyzed(env: Env)
    requires Knows(env)
    ensures Analyzed(env, LOST)
  {
    ArmAnalyzed(env);
    TokenAnalyzed(env, BEHIND);
    LangChoice(Lowered, env.rules, CHOICE);
    LangConcat(Lowered, env.rules, LOST);
    assert forall c :: c in ChildrenOf(CHOICE) ==> c == ARM;
    assert forall c :: c in ChildrenOf(LOST) ==> c == CHOICE || c == BEHIND;
    assert [CHOICE, BEHIND][1..] == [BEHIND];
  }

  const WAITING: Terminal := Bare(4, [], 0, [Lookahead(0, 2)])
  const CLOSING: Terminal := Bare(3, [], 1, [])

  function Behind(past: seq<Entered>): Slot {
    Slot(S.Ctx([WAITING], false), past, [[]])
  }

  function Around(rest: seq<Slot>): seq<Slot> {
    [Slot(S.Wrapper(ARM), [], [])] + rest
  }

  /** The four stages: the bracket, the token inside it, the closing bracket, the token behind. */
  function Stages(past: seq<Entered>, inner: seq<Entered>): seq<Stage> {
    [Stage([Slot(S.Ctx([NESTED], false), [], [[[Lookahead(1, 2)]]])], 0),
     Stage([Slot(S.Content(ARM), [], [[]])] + Around([Behind(past)]), 0),
     Stage([Slot(S.Ctx([CLOSING], false), inner, [[]])] + Around([Behind(past)]), 0),
     Stage([Behind(past)], 0)]
  }

  lemma {:induction false} OpenStep(env: Env, st: Stage) returns (past: seq<Entered>)
    requires Knows(env)
    requires st == Stages([], [])[0]
    ensures LeadsTo(env, st, 0, Stages(past, [])[1].config)
  {
    past := Passed(EnteredAt(env, st, 0), 0);
    var t := NESTED.(nest := None);
    assert t == Bare(1, [BEHIND], 0, [Lookahead(1, 2)]);
    AdvanceOne(env, 1, BEHIND, [Lookahead(1, 2)], 0);
    ShiftedArm();
    InsideTerms(env);
    SetSlots(env, NESTED, past, []);
    assert OffsetAll([WAITING], 0) == [WAITING];
    assert st.config[1..] == [];
    assert NextSlots(env, NESTED, past) == [Behind(past)];
    assert InsideSlots(env, NESTED) + [Behind(past)] + [] == Stages(past, [])[1].config;
  }

  lemma {:induction false} InsideStep(env: Env, past: seq<Entered>) returns (inner: seq<Entered>)
    requires Knows(env)
    ensures LeadsTo(env, Stages(past, [])[1], 1, Stages(past, inner)[2].config)
  {
    inner := InsideTo(env, Around([Behind(past)]));
  }

  lemma {:induction false} InsideTo(env: Env, rest: seq<Slot>) returns (inner: seq<Entered>)
    requires Knows(env)
    ensures LeadsTo(env, Stage([Slot(S.Content(ARM), [], [[]])] + rest, 0), 1, [Slot(S.Ctx([CLOSING], false), inner, [[]])] + rest)
  {
    var st := Stage([Slot(S.Content(ARM), [], [[]])] + rest, 0);
    InsideTerms(env);
    var t := Bare(2, [CLOSE], 1, []);
    inner := Passed(EnteredAt(env, st, 1), 1);
    AdvanceOne(env, 2, CLOSE, [], 1);
    assert Merge(Shift([], 2), []) == [];
    assert st.config[1..] == rest;
    SetSlots(env, t, inner, rest);
    assert OffsetAll([Bare(3, [], 0, [])], 1) == [CLOSING];
  }

  lemma {:induction false} CloseStep(env: Env, past: seq<Entered>, inner: seq<Entered>)
    requires Knows(env)
    ensures LeadsTo(env, Stages(past, inner)[2], 2, Stages(past, inner)[3].config)
  {
    AdvanceNone(env, 3, [], 1);
    assert Stages(past, inner)[2].config[2..] == [Behind(past)];
  }

  const TAKEN: seq<Terminal> := [NESTED, Bare(2, [CLOSE], 1, []), CLOSING, WAITING]

  lemma {:induction false} LostTakes(env: Env, past: seq<Entered>, inner: seq<Entered>, k: nat)
    requires Knows(env)
    requires k < 4
    ensures StageOk(env, Stages(past, inner)[k]) && Taken(env, Stages(past, inner)[k]) == TAKEN[k]
    ensures Takes(env, Stages(past, inner)[k], Counting()(k))
  {
    InsideTerms(env);
  }

  lemma {:induction false} OneStage(env: Env, entry: Grammar, st: Stage, s: Stream)
    requires st.config == [RootSlot(env, entry)] && Takes(env, st, s(0))
    ensures IsRun(env, entry, [st], s)
  {
  }

  lemma {:induction false} OneMore(env: Env, entry: Grammar, run: seq<Stage>, s: Stream, last: Stage, st: Stage)
    requires IsRun(env, entry, run, s) && last == run[|run| - 1]
    requires Takes(env, st, s(|run|)) && LeadsTo(env, last, |run| - 1, st.config)
    ensures IsRun(env, entry, run + [st], s)
  {
    var more := run + [st];
    forall k | 0 < k < |more| ensures LeadsTo(env, more[k - 1], k - 1, more[k].config) {
      if k < |run| {
        RunTakes(env, entry, run, s, k);
      }
    }
  }

  lemma {:induction false} FourStages(env: Env, entry: Grammar, s: Stream, a: Stage, b: Stage, c: Stage, d: Stage)
    requires a.config == [RootSlot(env, entry)] && Takes(env, a, s(0)) && Takes(env, b, s(1)) && Takes(env, c, s(2)) && Takes(env, d, s(3))
    requires LeadsTo(env, a, 0, b.config) && LeadsTo(env, b, 1, c.config) && LeadsTo(env, c, 2, d.config)
    ensures IsRun(env, entry, [a, b, c, d], s)
  {
    OneStage(env, entry, a, s);
    OneMore(env, entry, [a], s, a, b);
    OneMore(env, entry, [a] + [b], s, b, c);
    OneMore(env, entry, [a] + [b] + [c], s, c, d);
    assert [a, b, c, d] == [a] + [b] + [c] + [d];
  }

  lemma {:induction false} LostRun(env: Env, past: seq<Entered>, inner: seq<Entered>, run: seq<Stage>)
    requires Knows(env)
    requires run == Stages(past, inner)
    requires LeadsTo(env, run[0], 0, run[1].config) && LeadsTo(env, run[1], 1, run[2].config)
    requires LeadsTo(env, run[2], 2, run[3].config)
    ensures IsRun(env, LOST, run, Counting())
  {
    RootTerms(env);
    LostTakes(env, past, inner, 0);
    LostTakes(env, past, inner, 1);
    LostTakes(env, past, inner, 2);
    LostTakes(env, past, inner, 3);
    FourStages(env, LOST, Counting(), run[0], run[1], run[2], run[3]);
    assert run == [run[0], run[1], run[2], run[3]];
  }

  lemma {:induction false} LostGuards(env: Env, past: seq<Entered>, inner: seq<Entered>, k: nat)
    requires Knows(env)
    requires k < 4
    ensures GuardHolds(env, Stages(past, inner)[k], Counting(), k) <==> k < 3
    ensures ArmsHold(env, Stages(past, inner)[k], Counting(), k)
  {
    LostTakes(env, past, inner, k);
    assert Holds(From(Counting(), 0), Lookahead(1, 2));
    assert !Holds(From(Counting(), 3), WAITING.guard[0]);
  }

  lemma {:induction false} LostAcross(env: Env) returns (run: seq<Stage>)
    requires Knows(env)
    ensures IsRun(env, LOST, run, Counting()) && |run| == 4
    ensures TakenUnderGuard(env, run, Counting(), 3)
    ensures forall j :: 0 <= j <= 3 ==> ArmsHold(env, run[j], Counting(), j)
    ensures !GuardHolds(env, run[3], Counting(), 3)
  {
    var past := OpenStep(env, Stages([], [])[0]);
    var inner := InsideStep(env, past);
    CloseStep(env, past, inner);
    run := Stages(past, inner);
    LostRun(env, past, inner, run);
    forall k | 0 <= k < 4
      ensures GuardHolds(env, run[k], Counting(), k) <==> k < 3
      ensures ArmsHold(env, run[k], Counting(), k)
    {
      LostGuards(env, past, inner, k);
    }
  }

  /**
   Every arm held and every token was taken under guard, and the guard behind the nest fails,
   in a package whose nodes are all addressed and whose analysis is exact.
   */
  lemma {:induction false} GuardLostAcrossNest() returns (run: seq<Stage>)
    ensures KNOWN.analysis.Some? && RulesAnalyzed(KNOWN) && Analyzed(KNOWN, LOST)
    ensures IsRun(KNOWN, LOST, run, Counting()) && |run| == 4
    ensures TakenUnderGuard(KNOWN, run, Counting(), 3)
    ensures forall j :: 0 <= j <= 3 ==> ArmsHold(KNOWN, run[j], Counting(), j)
    ensures !GuardHolds(KNOWN, run[3], Counting(), 3)
  {
    LostAnalyzed(KNOWN);
    run := LostAcross(KNOWN);
  }
}
