/**
 When the guard of the next terminal of a run holds. As long as every token was taken while
 its terminal's guard held, that is exactly when all arms entered so far held their guards
 where they were entered, except for what a guard still asks for across a nest: the code
 shifts a pending guard by the opening bracket only, and that loses the place.
 */
module GuardConjunction {
  import opened Languages
  import opened Grammars
  import opened Guards
  import opened Terminals
  import opened Advance
  import opened GuardRuns
  import S = StateGraph

  // ----------------------------------------------------------- shifting across a nest

  /** The opening token alone is all that the guard asks for. */
  predicate Spent(g: Guard, consumed: Token) {
    forall l :: l in g ==> l.offset == 0 && l.expected == consumed
  }

  lemma SpentLeavesNothing(g: Guard, consumed: Token)
    requires Spent(g, consumed)
    ensures Shift(g, consumed) == []
  {
    if Shift(g, consumed) != [] {
      ShiftContents(g, consumed, Shift(g, consumed)[0]);
    }
  }

  /** A shifted guard that is not spent asks for something. */
  lemma UnspentLeavesSome(g: Guard, consumed: Token) returns (l: Lookahead)
    requires !Spent(g, consumed)
    ensures l in g && (l.offset > 0 || l.expected != consumed)
    ensures var x := if l.offset > 0 then Lookahead(l.offset - 1, l.expected) else l; x in Shift(g, consumed)
  {
    l :| l in g && !(l.offset == 0 && l.expected == consumed);
    ShiftContents(g, consumed, if l.offset > 0 then Lookahead(l.offset - 1, l.expected) else l);
  }

  /** A constraint at the largest offset. */
  lemma {:induction false} Furthest(g: Guard) returns (top: Lookahead)
    requires g != []
    ensures top in g && forall l :: l in g ==> l.offset <= top.offset
    decreases |g|
  {
    top := g[0];
    if |g| > 1 {
      var t := Furthest(g[1..]);
      assert g == [g[0]] + g[1..];
      if t.offset > top.offset {
        top := t;
      }
    }
  }

  /** Shifting by the opening token and looking n tokens later agree on every stream that starts with it. */
  ghost predicate NestShiftKeeps(g: Guard, open: Token, n: nat) {
    forall p: Stream :: p(0) == open ==> (Matches(p, g) <==> Matches(From(p, n), Shift(g, open)))
  }

  /** Whatever a satisfied guard still asks for after its first token, it asked for one token later. */
  lemma ShiftAsks(g: Guard, open: Token, p: Stream, x: Lookahead)
    requires x in Shift(g, open) && p(0) == open && Matches(p, g)
    ensures p(x.offset + 1) == x.expected
  {
    ShiftContents(g, open, x);
    MatchesBySet(p, g);
    var later := Lookahead(x.offset + 1, x.expected);
    assert later in g ==> Holds(p, later);
    assert x in g ==> Holds(p, x);
  }

  lemma AskedConsistent(h: Guard, p: Stream)
    requires forall x :: x in h ==> p(x.offset + 1) == x.expected
    ensures !Contradictory(h)
  {
  }

  lemma NeverBoth(g: Guard, open: Token, p: Stream)
    requires Contradictory(Shift(g, open)) && p(0) == open
    ensures !Matches(p, g)
  {
    if Matches(p, g) {
      forall x | x in Shift(g, open) ensures p(x.offset + 1) == x.expected {
        ShiftAsks(g, open, p, x);
      }
      AskedConsistent(Shift(g, open), p);
    }
  }

  /** An unmet constraint on the opening token fails before the nest and may hold after it. */
  lemma UnmetDiffers(g: Guard, open: Token, n: nat, bad: Lookahead) returns (p: Stream)
    requires n > 0 && bad in g && bad.offset == 0 && bad.expected != open && !Contradictory(Shift(g, open))
    ensures p(0) == open && !Matches(p, g) && Matches(From(p, n), Shift(g, open))
  {
    var rest := Shift(g, open);
    var q := Witness(rest, open);
    WitnessMatches(rest, open);
    p := (i: nat) => if i < n then open else q(i - n);
    MatchesBySet(p, g);
    assert !Holds(p, bad);
    forall i | 0 <= i < |rest| ensures Holds(From(p, n), rest[i]) {
      assert Holds(q, rest[i]);
    }
  }

  /** The stream that a guard met by the opening token asks for, with a filler everywhere else. */
  lemma MetWitness(g: Guard, open: Token, filler: Token) returns (p: Stream)
    requires MeetsCurrent(g, open) && !Contradictory(Shift(g, open))
    ensures p(0) == open && Matches(p, g)
    ensures forall i: nat :: i > 0 && (forall l :: l in g ==> l.offset != i) ==> p(i) == filler
  {
    assert !Contradictory(g) by {
      forall a, b | a in g && b in g && a.offset == b.offset ensures a.expected == b.expected {
        if a.offset > 0 {
          ShiftContents(g, open, Lookahead(a.offset - 1, a.expected));
          ShiftContents(g, open, Lookahead(b.offset - 1, b.expected));
        }
      }
    }
    var q := Witness(g, filler);
    WitnessMatches(g, filler);
    p := (i: nat) => if i == 0 then open else q(i);
    forall i | 0 <= i < |g| ensures Holds(p, g[i]) {
      assert Holds(q, g[i]);
      assert g[i] in g;
    }
  }

  /** A constraint past the opening token is looked for n - 1 tokens too late. */
  lemma LateDiffers(g: Guard, open: Token, n: nat) returns (p: Stream)
    requires n >= 2 && MeetsCurrent(g, open) && !Spent(g, open) && !Contradictory(Shift(g, open))
    ensures p(0) == open && Matches(p, g) && !Matches(From(p, n), Shift(g, open))
  {
    var some := UnspentLeavesSome(g, open);
    var top := Furthest(g);
    var x := Lookahead(top.offset - 1, top.expected);
    ShiftContents(g, open, x);
    p := MetWitness(g, open, top.expected + 1);
    MatchesBySet(From(p, n), Shift(g, open));
    assert p(n + x.offset) == top.expected + 1;
    assert !Holds(From(p, n), x);
  }

  /**
   Across a nest of n tokens, shifting a guard by its opening token keeps the guard's meaning
   exactly when the opening token is all it asks for, or nothing can satisfy it.
   */
  lemma NestShiftExact(g: Guard, open: Token, n: nat)
    requires n >= 2
    ensures NestShiftKeeps(g, open, n) <==> Spent(g, open) || Contradictory(Shift(g, open))
  {
    if Contradictory(Shift(g, open)) {
      forall p: Stream | p(0) == open ensures !Matches(p, g) && !Matches(From(p, n), Shift(g, open)) {
        NeverBoth(g, open, p);
        ContradictoryNeverMatches(From(p, n), Shift(g, open));
      }
    } else if Spent(g, open) {
      SpentLeavesNothing(g, open);
      forall p: Stream | p(0) == open ensures Matches(p, g) && Matches(From(p, n), Shift(g, open)) {
        MatchesBySet(p, g);
      }
    } else if MeetsCurrent(g, open) {
      var p := LateDiffers(g, open, n);
    } else {
      var bad :| bad in g && bad.offset == 0 && bad.expected != open;
      var p := UnmetDiffers(g, open, n, bad);
    }
  }

  // ------------------------------------------------------------ guards held at entry

  ghost predicate HeldAtEntry(s: Stream, e: Entered) {
    Matches(From(s, e.at), e.guard)
  }

  ghost predicate AllHeld(s: Stream, es: seq<Entered>) {
    forall i :: 0 <= i < |es| ==> HeldAtEntry(s, es[i])
  }

  ghost predicate ConfigHeld(s: Stream, config: seq<Slot>) {
    forall i :: 0 <= i < |config| ==> AllHeld(s, config[i].past)
  }

  /** The guard has been shifted at every token since its arm was entered: no nest was crossed. */
  ghost predicate Intact(e: Entered, k: nat) {
    e.at + |e.seen| == k && forall i :: 0 <= i < |e.seen| ==> e.seen[i] == e.at + i
  }

  lemma SameStream(p: Stream, q: Stream, g: Guard)
    requires forall n: nat :: p(n) == q(n)
    ensures Matches(p, g) <==> Matches(q, g)
  {
    forall i | 0 <= i < |g| ensures Holds(p, g[i]) <==> Holds(q, g[i]) {
      assert p(g[i].offset) == q(g[i].offset);
    }
  }

  lemma ShiftKept(s: Stream, k: nat, g: Guard)
    requires Matches(From(s, k), g)
    ensures Matches(From(s, k + 1), Shift(g, s(k)))
  {
    var p := From(s, k);
    MatchesBySet(p, g);
    assert MeetsCurrent(g, p(0)) by {
      forall l | l in g && l.offset == 0 ensures l.expected == p(0) {
        assert Holds(p, l);
      }
    }
    ShiftHolds(p, g);
    SameStream(Advanced(p), From(s, k + 1), Shift(g, p(0)));
  }

  /** Once a guard has held where it was entered, what is left of it holds as long as no nest is crossed. */
  lemma {:induction false} IntactHolds(s: Stream, e: Entered, k: nat)
    requires Intact(e, k) && HeldAtEntry(s, e)
    ensures Matches(From(s, k), Pending(s, e))
    decreases |e.seen|
  {
    if e.seen != [] {
      var before := e.(seen := e.seen[..|e.seen| - 1]);
      IntactHolds(s, before, k - 1);
      ShiftKept(s, k - 1, Pending(s, before));
    }
  }

  /** What is left of the entered guards holds at position k. */
  ghost predicate LeftHolds(s: Stream, es: seq<Entered>, k: nat) {
    forall i :: 0 <= i < |es| ==> Matches(From(s, k), Pending(s, es[i]))
  }

  lemma SumMatches(g: Guard, s: Stream, es: seq<Entered>, k: nat)
    requires PendingSum(g, s, es)
    ensures Matches(From(s, k), g) <==> LeftHolds(s, es, k)
  {
    var p := From(s, k);
    MatchesBySet(p, g);
    forall i | 0 <= i < |es|
      ensures Matches(p, Pending(s, es[i])) <==> forall x :: x in Pending(s, es[i]) ==> Holds(p, x)
    {
      MatchesBySet(p, Pending(s, es[i]));
    }
    if Matches(p, g) {
      forall i | 0 <= i < |es| ensures Matches(p, Pending(s, es[i])) {
        forall x | x in Pending(s, es[i]) ensures Holds(p, x) {
          assert LeftOver(x, s, es);
        }
      }
    }
  }

  lemma LeftSplits(s: Stream, past: seq<Entered>, arms: seq<Guard>, k: nat)
    ensures LeftHolds(s, past + Mark(arms, k), k) <==>
            LeftHolds(s, past, k) && forall i :: 0 <= i < |arms| ==> Matches(From(s, k), arms[i])
  {
    var es := past + Mark(arms, k);
    forall i | 0 <= i < |arms| ensures Pending(s, es[|past| + i]) == arms[i] {
    }
    forall i | 0 <= i < |past| ensures es[i] == past[i] {
    }
  }

  /** The stage's terminal is taken at position k while its guard holds. */
  ghost predicate GuardHolds(env: Env, st: Stage, s: Stream, k: nat) {
    StageOk(env, st) && Matches(From(s, k), Taken(env, st).guard)
  }

  /** The arms entered for the stage's terminal hold their guards at position k. */
  ghost predicate ArmsHold(env: Env, st: Stage, s: Stream, k: nat) {
    StageOk(env, st) && forall i :: 0 <= i < |st.config[0].arms[st.pick]| ==> Matches(From(s, k), st.config[0].arms[st.pick][i])
  }

  ghost predicate TakenUnderGuard(env: Env, run: seq<Stage>, s: Stream, k: nat)
    requires k <= |run|
  {
    forall j :: 0 <= j < k ==> GuardHolds(env, run[j], s, j)
  }

  /** What a guard still asks for across a nest. */
  ghost predicate CrossedHold(env: Env, st: Stage, s: Stream, k: nat)
    requires StageOk(env, st)
  {
    forall i :: 0 <= i < |st.config[0].past| && !Intact(st.config[0].past[i], k) ==>
                  Matches(From(s, k), Pending(s, st.config[0].past[i]))
  }

  /** The guard of a stage's terminal, arm by arm. */
  lemma GuardByArms(env: Env, st: Stage, s: Stream, k: nat)
    requires StageOk(env, st) && PendingSum(Taken(env, st).guard, s, EnteredAt(env, st, k))
    ensures GuardHolds(env, st, s, k) <==> ArmsHold(env, st, s, k) && LeftHolds(s, st.config[0].past, k)
  {
    SumMatches(Taken(env, st).guard, s, EnteredAt(env, st, k), k);
    LeftSplits(s, st.config[0].past, st.config[0].arms[st.pick], k);
  }

  lemma StageHeld(env: Env, st: Stage, s: Stream, k: nat)
    requires StageOk(env, st) && ArmsHold(env, st, s, k) && AllHeld(s, st.config[0].past)
    ensures AllHeld(s, Passed(EnteredAt(env, st, k), k))
  {
    var past, arms := st.config[0].past, st.config[0].arms[st.pick];
    var es := Passed(EnteredAt(env, st, k), k);
    forall i | 0 <= i < |es| ensures HeldAtEntry(s, es[i]) {
      if i < |past| {
        assert HeldAtEntry(s, past[i]) && es[i].at == past[i].at && es[i].guard == past[i].guard;
      } else {
        assert es[i].at == k && es[i].guard == arms[i - |past|];
      }
    }
  }

  /** The inside of the nest a terminal opens, if it opens one. */
  function InsideSlots(env: Env, term: Terminal): seq<Slot> {
    if term.nest.None? then []
    else [Slot(S.Content(term.nest.value), [], ContentArms(env, term.nest.value)), Slot(S.Wrapper(term.nest.value), [], [])]
  }

  /** The continuation of a terminal, if anything can follow it. */
  function NextSlots(env: Env, term: Terminal, passed: seq<Entered>): seq<Slot> {
    var adv := AdvanceTerminal(env, term.(nest := None));
    if adv.terms == [] then []
    else [Slot(S.NextContext(adv, term.popOffset), passed, AdvanceArms(env, term.(nest := None)))]
  }

  lemma {:induction false} EnterOne(env: Env, c: S.Context, before: Terminal, passed: seq<Entered>, config: seq<Slot>)
    ensures EnterSlots(env, [c], before, passed, config) == SlotsFor(env, c, before, passed) + config
  {
    assert [c][1..] == [];
  }

  lemma {:induction false} EnterTwo(env: Env, c: S.Context, d: S.Context, before: Terminal, passed: seq<Entered>, config: seq<Slot>)
    ensures EnterSlots(env, [c, d], before, passed, config)
            == SlotsFor(env, d, before, passed) + SlotsFor(env, c, before, passed) + config
  {
    assert [c, d][1..] == [d];
    EnterOne(env, d, before, passed, SlotsFor(env, c, before, passed) + config);
    Joined(SlotsFor(env, d, before, passed), SlotsFor(env, c, before, passed), config);
  }

  lemma Joined(a: seq<Slot>, b: seq<Slot>, c: seq<Slot>)
    ensures a + (b + c) == a + b + c
  {
  }

  /** A terminal that ends its context pops it; any other is replaced by what it leads to. */
  predicate Ends(env: Env, term: Terminal) {
    term.nest.None? && AdvanceTerminal(env, term.(nest := None)).terms == []
  }

  lemma {:induction false} SetSlots(env: Env, term: Terminal, passed: seq<Entered>, config: seq<Slot>)
    requires !Ends(env, term)
    ensures EnterSlots(env, S.BuildTransition(env, term).targets, term, passed, config)
            == InsideSlots(env, term) + NextSlots(env, term, passed) + config
  {
    var adv := AdvanceTerminal(env, term.(nest := None));
    var c := S.NextContext(adv, term.popOffset);
    if term.nest.None? {
      EnterOne(env, c, term, passed, config);
      assert [] + NextSlots(env, term, passed) == NextSlots(env, term, passed);
    } else if adv.terms == [] {
      EnterOne(env, S.Wrapper(term.nest.value), term, passed, config);
      assert InsideSlots(env, term) + [] == InsideSlots(env, term);
    } else {
      EnterTwo(env, c, S.Wrapper(term.nest.value), term, passed, config);
    }
  }

  /** The configuration a transition leaves, spelled out. */
  lemma AfterShape(env: Env, st: Stage, k: nat, next: seq<Slot>)
    requires LeadsTo(env, st, k, next)
    ensures var term := Taken(env, st);
            if Ends(env, term) then 1 + term.popOffset <= |st.config| && next == st.config[1 + term.popOffset..]
            else next == InsideSlots(env, term) + NextSlots(env, term, Passed(EnteredAt(env, st, k), k)) + st.config[1..]
  {
    var term := Taken(env, st);
    if !Ends(env, term) {
      SetSlots(env, term, Passed(EnteredAt(env, st, k), k), st.config[1..]);
    }
  }

  lemma HeldAppend(s: Stream, a: seq<Slot>, b: seq<Slot>)
    requires ConfigHeld(s, a) && ConfigHeld(s, b)
    ensures ConfigHeld(s, a + b)
  {
  }

  lemma HeldDrop(s: Stream, config: seq<Slot>, n: nat)
    requires ConfigHeld(s, config) && n <= |config|
    ensures ConfigHeld(s, config[n..])
  {
    forall i | 0 <= i < |config| - n ensures AllHeld(s, config[n..][i].past) {
      assert config[n..][i] == config[n + i];
    }
  }

  lemma StepHeld(env: Env, st: Stage, s: Stream, k: nat, next: seq<Slot>)
    requires LeadsTo(env, st, k, next) && ConfigHeld(s, st.config) && ArmsHold(env, st, s, k)
    ensures ConfigHeld(s, next)
  {
    var passed := Passed(EnteredAt(env, st, k), k);
    assert AllHeld(s, st.config[0].past);
    StageHeld(env, st, s, k);
    AfterShape(env, st, k, next);
    if Ends(env, Taken(env, st)) {
      HeldDrop(s, st.config, 1 + Taken(env, st).popOffset);
    } else {
      var inside, more := InsideSlots(env, Taken(env, st)), NextSlots(env, Taken(env, st), passed);
      assert AllHeld(s, []);
      HeldDrop(s, st.config, 1);
      HeldAppend(s, inside, more);
      HeldAppend(s, inside + more, st.config[1..]);
    }
  }

  /** Arms entered before a token that was taken under guard held where they were entered. */
  lemma {:induction false} EarlierHeld(env: Env, entry: Grammar, run: seq<Stage>, s: Stream, k: nat)
    requires IsRun(env, entry, run, s) && k < |run| && TakenUnderGuard(env, run, s, k)
    ensures ConfigHeld(s, run[k].config)
    ensures forall j :: 0 <= j < k ==> ArmsHold(env, run[j], s, j)
    decreases k
  {
    if k == 0 {
      RunStarts(env, entry, run, s);
    } else {
      EarlierHeld(env, entry, run, s, k - 1);
      RunTakes(env, entry, run, s, k);
      RunSum(env, entry, run, s, k - 1);
      assert GuardHolds(env, run[k - 1], s, k - 1);
      GuardByArms(env, run[k - 1], s, k - 1);
      StepHeld(env, run[k - 1], s, k - 1, run[k].config);
    }
  }

  /**
   Along a run whose tokens were each taken while their terminal's guard held, through nests
   and out of them, the guard of the next terminal holds exactly when every arm entered so far
   held its guard where it was entered and what guards still ask for across a nest holds here.
   */
  lemma RunGuardIsConjunction(env: Env, entry: Grammar, run: seq<Stage>, s: Stream, k: nat)
    requires IsRun(env, entry, run, s) && k < |run| && TakenUnderGuard(env, run, s, k)
    ensures GuardHolds(env, run[k], s, k) <==>
            (forall j :: 0 <= j <= k ==> ArmsHold(env, run[j], s, j)) && CrossedHold(env, run[k], s, k)
  {
    EarlierHeld(env, entry, run, s, k);
    RunTakes(env, entry, run, s, k);
    RunSum(env, entry, run, s, k);
    GuardByArms(env, run[k], s, k);
    var past := run[k].config[0].past;
    forall i | 0 <= i < |past| && Intact(past[i], k) ensures Matches(From(s, k), Pending(s, past[i])) {
      assert AllHeld(s, run[k].config[0].past);
      IntactHolds(s, past[i], k);
    }
  }

  // --------------------------------------------------- runs that leave nothing pending

  /** Wherever the run enters a nest, the opening token is all that the pending guard asks for. */
  ghost predicate NestSpent(env: Env, st: Stage) {
    StageOk(env, st) && (Taken(env, st).nest.Some? ==> Spent(Taken(env, st).guard, Taken(env, st).token))
  }

  ghost predicate NestsSpent(env: Env, run: seq<Stage>, k: nat)
    requires k <= |run|
  {
    forall j :: 0 <= j < k ==> NestSpent(env, run[j])
  }

  ghost predicate Settled(s: Stream, es: seq<Entered>) {
    forall i :: 0 <= i < |es| ==> Pending(s, es[i]) == []
  }

  ghost predicate SettledOrIntact(s: Stream, es: seq<Entered>, k: nat) {
    forall i :: 0 <= i < |es| ==> Pending(s, es[i]) == [] || Intact(es[i], k)
  }

  /** Below the top nothing is pending; on top whatever is pending was never carried across a nest. */
  ghost predicate Tidy(s: Stream, config: seq<Slot>, k: nat) {
    && (config != [] ==> SettledOrIntact(s, config[0].past, k))
    && forall i :: 1 <= i < |config| ==> Settled(s, config[i].past)
  }

  lemma {:induction false} PassOne(s: Stream, e: Entered, k: nat)
    requires Pending(s, e) == [] || Intact(e, k)
    ensures var e' := e.(seen := e.seen + [k]); Pending(s, e') == [] || Intact(e', k + 1)
  {
    if Pending(s, e) == [] {
      PendingPassed(s, e, k);
      SpentLeavesNothing([], s(k));
    }
  }

  lemma PassedTidy(env: Env, st: Stage, s: Stream, k: nat)
    requires StageOk(env, st) && SettledOrIntact(s, st.config[0].past, k)
    ensures SettledOrIntact(s, Passed(EnteredAt(env, st, k), k), k + 1)
  {
    var es := EnteredAt(env, st, k);
    forall i | 0 <= i < |es| ensures var e := Passed(es, k)[i]; Pending(s, e) == [] || Intact(e, k + 1) {
      assert i >= |st.config[0].past| ==> Intact(es[i], k);
      PassOne(s, es[i], k);
    }
  }

  lemma SpentSettles(env: Env, st: Stage, s: Stream, k: nat)
    requires Takes(env, st, s(k)) && PendingSum(Taken(env, st).guard, s, EnteredAt(env, st, k))
    requires Spent(Taken(env, st).guard, Taken(env, st).token)
    ensures Settled(s, Passed(EnteredAt(env, st, k), k))
  {
    var es := EnteredAt(env, st, k);
    forall i | 0 <= i < |es| ensures Pending(s, Passed(es, k)[i]) == [] {
      PendingPassed(s, es[i], k);
      forall l | l in Pending(s, es[i]) ensures l in Taken(env, st).guard {
        assert LeftOver(l, s, es);
      }
      SpentLeavesNothing(Pending(s, es[i]), s(k));
    }
  }

  ghost predicate AllSettled(s: Stream, config: seq<Slot>) {
    forall i :: 0 <= i < |config| ==> Settled(s, config[i].past)
  }

  lemma TidyDrop(s: Stream, config: seq<Slot>, k: nat, n: nat)
    requires Tidy(s, config, k) && 1 <= n <= |config|
    ensures AllSettled(s, config[n..])
  {
    forall i | 0 <= i < |config| - n ensures Settled(s, config[n..][i].past) {
      assert config[n..][i] == config[n + i];
    }
  }

  lemma SettledTidy(s: Stream, config: seq<Slot>, k: nat)
    requires AllSettled(s, config)
    ensures Tidy(s, config, k)
  {
  }

  lemma TopTidy(s: Stream, top: Slot, rest: seq<Slot>, k: nat)
    requires SettledOrIntact(s, top.past, k) && AllSettled(s, rest)
    ensures Tidy(s, [top] + rest, k)
  {
  }

  lemma SettledAppend(s: Stream, a: seq<Slot>, b: seq<Slot>)
    requires AllSettled(s, a) && AllSettled(s, b)
    ensures AllSettled(s, a + b)
  {
  }

  lemma StepTidy(env: Env, st: Stage, s: Stream, k: nat, next: seq<Slot>)
    requires Takes(env, st, s(k)) && LeadsTo(env, st, k, next) && Tidy(s, st.config, k) && NestSpent(env, st)
    requires PendingSum(Taken(env, st).guard, s, EnteredAt(env, st, k))
    ensures Tidy(s, next, k + 1)
  {
    var term, rest := Taken(env, st), st.config[1..];
    var passed := Passed(EnteredAt(env, st, k), k);
    AfterShape(env, st, k, next);
    if Ends(env, term) {
      TidyDrop(s, st.config, k, 1 + term.popOffset);
      SettledTidy(s, next, k + 1);
    } else {
      TidyDrop(s, st.config, k, 1);
      if term.nest.Some? {
        SpentSettles(env, st, s, k);
        NestTidy(env, s, term, passed, rest, k + 1);
      } else {
        PassedTidy(env, st, s, k);
        TopTidy(s, NextSlots(env, term, passed)[0], rest, k + 1);
        assert InsideSlots(env, term) + NextSlots(env, term, passed) == [NextSlots(env, term, passed)[0]];
      }
    }
  }

  lemma NestTidy(env: Env, s: Stream, term: Terminal, passed: seq<Entered>, rest: seq<Slot>, k: nat)
    requires term.nest.Some? && Settled(s, passed) && AllSettled(s, rest)
    ensures Tidy(s, InsideSlots(env, term) + NextSlots(env, term, passed) + rest, k)
  {
    var inside, more := InsideSlots(env, term), NextSlots(env, term, passed);
    assert Settled(s, []);
    SettledAppend(s, inside, more);
    SettledAppend(s, inside + more, rest);
    SettledTidy(s, inside + more + rest, k);
  }

  lemma {:induction false} RunTidy(env: Env, entry: Grammar, run: seq<Stage>, s: Stream, k: nat)
    requires IsRun(env, entry, run, s) && k < |run| && NestsSpent(env, run, k)
    ensures Tidy(s, run[k].config, k)
    decreases k
  {
    if k == 0 {
      RunStarts(env, entry, run, s);
    } else {
      RunTidy(env, entry, run, s, k - 1);
      RunTakes(env, entry, run, s, k - 1);
      RunTakes(env, entry, run, s, k);
      RunSum(env, entry, run, s, k - 1);
      assert NestSpent(env, run[k - 1]);
      StepTidy(env, run[k - 1], s, k - 1, run[k].config);
    }
  }

  /** And when no guard asks for more than the opening token at any nest, it is the conjunction of all arms' guards. */
  lemma SpentRunsAreConjunctions(env: Env, entry: Grammar, run: seq<Stage>, s: Stream, k: nat)
    requires IsRun(env, entry, run, s) && k < |run| && TakenUnderGuard(env, run, s, k) && NestsSpent(env, run, k)
    ensures GuardHolds(env, run[k], s, k) <==> forall j :: 0 <= j <= k ==> ArmsHold(env, run[j], s, j)
  {
    RunGuardIsConjunction(env, entry, run, s, k);
    RunTidy(env, entry, run, s, k);
    RunTakes(env, entry, run, s, k);
    assert CrossedHold(env, run[k], s, k);
  }
}
