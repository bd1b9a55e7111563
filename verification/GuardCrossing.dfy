/**
 Exactly when a run's guard is the conjunction of its arms, over all streams that go on from
 the run: what guards still ask for across a nest must be asked for anyway, by the token just
 taken, by a guard that an earlier token was taken under, or by an arm entered here.
 */
module GuardCrossing {
  import opened Grammars
  import opened Guards
  import opened Terminals
  import opened GuardRuns
  import opened GuardConjunction

  ghost predicate Agree(s: Stream, p: Stream, n: nat) {
    forall i: nat :: i < n ==> p(i) == s(i)
  }

  // ------------------------------------------------ guards only look at tokens taken so far

  ghost predicate SeenBefore(es: seq<Entered>, k: nat) {
    forall i :: 0 <= i < |es| ==> forall j :: 0 <= j < |es[i].seen| ==> es[i].seen[j] < k
  }

  ghost predicate ConfigSeenBefore(config: seq<Slot>, k: nat) {
    forall i :: 0 <= i < |config| ==> SeenBefore(config[i].past, k)
  }

  lemma {:induction false} PassedSeen(env: Env, st: Stage, k: nat)
    requires StageOk(env, st) && SeenBefore(st.config[0].past, k)
    ensures SeenBefore(Passed(EnteredAt(env, st, k), k), k + 1)
  {
    var past, arms := st.config[0].past, st.config[0].arms[st.pick];
    var es := Passed(EnteredAt(env, st, k), k);
    forall i, j | 0 <= i < |es| && 0 <= j < |es[i].seen| ensures es[i].seen[j] < k + 1 {
      if i < |past| {
        assert es[i].seen == past[i].seen + [k];
      } else {
        assert es[i].seen == [] + [k];
      }
    }
  }

  lemma {:induction false} SeenAppend(a: seq<Slot>, b: seq<Slot>, k: nat)
    requires ConfigSeenBefore(a, k) && ConfigSeenBefore(b, k)
    ensures ConfigSeenBefore(a + b, k)
  {
    forall i | 0 <= i < |a + b| ensures SeenBefore((a + b)[i].past, k) {
      if i >= |a| {
        assert (a + b)[i] == b[i - |a|];
      }
    }
  }

  lemma {:induction false} SeenDrop(config: seq<Slot>, n: nat, k: nat)
    requires ConfigSeenBefore(config, k) && n <= |config|
    ensures ConfigSeenBefore(config[n..], k + 1)
  {
    forall i | 0 <= i < |config| - n ensures SeenBefore(config[n..][i].past, k + 1) {
      assert config[n..][i] == config[n + i];
    }
  }

  lemma {:induction false} StepSeen(env: Env, st: Stage, k: nat, next: seq<Slot>)
    requires LeadsTo(env, st, k, next) && ConfigSeenBefore(st.config, k)
    ensures ConfigSeenBefore(next, k + 1)
  {
    PassedSeen(env, st, k);
    AfterShape(env, st, k, next);
    var term, passed := Taken(env, st), Passed(EnteredAt(env, st, k), k);
    if Ends(env, term) {
      SeenDrop(st.config, 1 + term.popOffset, k);
    } else {
      SeenDrop(st.config, 1, k);
      SeenAppend(InsideSlots(env, term), NextSlots(env, term, passed), k + 1);
      SeenAppend(InsideSlots(env, term) + NextSlots(env, term, passed), st.config[1..], k + 1);
    }
  }

  lemma {:induction false} StartSeen(slot: Slot)
    requires slot.past == []
    ensures ConfigSeenBefore([slot], 0)
  {
  }

  lemma {:induction false} RunStartSeen(env: Env, entry: Grammar, run: seq<Stage>, s: Stream)
    requires IsRun(env, entry, run, s)
    ensures ConfigSeenBefore(run[0].config, 0)
  {
    RunStarts(env, entry, run, s);
    StartSeen(RootSlot(env, entry));
  }

  lemma {:induction false} NextSeen(env: Env, entry: Grammar, run: seq<Stage>, s: Stream, k: nat)
    requires IsRun(env, entry, run, s) && k + 1 < |run| && ConfigSeenBefore(run[k].config, k)
    ensures ConfigSeenBefore(run[k + 1].config, k + 1)
  {
    RunTakes(env, entry, run, s, k + 1);
    StepSeen(env, run[k], k, run[k + 1].config);
  }

  lemma {:induction false} RunSeen(env: Env, entry: Grammar, run: seq<Stage>, s: Stream, k: nat)
    requires IsRun(env, entry, run, s) && k < |run|
    ensures ConfigSeenBefore(run[k].config, k)
    decreases k
  {
    if k == 0 {
      RunStartSeen(env, entry, run, s);
    } else {
      RunSeen(env, entry, run, s, k - 1);
      NextSeen(env, entry, run, s, k - 1);
    }
  }

  lemma {:induction false} PendingSame(s: Stream, p: Stream, e: Entered, k: nat)
    requires Agree(s, p, k) && forall j :: 0 <= j < |e.seen| ==> e.seen[j] < k
    ensures Pending(p, e) == Pending(s, e)
    decreases |e.seen|
  {
    if e.seen != [] {
      PendingSame(s, p, e.(seen := e.seen[..|e.seen| - 1]), k);
    }
  }

  lemma {:induction false} RunContinues(env: Env, entry: Grammar, run: seq<Stage>, s: Stream, p: Stream)
    requires IsRun(env, entry, run, s) && Agree(s, p, |run|)
    ensures IsRun(env, entry, run, p)
  {
    forall k | 0 <= k < |run| ensures Takes(env, run[k], p(k)) && (k > 0 ==> LeadsTo(env, run[k - 1], k - 1, run[k].config)) {
      RunTakes(env, entry, run, s, k);
    }
  }

  // ---------------------------------------------------------------- what must be answered

  /** A guard still asks for x across a nest at stage k. */
  ghost predicate CrossedAsks(env: Env, st: Stage, s: Stream, k: nat, x: Lookahead)
    requires StageOk(env, st)
  {
    exists i :: 0 <= i < |st.config[0].past| && !Intact(st.config[0].past[i], k) && x in Pending(s, st.config[0].past[i])
  }

  /** The guard of the stage at position j asks for the token that x asks for at position k. */
  ghost predicate AskedUnder(env: Env, st: Stage, j: nat, k: nat, x: Lookahead)
    requires StageOk(env, st)
  {
    exists l :: l in Taken(env, st).guard && j + l.offset == k + x.offset && l.expected == x.expected
  }

  /** An earlier token was taken under such a guard. */
  ghost predicate AskedEarlier(env: Env, run: seq<Stage>, k: nat, x: Lookahead)
    requires k < |run| && forall j :: 0 <= j < k ==> StageOk(env, run[j])
  {
    exists j :: 0 <= j < k && AskedUnder(env, run[j], j, k, x)
  }

  ghost predicate AskedByArm(env: Env, st: Stage, x: Lookahead)
    requires StageOk(env, st)
  {
    exists i :: 0 <= i < |st.config[0].arms[st.pick]| && x in st.config[0].arms[st.pick][i]
  }

  /** The tokens of the run, taken under guard, and any tokens after it. */
  ghost predicate Continues(env: Env, run: seq<Stage>, s: Stream, p: Stream)
    requires run != []
  {
    Agree(s, p, |run|) && TakenUnderGuard(env, run, p, |run| - 1)
  }

  ghost predicate AllArmsHold(env: Env, run: seq<Stage>, p: Stream) {
    forall j :: 0 <= j < |run| ==> ArmsHold(env, run[j], p, j)
  }

  ghost predicate LastGuardHolds(env: Env, run: seq<Stage>, p: Stream)
    requires run != []
  {
    GuardHolds(env, run[|run| - 1], p, |run| - 1)
  }

  ghost predicate RunOk(env: Env, run: seq<Stage>) {
    run != [] && forall j :: 0 <= j < |run| ==> StageOk(env, run[j])
  }

  ghost predicate Answered(env: Env, run: seq<Stage>, s: Stream, x: Lookahead)
    requires RunOk(env, run)
  {
    var k := |run| - 1;
    (x.offset == 0 && x.expected == s(k)) || AskedEarlier(env, run, k, x) || AskedByArm(env, run[k], x)
  }

  ghost predicate CrossedAnswered(env: Env, run: seq<Stage>, s: Stream)
    requires RunOk(env, run)
  {
    forall x :: CrossedAsks(env, run[|run| - 1], s, |run| - 1, x) ==> Answered(env, run, s, x)
  }

  lemma {:induction false} RunIsOk(env: Env, entry: Grammar, run: seq<Stage>, s: Stream)
    requires IsRun(env, entry, run, s)
    ensures RunOk(env, run)
  {
    forall j | 0 <= j < |run| ensures StageOk(env, run[j]) {
      RunTakes(env, entry, run, s, j);
    }
  }

  /** What is asked across nests is there. */
  ghost predicate CrossedMet(env: Env, st: Stage, s: Stream, p: Stream, k: nat)
    requires StageOk(env, st)
  {
    forall x :: CrossedAsks(env, st, s, k, x) ==> p(k + x.offset) == x.expected
  }

  lemma {:induction false} PendingTokens(p: Stream, k: nat, g: Guard)
    ensures Matches(From(p, k), g) <==> forall x :: x in g ==> p(k + x.offset) == x.expected
  {
    MatchesBySet(From(p, k), g);
    forall x | x in g ensures Holds(From(p, k), x) <==> p(k + x.offset) == x.expected {
    }
  }

  lemma {:induction false} CrossedTokens(env: Env, st: Stage, s: Stream, p: Stream, k: nat)
    requires StageOk(env, st) && Agree(s, p, k) && SeenBefore(st.config[0].past, k)
    ensures CrossedHold(env, st, p, k) <==> CrossedMet(env, st, s, p, k)
  {
    var past := st.config[0].past;
    forall i | 0 <= i < |past|
      ensures Matches(From(p, k), Pending(p, past[i])) <==> forall x :: x in Pending(s, past[i]) ==> p(k + x.offset) == x.expected
    {
      PendingSame(s, p, past[i], k);
      PendingTokens(p, k, Pending(s, past[i]));
    }
    if CrossedHold(env, st, p, k) {
      forall x | CrossedAsks(env, st, s, k, x) ensures p(k + x.offset) == x.expected {
        var i :| 0 <= i < |past| && !Intact(past[i], k) && x in Pending(s, past[i]);
        assert Matches(From(p, k), Pending(p, past[i]));
      }
    } else {
      var i :| 0 <= i < |past| && !Intact(past[i], k) && !Matches(From(p, k), Pending(p, past[i]));
      var x :| x in Pending(s, past[i]) && p(k + x.offset) != x.expected;
      assert CrossedAsks(env, st, s, k, x);
    }
  }

  lemma {:induction false} AllArms(env: Env, run: seq<Stage>, p: Stream)
    requires run != []
    ensures AllArmsHold(env, run, p) <==> forall j :: 0 <= j <= |run| - 1 ==> ArmsHold(env, run[j], p, j)
  {
  }

  /** On a stream that continues the run the guard is the arms and what is asked across nests. */
  lemma {:induction false} ContinuedGuard(env: Env, entry: Grammar, run: seq<Stage>, s: Stream, p: Stream)
    requires IsRun(env, entry, run, s) && RunOk(env, run) && Continues(env, run, s, p)
    ensures LastGuardHolds(env, run, p) <==> AllArmsHold(env, run, p) && CrossedMet(env, run[|run| - 1], s, p, |run| - 1)
  {
    var k := |run| - 1;
    RunContinues(env, entry, run, s, p);
    RunGuardIsConjunction(env, entry, run, p, k);
    AllArms(env, run, p);
    assert CrossedHold(env, run[k], p, k) <==> CrossedMet(env, run[k], s, p, k) by {
      RunSeen(env, entry, run, s, k);
      assert ConfigSeenBefore(run[k].config, k);
      CrossedTokens(env, run[k], s, p, k);
    }
  }

  lemma {:induction false} HeldToken(p: Stream, j: nat, g: Guard, l: Lookahead)
    requires Matches(From(p, j), g) && l in g
    ensures p(j + l.offset) == l.expected
  {
    MatchesBySet(From(p, j), g);
    assert Holds(From(p, j), l);
  }

  lemma {:induction false} UnderHolds(env: Env, st: Stage, p: Stream, j: nat, k: nat, x: Lookahead)
    requires GuardHolds(env, st, p, j) && AskedUnder(env, st, j, k, x)
    ensures p(k + x.offset) == x.expected
  {
    var l :| l in Taken(env, st).guard && j + l.offset == k + x.offset && l.expected == x.expected;
    HeldToken(p, j, Taken(env, st).guard, l);
  }

  lemma {:induction false} EarlierHolds(env: Env, run: seq<Stage>, p: Stream, k: nat, x: Lookahead)
    requires RunOk(env, run) && k < |run| && TakenUnderGuard(env, run, p, k) && AskedEarlier(env, run, k, x)
    ensures p(k + x.offset) == x.expected
  {
    var j :| 0 <= j < k && AskedUnder(env, run[j], j, k, x);
    UnderHolds(env, run[j], p, j, k, x);
  }

  lemma {:induction false} ArmHolds(env: Env, st: Stage, p: Stream, k: nat, x: Lookahead)
    requires ArmsHold(env, st, p, k) && AskedByArm(env, st, x)
    ensures p(k + x.offset) == x.expected
  {
    var arms := st.config[0].arms[st.pick];
    var i :| 0 <= i < |arms| && x in arms[i];
    HeldToken(p, k, arms[i], x);
  }

  /** What is answered holds wherever the run continues and the arms hold. */
  lemma {:induction false} AnsweredHolds(env: Env, run: seq<Stage>, s: Stream, p: Stream, k: nat, x: Lookahead)
    requires RunOk(env, run) && k == |run| - 1 && p(k) == s(k) && Answered(env, run, s, x)
    requires TakenUnderGuard(env, run, p, k) && ArmsHold(env, run[k], p, k)
    ensures p(k + x.offset) == x.expected
  {
    if AskedEarlier(env, run, k, x) {
      EarlierHolds(env, run, p, k, x);
    } else if AskedByArm(env, run[k], x) {
      ArmHolds(env, run[k], p, k, x);
    } else {
      assert k + x.offset == k;
    }
  }

  // ------------------------------------------------------- a stream that is not answered

  /** A guard that does not look at position q does not notice what stands there. */
  lemma {:induction false} ChangedElsewhere(p: Stream, r: Stream, q: nat, j: nat, g: Guard)
    requires Matches(From(p, j), g) && (forall n: nat :: n != q ==> r(n) == p(n)) && forall l :: l in g ==> j + l.offset != q
    ensures Matches(From(r, j), g)
  {
    forall i | 0 <= i < |g| ensures Holds(From(r, j), g[i]) {
      assert g[i] in g && Holds(From(p, j), g[i]);
    }
  }

  lemma {:induction false} GuardUnmoved(env: Env, st: Stage, p: Stream, r: Stream, j: nat, k: nat, x: Lookahead)
    requires GuardHolds(env, st, p, j) && !AskedUnder(env, st, j, k, x) && p(k + x.offset) == x.expected
    requires forall n: nat :: n != k + x.offset ==> r(n) == p(n)
    ensures GuardHolds(env, st, r, j)
  {
    var g := Taken(env, st).guard;
    forall l | l in g ensures j + l.offset != k + x.offset {
      HeldToken(p, j, g, l);
    }
    ChangedElsewhere(p, r, k + x.offset, j, g);
  }

  lemma {:induction false} ArmsUnmoved(env: Env, st: Stage, p: Stream, r: Stream, k: nat, x: Lookahead)
    requires ArmsHold(env, st, p, k) && !AskedByArm(env, st, x) && p(k + x.offset) == x.expected
    requires forall n: nat :: n != k + x.offset ==> r(n) == p(n)
    ensures ArmsHold(env, st, r, k)
  {
    var arms := st.config[0].arms[st.pick];
    forall i | 0 <= i < |arms| ensures Matches(From(r, k), arms[i]) {
      forall l: Lookahead | l in arms[i] ensures k + l.offset != k + x.offset {
        HeldToken(p, k, arms[i], l);
      }
      ChangedElsewhere(p, r, k + x.offset, k, arms[i]);
    }
  }

  lemma {:induction false} GuardsUnmoved(env: Env, run: seq<Stage>, p: Stream, r: Stream, k: nat, x: Lookahead)
    requires RunOk(env, run) && k < |run| && TakenUnderGuard(env, run, p, k) && !AskedEarlier(env, run, k, x)
    requires p(k + x.offset) == x.expected && forall n: nat :: n != k + x.offset ==> r(n) == p(n)
    ensures TakenUnderGuard(env, run, r, k)
  {
    forall j | 0 <= j < k ensures GuardHolds(env, run[j], r, j) {
      assert GuardHolds(env, run[j], p, j);
      GuardUnmoved(env, run[j], p, r, j, k, x);
    }
  }

  lemma {:induction false} ArmsOfRun(env: Env, entry: Grammar, run: seq<Stage>, s: Stream, r: Stream)
    requires IsRun(env, entry, run, s) && Continues(env, run, s, r) && ArmsHold(env, run[|run| - 1], r, |run| - 1)
    ensures AllArmsHold(env, run, r)
  {
    RunContinues(env, entry, run, s, r);
    EarlierHeld(env, entry, run, r, |run| - 1);
  }

  /** Where an unanswered token stands another one can, with every guard and arm as before. */
  lemma {:induction false} UnansweredFails(env: Env, entry: Grammar, run: seq<Stage>, s: Stream, p: Stream, x: Lookahead) returns (r: Stream)
    requires IsRun(env, entry, run, s) && RunOk(env, run)
    requires Continues(env, run, s, p) && AllArmsHold(env, run, p) && !Answered(env, run, s, x)
    ensures Continues(env, run, s, r) && AllArmsHold(env, run, r) && r(|run| - 1 + x.offset) != x.expected
  {
    var k := |run| - 1;
    if p(k + x.offset) != x.expected {
      r := p;
    } else {
      assert x.offset > 0;
      r := (n: nat) => if n == k + x.offset then x.expected + 1 else p(n);
      GuardsUnmoved(env, run, p, r, k, x);
      assert Agree(s, r, |run|);
      assert ArmsHold(env, run[k], p, k);
      ArmsUnmoved(env, run[k], p, r, k, x);
      ArmsOfRun(env, entry, run, s, r);
    }
  }

  /** The guard and the arms agree wherever the run continues. */
  ghost predicate GuardIsConjunction(env: Env, run: seq<Stage>, s: Stream)
    requires run != []
  {
    forall p :: Continues(env, run, s, p) ==> (LastGuardHolds(env, run, p) <==> AllArmsHold(env, run, p))
  }

  /** The arms entered cannot all hold, however the run continues. */
  ghost predicate ArmsExclude(env: Env, run: seq<Stage>, s: Stream)
    requires run != []
  {
    forall p :: Continues(env, run, s, p) ==> !AllArmsHold(env, run, p)
  }

  /**
   For any run, and over all streams that go on from it: the guard of its last terminal holds
   exactly when all arms entered held, if and only if the arms cannot all hold anyway, or all that
   guards still ask for across a nest is answered by the token just taken, by a guard an earlier
   token was taken under, or by an arm entered here.
   */
  lemma {:induction false} ConjunctionExact(env: Env, entry: Grammar, run: seq<Stage>, s: Stream)
    requires IsRun(env, entry, run, s)
    ensures RunOk(env, run)
    ensures GuardIsConjunction(env, run, s) <==> ArmsExclude(env, run, s) || CrossedAnswered(env, run, s)
  {
    RunIsOk(env, entry, run, s);
    forall p | Continues(env, run, s, p)
      ensures LastGuardHolds(env, run, p) <==> AllArmsHold(env, run, p) && CrossedMet(env, run[|run| - 1], s, p, |run| - 1)
    {
      ContinuedGuard(env, entry, run, s, p);
    }
    if CrossedAnswered(env, run, s) {
      forall p | Continues(env, run, s, p) && AllArmsHold(env, run, p) ensures CrossedMet(env, run[|run| - 1], s, p, |run| - 1) {
        CrossedAnsweredMeets(env, run, s, p);
      }
    } else if !ArmsExclude(env, run, s) {
      var p :| Continues(env, run, s, p) && AllArmsHold(env, run, p);
      var x :| CrossedAsks(env, run[|run| - 1], s, |run| - 1, x) && !Answered(env, run, s, x);
      var r := UnansweredFails(env, entry, run, s, p, x);
      assert !CrossedMet(env, run[|run| - 1], s, r, |run| - 1);
    }
  }

  lemma {:induction false} CrossedAnsweredMeets(env: Env, run: seq<Stage>, s: Stream, p: Stream)
    requires RunOk(env, run) && Continues(env, run, s, p) && AllArmsHold(env, run, p) && CrossedAnswered(env, run, s)
    ensures CrossedMet(env, run[|run| - 1], s, p, |run| - 1)
  {
    forall x | CrossedAsks(env, run[|run| - 1], s, |run| - 1, x) ensures p(|run| - 1 + x.offset) == x.expected {
      assert Answered(env, run, s, x);
      AnsweredHolds(env, run, s, p, |run| - 1, x);
    }
  }
}
