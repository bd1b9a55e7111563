/**
 Filtering the arms of a choice by the analysis: which arms are worth trying for the
 visible tokens ahead.
 */
module ChoiceDispatch {
  import opened Languages
  import opened Grammars
  import opened Guards

  /** What dispatch reads of an arm's grammar node. */
  datatype Arm = Arm(path: Option<Path>, lookaheads: Guard)

  datatype Dispatch = Fallback | NoArm | Candidates(indices: seq<nat>)

  /** The FIRST set dispatch goes by: the guarded one when it is not empty. */
  function ArmFirst(a: Analysis, path: Path): Option<set<Token>> {
    if path in a.armPredict && a.armPredict[path].first != {} then Some(a.armPredict[path].first)
    else if path in a.first then Some(a.first[path])
    else None
  }

  function ArmGuard(a: Analysis, arm: Arm, path: Path): Guard {
    if path in a.armPredict && |a.armPredict[path].guard| > 0 then a.armPredict[path].guard else arm.lookaheads
  }

  /** An arm is passed over only on positive evidence that it cannot match here. */
  predicate Viable(a: Analysis, arm: Arm, p: Stream) {
    arm.path.None? ||
    var path := arm.path.value;
    || ArmFirst(a, path).None? || path !in a.nullable || a.nullable[path]
    || (p(0) in ArmFirst(a, path).value && Matches(p, ArmGuard(a, arm, path)))
  }

  /** The viable arms, in order. */
  function ViableFrom(a: Analysis, arms: seq<Arm>, p: Stream, from: nat): seq<nat>
    requires from <= |arms|
    decreases |arms| - from
  {
    if from == |arms| then []
    else (if Viable(a, arms[from], p) then [from] else []) + ViableFrom(a, arms, p, from + 1)
  }

  function DispatchOf(analysis: Option<Analysis>, arms: seq<Arm>, p: Stream): Dispatch {
    match analysis
    case None => Fallback
    case Some(a) =>
      var indices := ViableFrom(a, arms, p, 0);
      if indices == [] then NoArm else Candidates(indices)
  }

  function ViableUpTo(a: Analysis, arms: seq<Arm>, p: Stream, n: nat): seq<nat>
    requires n <= |arms|
  {
    if n == 0 then [] else ViableUpTo(a, arms, p, n - 1) + if Viable(a, arms[n - 1], p) then [n - 1] else []
  }

  lemma {:induction false} UpToThenFrom(a: Analysis, arms: seq<Arm>, p: Stream, n: nat)
    requires n <= |arms|
    ensures ViableUpTo(a, arms, p, n) + ViableFrom(a, arms, p, n) == ViableFrom(a, arms, p, 0)
    decreases n
  {
    if n > 0 {
      UpToThenFrom(a, arms, p, n - 1);
      assert ViableUpTo(a, arms, p, n) + ViableFrom(a, arms, p, n) ==
             ViableUpTo(a, arms, p, n - 1) + ((if Viable(a, arms[n - 1], p) then [n - 1] else []) + ViableFrom(a, arms, p, n));
    }
  }

  /** ChoiceCandidateIndicesFromAnalysis: one pass with several ways to go on. */
  method ChoiceCandidateIndices(analysis: Option<Analysis>, arms: seq<Arm>, p: Stream) returns (d: Dispatch)
    ensures d == DispatchOf(analysis, arms, p)
    ensures analysis.Some? ==> forall i: nat :: i < |arms| ==> (Chosen(d, i) <==> Called(analysis.value, arms[i], p))
    ensures d.Candidates? ==> Ascending(d.indices)
  {
    if analysis.None? {
      return Fallback;
    }
    var a := analysis.value;
    CandidatesAscend(a, arms, p, 0);
    forall i: nat | i < |arms| ensures Chosen(DispatchOf(analysis, arms, p), i) <==> Called(a, arms[i], p) {
      CandidatesExact(a, arms, p, i);
    }
    var peekToken := p(0);
    var indices := [];
    for i := 0 to |arms|
      invariant indices == ViableUpTo(a, arms, p, i)
    {
      if arms[i].path.None? {
        indices := indices + [i];
        continue;
      }
      var path := arms[i].path.value;
      var hasFirst := path in a.first;
      var firstSet := if hasFirst then a.first[path] else {};
      if path in a.armPredict && a.armPredict[path].first != {} {
        firstSet, hasFirst := a.armPredict[path].first, true;
      }
      if !hasFirst || path !in a.nullable || a.nullable[path] {
        indices := indices + [i];
        continue;
      }
      if peekToken !in firstSet {
        continue;
      }
      var guard := arms[i].lookaheads;
      if path in a.armPredict && |a.armPredict[path].guard| > 0 {
        guard := a.armPredict[path].guard;
      }
      if |guard| > 0 {
        var ok := GuardMatchesLookahead(p, guard);
        if !ok {
          continue;
        }
      }
      indices := indices + [i];
    }
    UpToThenFrom(a, arms, p, |arms|);
    assert indices == ViableFrom(a, arms, p, 0);
    if |indices| == 0 {
      return NoArm;
    }
    return Candidates(indices);
  }

  ghost predicate Ascending(xs: seq<nat>) {
    forall i, j :: 0 <= i < j < |xs| ==> xs[i] < xs[j]
  }

  lemma PrependAscending(x: nat, xs: seq<nat>)
    requires Ascending(xs) && forall y :: y in xs ==> x < y
    ensures Ascending([x] + xs)
  {
    forall i, j | 0 <= i < j < |[x] + xs| ensures ([x] + xs)[i] < ([x] + xs)[j] {
      assert ([x] + xs)[j] == xs[j - 1] && xs[j - 1] in xs;
    }
  }

  /** The candidates are exactly the viable arms. */
  lemma {:induction false} CandidatesAreViable(a: Analysis, arms: seq<Arm>, p: Stream, from: nat)
    requires from <= |arms|
    ensures forall i :: i in ViableFrom(a, arms, p, from) <==> from <= i < |arms| && Viable(a, arms[i], p)
    decreases |arms| - from
  {
    if from < |arms| {
      CandidatesAreViable(a, arms, p, from + 1);
    }
  }

  /** Each once, in ascending order. */
  lemma {:induction false} CandidatesAscend(a: Analysis, arms: seq<Arm>, p: Stream, from: nat)
    requires from <= |arms|
    ensures Ascending(ViableFrom(a, arms, p, from))
    decreases |arms| - from
  {
    if from < |arms| {
      CandidatesAscend(a, arms, p, from + 1);
      CandidatesAreViable(a, arms, p, from + 1);
      var rest := ViableFrom(a, arms, p, from + 1);
      if Viable(a, arms[from], p) {
        PrependAscending(from, rest);
        assert ViableFrom(a, arms, p, from) == [from] + rest;
      } else {
        assert ViableFrom(a, arms, p, from) == rest;
      }
    }
  }

  // -------------------------------------------------- candidates from the facts themselves

  /** The arm is among those dispatch tries. */
  predicate Chosen(d: Dispatch, i: nat) {
    d.Candidates? && i in d.indices
  }

  /** What is asked of the tokens ahead: the guard known for the arm, or else the lookaheads of its own node. */
  function AskedOf(a: Analysis, arm: Arm, path: Path): Guard {
    if path in a.armPredict && a.armPredict[path].guard != [] then a.armPredict[path].guard else arm.lookaheads
  }

  /** The tokens the arm can start with, as far as the analysis knows; a guarded set counts when it is not empty. */
  ghost predicate MayStart(a: Analysis, path: Path, t: Token) {
    if path in a.armPredict && a.armPredict[path].first != {} then t in a.armPredict[path].first
    else path in a.first && t in a.first[path]
  }

  /** Both facts are known of the arm, and it consumes. */
  predicate FullyKnown(a: Analysis, arm: Arm) {
    arm.path.Some? &&
    var path := arm.path.value;
    && path in a.nullable && !a.nullable[path]
    && (path in a.first || (path in a.armPredict && a.armPredict[path].first != {}))
  }

  /** What is known of the arm fits the tokens ahead, if both facts are known of it. */
  ghost predicate Called(a: Analysis, arm: Arm, p: Stream) {
    FullyKnown(a, arm) ==>
      MayStart(a, arm.path.value, p(0)) && forall l :: l in AskedOf(a, arm, arm.path.value) ==> p(l.offset) == l.expected
  }

  /**
   Which arms are tried, told from the maps and the tokens: an arm both facts are known of
   exactly when it may start with the token ahead and every constraint asked of it names the
   token that stands there; any other arm always.
   */
  lemma {:induction false} CandidatesExact(a: Analysis, arms: seq<Arm>, p: Stream, i: nat)
    requires i < |arms|
    ensures Chosen(DispatchOf(Some(a), arms, p), i) <==> Called(a, arms[i], p)
  {
    CandidatesAreViable(a, arms, p, 0);
    if FullyKnown(a, arms[i]) {
      var guard := AskedOf(a, arms[i], arms[i].path.value);
      MatchesBySet(p, guard);
      forall l | l in guard ensures Holds(p, l) <==> p(l.offset) == l.expected {
      }
    }
  }

  /** Two such arms are never tried for the same tokens when their guards are reported to exclude each other. */
  lemma {:induction false} ExclusiveArms(a: Analysis, arms: seq<Arm>, p: Stream, i: nat, j: nat)
    requires i < |arms| && j < |arms| && FullyKnown(a, arms[i]) && FullyKnown(a, arms[j])
    requires Differ(AskedOf(a, arms[i], arms[i].path.value), AskedOf(a, arms[j], arms[j].path.value))
    ensures !(Chosen(DispatchOf(Some(a), arms, p), i) && Chosen(DispatchOf(Some(a), arms, p), j))
  {
    CandidatesExact(a, arms, p, i);
    CandidatesExact(a, arms, p, j);
  }

  /** Two arms that start alike and part at their second token: only the one whose guard names it is tried. */
  lemma {:induction false} GuardDecides(a: Analysis, arms: seq<Arm>, p: Stream, x: Path, y: Path, first: Token, second: Token, third: Token)
    requires |arms| == 2 && arms[0].path == Some(x) && arms[1].path == Some(y) && x != y && second != third
    requires x in a.nullable && !a.nullable[x] && y in a.nullable && !a.nullable[y]
    requires x in a.armPredict && a.armPredict[x] == GuardedArm({first}, [Lookahead(1, second)])
    requires y in a.armPredict && a.armPredict[y] == GuardedArm({first}, [Lookahead(1, third)])
    requires p(0) == first && p(1) == third
    ensures DispatchOf(Some(a), arms, p) == Candidates([1])
  {
    assert Lookahead(1, second) in AskedOf(a, arms[0], x);
    CandidatesExact(a, arms, p, 0);
    CandidatesExact(a, arms, p, 1);
    var ones := ViableFrom(a, arms, p, 1);
    CandidatesAreViable(a, arms, p, 0);
    assert !Viable(a, arms[0], p) && Viable(a, arms[1], p);
    assert ViableFrom(a, arms, p, 2) == [];
    assert ones == [1];
  }
}
