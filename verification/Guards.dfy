/**
 Lookahead guards: conjunctions of "the visible token at this offset equals that one".
 Merging, shifting over a consumed token, and mutual exclusion, each proved against
 the set of token streams that satisfy a guard.
 */
module Guards {
  import opened Languages
  import opened Grammars

  type Guard = seq<Lookahead>

  /** What a peek function sees: a token at every offset (EOF past the end). */
  type Stream = nat -> Token

  /** The stream after one token has been consumed. */
  function Advanced(p: Stream): Stream {
    (n: nat) => p(n + 1)
  }

  predicate Holds(p: Stream, l: Lookahead) {
    p(l.offset) == l.expected
  }

  predicate Matches(p: Stream, g: Guard) {
    forall i :: 0 <= i < |g| ==> Holds(p, g[i])
  }

  /** GuardMatchesLookahead: stops at the first constraint that fails. */
  method GuardMatchesLookahead(p: Stream, g: Guard) returns (ok: bool)
    ensures ok <==> Matches(p, g)
  {
    for i := 0 to |g|
      invariant forall j :: 0 <= j < i ==> Holds(p, g[j])
    {
      if p(g[i].offset) != g[i].expected {
        return false;
      }
    }
    return true;
  }

  lemma MatchesBySet(p: Stream, g: Guard)
    ensures Matches(p, g) <==> forall l :: l in g ==> Holds(p, l)
  {
  }

  // ------------------------------------------------------ sorting, no duplicates

  predicate Before(a: Lookahead, b: Lookahead) {
    a.offset < b.offset || (a.offset == b.offset && a.expected < b.expected)
  }

  predicate StrictlySorted(g: Guard) {
    forall i, j :: 0 <= i < j < |g| ==> Before(g[i], g[j])
  }

  predicate WeaklySorted(g: Guard) {
    forall i, j :: 0 <= i < j < |g| ==> !Before(g[j], g[i])
  }

  function Insert(l: Lookahead, g: Guard): (r: Guard)
    requires WeaklySorted(g)
    ensures WeaklySorted(r)
    ensures forall x :: x in r <==> x == l || x in g
  {
    if g == [] then [l]
    else if Before(g[0], l) then
      var rest := Insert(l, g[1..]);
      assert forall x :: x in rest ==> x == l || x in g[1..];
      assert forall x :: x in rest ==> !Before(x, g[0]);
      [g[0]] + rest
    else [l] + g
  }

  /** Ascending by offset, then by token; ties are equal constraints, so the order is unique. */
  function Sort(g: Guard): (r: Guard)
    ensures WeaklySorted(r)
    ensures forall x :: x in r <==> x in g
  {
    if g == [] then [] else
      assert g == [g[0]] + g[1..];
      Insert(g[0], Sort(g[1..]))
  }

  /** Keeps the last of every run of equal neighbours; on a sorted guard, one of each constraint. */
  function Dedupe(g: Guard): (r: Guard)
    requires WeaklySorted(g)
    ensures StrictlySorted(r)
    ensures forall x :: x in r <==> x in g
  {
    if |g| <= 1 then g
    else if g[0] == g[1] then
      assert g == [g[0]] + g[1..];
      Dedupe(g[1..])
    else
      var rest := Dedupe(g[1..]);
      assert forall x :: x in rest ==> x in g[1..];
      assert forall x :: x in g[1..] ==> Before(g[0], x) || x == g[0];
      assert forall x :: x in g[1..] ==> Before(g[0], x) by {
        assert Before(g[0], g[1]);
      }
      [g[0]] + rest
  }

  function Normalize(g: Guard): (r: Guard)
    ensures StrictlySorted(r)
    ensures forall x :: x in r <==> x in g
  {
    Dedupe(Sort(g))
  }

  /** A strictly sorted guard is determined by the constraints it holds. */
  lemma {:induction false} SortedUnique(a: Guard, b: Guard)
    requires StrictlySorted(a) && StrictlySorted(b)
    requires forall x :: x in a <==> x in b
    ensures a == b
  {
    assert a != [] ==> a[0] in b;
    assert b != [] ==> b[0] in a;
    if a != [] && b != [] {
      assert a[0] == b[0];
      forall x ensures x in a[1..] <==> x in b[1..] {
        if x in a[1..] { assert x in a; assert x != a[0]; }
        if x in b[1..] { assert x in b; assert x != b[0]; }
      }
      SortedUnique(a[1..], b[1..]);
    }
  }

  /** dedupeSortedLookaheads: compacts the slice in place and returns the kept length. */
  method DedupeInPlace(a: array<Lookahead>) returns (n: nat)
    requires WeaklySorted(a[..])
    modifies a
    ensures n <= a.Length
    ensures a[..n] == Dedupe(old(a[..]))
  {
    ghost var was := a[..];
    if a.Length <= 1 {
      assert a[..a.Length] == a[..];
      return a.Length;
    }
    n := 0;
    for i := 0 to a.Length
      invariant 0 <= n <= i
      invariant i > 0 ==> n > 0 && a[n - 1] == was[i - 1]
      invariant StrictlySorted(a[..n])
      invariant forall x :: x in a[..n] <==> x in was[..i]
      invariant a[i..] == was[i..]
    {
      assert a[i] == a[i..][0] == was[i];
      assert was[..i + 1] == was[..i] + [was[i]];
      if n > 0 && a[n - 1] == a[i] {
        assert a[i + 1..] == a[i..][1..] == was[i + 1..];
        continue;
      }
      ghost var kept := a[..n];
      forall x | x in kept ensures Before(x, was[i]) {
        var j :| 0 <= j < n && kept[j] == x;
        assert !Before(was[i], was[i - 1]);
      }
      a[n] := a[i];
      n := n + 1;
      assert a[..n] == kept + [was[i]];
      assert a[i + 1..] == was[i + 1..];
    }
    assert was[..a.Length] == was;
    SortedUnique(a[..n], Dedupe(was));
  }

  // ------------------------------------------------------------- merging

  /** mergeLookaheads. */
  function Merge(a: Guard, b: Guard): (r: Guard) {
    if a == [] then Normalize(b)
    else if b == [] then Normalize(a)
    else Normalize(a + b)
  }

  /** Merging is conjunction, in a canonical form: sorted and without duplicates. */
  lemma MergeIsConjunction(p: Stream, a: Guard, b: Guard)
    ensures Matches(p, Merge(a, b)) <==> Matches(p, a) && Matches(p, b)
    ensures StrictlySorted(Merge(a, b))
  {
    MergeContents(a, b);
    MatchesBySet(p, Merge(a, b));
    MatchesBySet(p, a);
    MatchesBySet(p, b);
  }

  lemma MergeContents(a: Guard, b: Guard)
    ensures forall x :: x in Merge(a, b) <==> x in a || x in b
    ensures StrictlySorted(Merge(a, b))
  {
  }

  /** The order in which guards are merged never shows in the result. */
  lemma MergeLaws(a: Guard, b: Guard, c: Guard)
    ensures Merge(a, b) == Merge(b, a)
    ensures Merge(Merge(a, b), c) == Merge(a, Merge(b, c))
    ensures Merge(a, a) == Normalize(a)
  {
    MergeContents(a, b);
    MergeContents(b, a);
    MergeContents(b, c);
    MergeContents(Merge(a, b), c);
    MergeContents(a, Merge(b, c));
    MergeContents(a, a);
    SortedUnique(Merge(a, b), Merge(b, a));
    SortedUnique(Merge(Merge(a, b), c), Merge(a, Merge(b, c)));
    SortedUnique(Merge(a, a), Normalize(a));
  }

  // ------------------------------------------------------------- shifting

  /** What one constraint becomes once a token is consumed. */
  function ShiftOne(l: Lookahead, consumed: Token): Guard {
    if l.offset > 0 then [Lookahead(l.offset - 1, l.expected)]
    else if l.expected != consumed then [l]
    else []
  }

  /** The constraints left after the loop of shiftChoiceGuardAfterConsume. */
  function ShiftRaw(g: Guard, consumed: Token): Guard {
    if g == [] then [] else ShiftOne(g[0], consumed) + ShiftRaw(g[1..], consumed)
  }

  /** shiftChoiceGuardAfterConsume. */
  function Shift(g: Guard, consumed: Token): Guard {
    Normalize(ShiftRaw(g, consumed))
  }

  method ShiftChoiceGuardAfterConsume(g: Guard, consumed: Token) returns (r: Guard)
    ensures r == Shift(g, consumed)
  {
    if |g| == 0 {
      return [];
    }
    var out: Guard := [];
    for i := 0 to |g|
      invariant out + ShiftRaw(g[i..], consumed) == ShiftRaw(g, consumed)
    {
      var l := g[i];
      assert ShiftRaw(g[i..], consumed) == ShiftOne(l, consumed) + ShiftRaw(g[i + 1..], consumed) by {
        assert g[i..][0] == g[i] && g[i..][1..] == g[i + 1..];
      }
      assert out + (ShiftOne(l, consumed) + ShiftRaw(g[i + 1..], consumed)) == out + ShiftOne(l, consumed) + ShiftRaw(g[i + 1..], consumed);
      if l.offset > 0 {
        out := out + [Lookahead(l.offset - 1, l.expected)];
        continue;
      }
      if l.expected != consumed {
        out := out + [l];
        continue;
      }
      assert out + ShiftOne(l, consumed) == out;
    }
    assert g[|g|..] == [] && out + [] == out;
    assert out == ShiftRaw(g, consumed);
    if |out| == 0 {
      return [];
    }
    return Dedupe(Sort(out));
  }

  /** The token consumed satisfies every constraint on the current offset. */
  predicate MeetsCurrent(g: Guard, consumed: Token) {
    forall l :: l in g && l.offset == 0 ==> l.expected == consumed
  }

  /** x is what the constraint l of g turns into. */
  ghost predicate ShiftedFrom(x: Lookahead, g: Guard, consumed: Token) {
    || Lookahead(x.offset + 1, x.expected) in g
    || (x in g && x.offset == 0 && x.expected != consumed)
  }

  lemma {:induction false} ShiftRawContents(g: Guard, consumed: Token, x: Lookahead)
    ensures x in ShiftRaw(g, consumed) <==> ShiftedFrom(x, g, consumed)
  {
    if g != [] {
      ShiftRawContents(g[1..], consumed, x);
      assert g == [g[0]] + g[1..];
      assert x in ShiftOne(g[0], consumed) <==> ShiftedFrom(x, [g[0]], consumed);
    }
  }

  /** Two constraints on one offset that name different tokens. */
  ghost predicate Contradictory(g: Guard) {
    exists a, b :: a in g && b in g && a.offset == b.offset && a.expected != b.expected
  }

  /** The stream that a consistent guard asks for, with a filler elsewhere. */
  ghost function Witness(g: Guard, filler: Token): Stream {
    (n: nat) => if exists l :: l in g && l.offset == n then (var l :| l in g && l.offset == n; l.expected) else filler
  }

  lemma WitnessMatches(g: Guard, filler: Token)
    requires !Contradictory(g)
    ensures Matches(Witness(g, filler), g)
  {
    var p := Witness(g, filler);
    forall i | 0 <= i < |g| ensures Holds(p, g[i]) {
      assert g[i] in g;
    }
  }

  lemma ContradictoryNeverMatches(p: Stream, g: Guard)
    requires Contradictory(g)
    ensures !Matches(p, g)
  {
    MatchesBySet(p, g);
    var a, b :| a in g && b in g && a.offset == b.offset && a.expected != b.expected;
    assert !(Holds(p, a) && Holds(p, b));
  }

  lemma ShiftHolds(p: Stream, g: Guard)
    requires MeetsCurrent(g, p(0))
    ensures Matches(p, g) <==> Matches(Advanced(p), Shift(g, p(0)))
  {
    var c := p(0);
    MatchesBySet(p, g);
    MatchesBySet(Advanced(p), Shift(g, c));
    forall x ensures x in Shift(g, c) <==> ShiftedFrom(x, g, c) {
      ShiftRawContents(g, c, x);
    }
    if Matches(p, g) {
      forall x | x in Shift(g, c) ensures Holds(Advanced(p), x) {
        assert Holds(p, Lookahead(x.offset + 1, x.expected));
      }
    }
    if Matches(Advanced(p), Shift(g, c)) {
      forall l | l in g ensures Holds(p, l) {
        if l.offset > 0 {
          var x := Lookahead(l.offset - 1, l.expected);
          assert ShiftedFrom(x, g, c);
          assert Holds(Advanced(p), x);
        }
      }
    }
  }

  /**
   Exactly when shifting keeps the meaning of a guard on all streams that start with the
   consumed token. An unmet constraint on the current offset is carried over to the next
   token instead of failing, so the shifted guard must then be unsatisfiable anyway.
   */
  lemma ShiftExactness(g: Guard, consumed: Token)
    ensures (forall p: Stream :: p(0) == consumed ==>
               (Matches(p, g) <==> Matches(Advanced(p), Shift(g, consumed))))
            <==> MeetsCurrent(g, consumed) || Contradictory(Shift(g, consumed))
  {
    if MeetsCurrent(g, consumed) {
      forall p: Stream | p(0) == consumed
        ensures Matches(p, g) <==> Matches(Advanced(p), Shift(g, consumed))
      {
        ShiftHolds(p, g);
      }
    } else {
      var bad :| bad in g && bad.offset == 0 && bad.expected != consumed;
      forall p: Stream | p(0) == consumed ensures !Matches(p, g) {
        MatchesBySet(p, g);
        assert !Holds(p, bad);
      }
      if Contradictory(Shift(g, consumed)) {
        forall p: Stream ensures !Matches(Advanced(p), Shift(g, consumed)) {
          ContradictoryNeverMatches(Advanced(p), Shift(g, consumed));
        }
      } else {
        var q := Witness(Shift(g, consumed), consumed);
        WitnessMatches(Shift(g, consumed), consumed);
        var p: Stream := (n: nat) => if n == 0 then consumed else q(n - 1);
        MatchesBySet(q, Shift(g, consumed));
        MatchesBySet(Advanced(p), Shift(g, consumed));
        assert forall l :: Holds(q, l) ==> Holds(Advanced(p), l);
        assert Matches(Advanced(p), Shift(g, consumed));
        assert p(0) == consumed && !Matches(p, g);
      }
    }
  }

  // ------------------------------------------------------- mutual exclusion

  /** One required token per offset, or None when the guard contradicts itself. */
  ghost predicate Constrains(m: map<nat, Token>, g: Guard) {
    && (forall l :: l in g ==> l.offset in m && m[l.offset] == l.expected)
    && (forall o :: o in m ==> Lookahead(o, m[o]) in g)
  }

  /** GuardPeekConstraints. */
  method GuardPeekConstraints(g: Guard) returns (m: map<nat, Token>, bad: bool)
    ensures bad <==> Contradictory(g)
    ensures !bad ==> Constrains(m, g)
  {
    m := map[];
    for i := 0 to |g|
      invariant Constrains(m, g[..i])
    {
      var x := g[i];
      assert g[..i + 1] == g[..i] + [x];
      if x.offset in m && m[x.offset] != x.expected {
        assert Lookahead(x.offset, m[x.offset]) in g && x in g;
        return map[], true;
      }
      m := m[x.offset := x.expected];
    }
    assert g[..|g|] == g;
    return m, false;
  }

  ghost predicate Differ(a: Guard, b: Guard) {
    exists x, y :: x in a && y in b && x.offset == y.offset && x.expected != y.expected
  }

  /** GuardsMutuallyExclusive. */
  method GuardsMutuallyExclusive(a: Guard, b: Guard) returns (exclusive: bool)
    ensures exclusive <==> !Contradictory(a) && !Contradictory(b) && Differ(a, b)
  {
    var ma, badA := GuardPeekConstraints(a);
    var mb, badB := GuardPeekConstraints(b);
    if badA || badB {
      return false;
    }
    var offsets := ma.Keys;
    while offsets != {}
      invariant offsets <= ma.Keys
      invariant forall o :: o in ma && o !in offsets && o in mb ==> ma[o] == mb[o]
      decreases offsets
    {
      var o :| o in offsets;
      if o in mb && ma[o] != mb[o] {
        assert Lookahead(o, ma[o]) in a && Lookahead(o, mb[o]) in b;
        return true;
      }
      offsets := offsets - {o};
    }
    return false;
  }

  /** Reported exclusive guards share no stream; for self-consistent guards the converse holds too. */
  lemma ExclusionIsExact(a: Guard, b: Guard)
    ensures Differ(a, b) ==> forall p: Stream :: !(Matches(p, a) && Matches(p, b))
    ensures !Contradictory(a) && !Contradictory(b) ==>
              (Differ(a, b) <==> forall p: Stream :: !(Matches(p, a) && Matches(p, b)))
  {
    if Differ(a, b) {
      var x, y :| x in a && y in b && x.offset == y.offset && x.expected != y.expected;
      forall p: Stream ensures !(Matches(p, a) && Matches(p, b)) {
        MatchesBySet(p, a);
        MatchesBySet(p, b);
        assert !(Holds(p, x) && Holds(p, y));
      }
    } else if !Contradictory(a) && !Contradictory(b) {
      assert !Contradictory(a + b);
      var p := Witness(a + b, 0);
      WitnessMatches(a + b, 0);
      MatchesBySet(p, a + b);
      MatchesBySet(p, a);
      MatchesBySet(p, b);
    }
  }
}
