/**
 Words that stand ahead in the input and end there for good. A word is due between two
 positions when it is read there and the token behind it does not go on any longer word of the
 same language. A due word of a concatenation falls apart into due words of the two parts, as
 long as no token both starts the second part and extends the first.
 */
module Determinacy {
  import opened Languages
  import opened Grammars
  import opened Guards
  import opened Sources
  import opened EngineIdle

  // ------------------------------------------------------------------- longer words

  /** Some word of l goes on after w with the token t. */
  ghost predicate Continues(l: Language, w: Word, t: Token) {
    Starts(After(l, w), t)
  }

  /** What may follow w in the words of l that start with w. */
  ghost function After(l: Language, w: Word): Language {
    iset v: Word | w + v in l
  }

  /** The token goes on some word of l to a longer one. */
  ghost predicate Extends(l: Language, t: Token) {
    exists w :: w in l && Continues(l, w, t)
  }

  /** No token can be taken either as the start of b or as more of a word of a. */
  ghost predicate Separated(a: Language, b: Language) {
    forall t :: Starts(b, t) ==> !Extends(a, t)
  }

  lemma ContinuesBy(l: Language, w: Word, t: Token, v: Word)
    requires w + ([t] + v) in l
    ensures Continues(l, w, t)
  {
    assert [t] + v in After(l, w);
    StartsIn(After(l, w), t, v);
  }

  lemma ContinuesElim(l: Language, w: Word, t: Token) returns (v: Word)
    requires Continues(l, w, t)
    ensures w + ([t] + v) in l
  {
    v :| v in Deriv(t, After(l, w));
    assert [t] + v in After(l, w);
  }

  /** After nothing, words go on with what they start with. */
  lemma ContinuesNothing(l: Language, t: Token)
    ensures Continues(l, [], t) <==> Starts(l, t)
  {
    assert After(l, []) == l by {
      forall v: Word ensures v in After(l, []) <==> v in l {
        assert [] + v == v;
      }
    }
  }

  lemma ContinuesMore(a: Language, b: Language, w: Word, t: Token)
    requires a <= b && Continues(a, w, t)
    ensures Continues(b, w, t)
  {
    var v := ContinuesElim(a, w, t);
    ContinuesBy(b, w, t, v);
  }

  /** A word that ends in a word of b goes on where that one does. */
  lemma ContinuesBehind(a: Language, b: Language, u: Word, x: Word, t: Token)
    requires u in a && Continues(b, x, t)
    ensures Continues(Cat(a, b), u + x, t)
  {
    var v := ContinuesElim(b, x, t);
    CatIntro(a, b, u, x + ([t] + v));
    assert u + (x + ([t] + v)) == (u + x) + ([t] + v);
    ContinuesBy(Cat(a, b), u + x, t, v);
  }

  /** And one in front of nothing goes on where it does by itself. */
  lemma ContinuesBefore(a: Language, b: Language, u: Word, t: Token)
    requires [] in b && Continues(a, u, t)
    ensures Continues(Cat(a, b), u, t)
  {
    var v := ContinuesElim(a, u, t);
    CatIntro(a, b, u + ([t] + v), []);
    assert (u + ([t] + v)) + [] == u + ([t] + v);
    ContinuesBy(Cat(a, b), u, t, v);
  }

  ghost predicate HasLonger(l: Language, n: nat) {
    exists w :: w in l && |w| > n
  }

  lemma ContinuesLonger(l: Language, w: Word, t: Token)
    requires Continues(l, w, t)
    ensures HasLonger(l, |w|)
  {
    var v := ContinuesElim(l, w, t);
    assert |w + ([t] + v)| > |w|;
  }

  lemma SingleEnds(t: Token, next: Token)
    ensures !Extends(Single(t), next)
  {
    assert !HasLonger(Single(t), 1);
    forall w | w in Single(t) ensures !Continues(Single(t), w, next) {
      if Continues(Single(t), w, next) {
        ContinuesLonger(Single(t), w, next);
      }
    }
  }

  lemma StartsOnly(t: Token, u: Token)
    requires Starts(Single(t), u)
    ensures t == u
  {
    var v :| v in Deriv(u, Single(t));
    assert ([u] + v)[0] == u && [u] + v == [t];
  }

  lemma StartsOption(t: Token, u: Token)
    requires Starts(Epsilon + Single(t), u)
    ensures t == u
  {
    var v :| v in Deriv(u, Epsilon + Single(t));
    assert ([u] + v)[0] == u && [u] + v in Epsilon + Single(t);
  }

  /** A word of a language with a first token starts with one of its first tokens. */
  lemma StartsHead(l: Language, w: Word)
    requires w in l && w != []
    ensures Starts(l, w[0])
  {
    assert [w[0]] + w[1..] == w;
    StartsIn(l, w[0], w[1..]);
  }

  // ------------------------------------------------------------------ words in the input

  predicate Begins(p: Stream, w: Word) {
    forall i :: 0 <= i < |w| ==> p(i) == w[i]
  }

  lemma {:induction false} ReadsBegins(src: Source, c: Position, w: Word, d: Position)
    requires Within(src, c) && Reads(src, c, w, d)
    ensures Within(src, d) && Begins(VisibleFrom(src, c), w) && (w != [] ==> c < d)
    decreases |w|
  {
    if w != [] {
      var e := Advance(src, c);
      ReadsBegins(src, e, w[1..], d);
      AdvanceTakes(src, c);
      forall i | 0 <= i < |w| ensures VisibleFrom(src, c)(i) == w[i] {
        if i > 0 {
          AdvancePeeks(src, c, i - 1);
          assert VisibleFrom(src, e)(i - 1) == w[1..][i - 1];
        }
      }
    }
  }

  lemma {:induction false} ReadsSplit(src: Source, c: Position, u: Word, x: Word, d: Position) returns (e: Position)
    requires Within(src, c) && Reads(src, c, u + x, d)
    ensures Within(src, e) && Reads(src, c, u, e) && Reads(src, e, x, d)
    decreases |u|
  {
    if u == [] {
      assert u + x == x;
      e := c;
    } else {
      assert (u + x)[1..] == u[1..] + x;
      e := ReadsSplit(src, Advance(src, c), u[1..], x, d);
    }
  }

  /** A word of l is read from c to d, and what is shown at d goes on none of its words after this one. */
  ghost predicate Due(src: Source, l: Language, c: Position, w: Word, d: Position) {
    Within(src, c) && Within(src, d) && w in l && Reads(src, c, w, d) && !Continues(l, w, PeekAt(src, d, 0).token)
  }

  lemma DueLess(src: Source, a: Language, b: Language, c: Position, w: Word, d: Position)
    requires Due(src, b, c, w, d) && a <= b && w in a
    ensures Due(src, a, c, w, d)
  {
    if Continues(a, w, PeekAt(src, d, 0).token) {
      ContinuesMore(a, b, w, PeekAt(src, d, 0).token);
    }
  }

  /** The empty word is due where no word starts. */
  lemma DueNothing(src: Source, l: Language, c: Position)
    requires Within(src, c) && [] in l
    ensures Due(src, l, c, [], c) <==> !Starts(l, PeekAt(src, c, 0).token)
  {
    ContinuesNothing(l, PeekAt(src, c, 0).token);
  }

  /** A due word of a concatenation is a due word of the first part and behind it one of the second. */
  lemma DueSplits(src: Source, a: Language, b: Language, c: Position, w: Word, d: Position) returns (u: Word, e: Position, x: Word)
    requires Due(src, Cat(a, b), c, w, d) && Separated(a, b)
    ensures w == u + x && Due(src, a, c, u, e) && Due(src, b, e, x, d)
  {
    u, x := CatElim(a, b, w);
    e := ReadsSplit(src, c, u, x, d);
    var last := PeekAt(src, d, 0).token;
    if Continues(b, x, last) {
      ContinuesBehind(a, b, u, x, last);
    }
    if x == [] {
      assert u + x == u;
      if Continues(a, u, last) {
        ContinuesBefore(a, b, u, last);
      }
    } else {
      StartsHead(b, x);
      assert !Extends(a, x[0]);
      assert !Continues(a, u, x[0]);
    }
  }

  lemma DueSingle(src: Source, t: Token, c: Position, w: Word, d: Position)
    requires Due(src, Single(t), c, w, d)
    ensures PeekAt(src, c, 0).token == t && t != src.eof && d == Advance(src, c)
  {
    assert w == [t] && w[1..] == [];
    assert Reads(src, Advance(src, c), w[1..], d);
  }

  lemma SingleSeparated(t: Token, b: Language)
    ensures Separated(Single(t), b)
  {
    forall u ensures !Extends(Single(t), u) {
      SingleEnds(t, u);
    }
  }

  /** A due bracketed word: the brackets stand around a due word of the body. */
  lemma DueNest(src: Source, open: Token, l: Language, close: Token, c: Position, w: Word, d: Position) returns (y: Word, f: Position)
    requires Due(src, Cat(Single(open), Cat(l, Single(close))), c, w, d) && Separated(l, Single(close))
    ensures PeekAt(src, c, 0).token == open && Due(src, l, Advance(src, c), y, f)
    ensures PeekAt(src, f, 0).token == close && d == Advance(src, f)
  {
    SingleSeparated(open, Cat(l, Single(close)));
    var u, e, x := DueSplits(src, Single(open), Cat(l, Single(close)), c, w, d);
    DueSingle(src, open, c, u, e);
    var z;
    y, f, z := DueSplits(src, l, Single(close), e, x, d);
    DueSingle(src, close, f, z, d);
  }

  // ------------------------------------------------------------------------- iteration

  lemma {:induction false} StartsPower(a: Language, n: nat, t: Token)
    requires !Nullable(a) && Starts(Power(a, n), t)
    ensures Starts(a, t)
    decreases n
  {
    var w :| w in Deriv(t, Power(a, n));
    assert |[t] + w| > 0 && [t] + w in Power(a, n);
    if n > 0 {
      var u, v := CatElim(a, Power(a, n - 1), [t] + w);
      assert (u + v)[0] == t && u[0] == t;
      StartsHead(a, u);
    }
  }

  lemma {:induction false} SeparatedPower(a: Language, n: nat)
    requires !Nullable(a) && Separated(a, a)
    ensures Separated(a, Power(a, n))
  {
    forall t | Starts(Power(a, n), t) ensures !Extends(a, t) {
      StartsPower(a, n, t);
    }
  }

  /** The first of n due rounds is due, and the others behind it. */
  lemma {:induction false} DueFirstRound(src: Source, a: Language, n: nat, c: Position, w: Word, d: Position) returns (u: Word, e: Position, x: Word)
    requires n > 0 && !Nullable(a) && Separated(a, a) && Due(src, Power(a, n), c, w, d)
    ensures Due(src, a, c, u, e) && Due(src, Power(a, n - 1), e, x, d)
  {
    SeparatedPower(a, n - 1);
    u, e, x := DueSplits(src, a, Power(a, n - 1), c, w, d);
  }

  /** One more round at the end. */
  lemma {:induction false} PowerSnoc(a: Language, n: nat, w: Word, u: Word)
    requires w in Power(a, n) && u in a
    ensures w + u in Power(a, n + 1)
    decreases n
  {
    if n == 0 {
      CatIntro(a, Power(a, 0), u, []);
      assert w + u == u + [];
    } else {
      var x, y := CatElim(a, Power(a, n - 1), w);
      PowerSnoc(a, n - 1, y, u);
      CatIntro(a, Power(a, n), x, y + u);
      assert x + (y + u) == w + u;
    }
  }

  lemma RangeElim(a: Language, min: nat, max: Option<nat>, w: Word) returns (n: nat)
    requires w in Iterate(a, min, Upper(max))
    ensures min <= n && (max.Some? ==> n <= max.value) && w in Power(a, n)
  {
    n :| min <= n && (Upper(max) < 0 || n <= Upper(max)) && Rounds(a, n, w);
  }

  /** Short of the bound, an iteration goes on with any other round. */
  lemma {:induction false} AnotherRound(a: Language, min: nat, max: Option<nat>, n: nat, w: Word, t: Token)
    requires min <= n && (max.Some? ==> n < max.value) && w in Power(a, n) && Starts(a, t)
    ensures Continues(Iterate(a, min, Upper(max)), w, t)
  {
    var v :| v in Deriv(t, a);
    PowerSnoc(a, n, w, [t] + v);
    RoundsIn(a, n + 1, min, max);
    ContinuesBy(Iterate(a, min, Upper(max)), w, t, v);
  }

  /** A due iteration is a due number of rounds, and no further round can start behind it unless the bound is reached. */
  lemma {:induction false} DueRounds(src: Source, a: Language, min: nat, max: Option<nat>, c: Position, w: Word, d: Position) returns (n: nat)
    requires Due(src, Iterate(a, min, Upper(max)), c, w, d)
    ensures min <= n && (max.Some? ==> n <= max.value) && Due(src, Power(a, n), c, w, d)
    ensures max == Some(n) || !Starts(a, PeekAt(src, d, 0).token)
  {
    n := RangeElim(a, min, max, w);
    RoundsIn(a, n, min, max);
    DueLess(src, Power(a, n), Iterate(a, min, Upper(max)), c, w, d);
    if max != Some(n) && Starts(a, PeekAt(src, d, 0).token) {
      AnotherRound(a, min, max, n, w, PeekAt(src, d, 0).token);
    }
  }
}
