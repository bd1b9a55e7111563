/**
 Words over lexer tokens, languages as (possibly infinite) sets of words, and the
 algebra the lowering proofs rest on: concatenation, iteration and the left
 derivative of a language by its first token.
 */
module Languages {

  /** lexarch.TokenKind: an ordered, comparable token identity. */
  type Token = int

  type Word = seq<Token>

  type Language = iset<Word>

  ghost const Empty: Language := iset{}

  ghost const Epsilon: Language := iset{[]}

  ghost function Single(t: Token): Language {
    iset{[t]}
  }

  /** w is u + v for some u in a and some v in b. */
  ghost predicate Splits(a: Language, b: Language, w: Word) {
    exists k :: 0 <= k <= |w| && w[..k] in a && w[k..] in b
  }

  /** All u + v with u from a and v from b. */
  ghost function Cat(a: Language, b: Language): Language {
    iset w: Word | Splits(a, b, w)
  }

  ghost function Power(a: Language, n: nat): Language {
    if n == 0 then Epsilon else Cat(a, Power(a, n - 1))
  }

  /** w is a concatenation of n words of a. */
  ghost predicate Rounds(a: Language, n: nat, w: Word) {
    w in Power(a, n)
  }

  ghost predicate InStar(a: Language, w: Word) {
    exists n: nat :: Rounds(a, n, w)
  }

  ghost predicate InRange(a: Language, min: nat, max: int, w: Word) {
    exists n: nat :: min <= n && (max < 0 || n <= max) && Rounds(a, n, w)
  }

  /** Zero or more words of a. */
  ghost function Star(a: Language): Language {
    iset w: Word | InStar(a, w)
  }

  /** Between min and max words of a (no upper bound when max is negative). */
  ghost function Iterate(a: Language, min: nat, max: int): Language {
    iset w: Word | InRange(a, min, max, w)
  }

  /** What may follow t in the words of a that start with t. */
  ghost function Deriv(t: Token, a: Language): Language {
    iset w: Word | [t] + w in a
  }

  // ---------------------------------------------------------------- Cat

  lemma CatIntro(a: Language, b: Language, u: Word, v: Word)
    requires u in a && v in b
    ensures u + v in Cat(a, b)
  {
    var w := u + v;
    assert w[..|u|] == u && w[|u|..] == v;
    assert Splits(a, b, w);
  }

  lemma CatElim(a: Language, b: Language, w: Word) returns (u: Word, v: Word)
    requires w in Cat(a, b)
    ensures u in a && v in b && w == u + v
  {
    var k :| 0 <= k <= |w| && w[..k] in a && w[k..] in b;
    u, v := w[..k], w[k..];
  }

  lemma CatEpsilonLeft(a: Language, w: Word)
    ensures w in Cat(Epsilon, a) <==> w in a
  {
    if w in a { CatIntro(Epsilon, a, [], w); assert [] + w == w; }
    if w in Cat(Epsilon, a) { var u, v := CatElim(Epsilon, a, w); assert [] + v == v; }
  }

  lemma CatEpsilonRight(a: Language, w: Word)
    ensures w in Cat(a, Epsilon) <==> w in a
  {
    if w in a { CatIntro(a, Epsilon, w, []); assert w + [] == w; }
    if w in Cat(a, Epsilon) { var u, v := CatElim(a, Epsilon, w); assert u + [] == u; }
  }

  lemma CatUnit(a: Language)
    ensures Cat(Epsilon, a) == a && Cat(a, Epsilon) == a
  {
    var l, r := Cat(Epsilon, a), Cat(a, Epsilon);
    assert l == a by {
      forall w: Word ensures w in l <==> w in a { CatEpsilonLeft(a, w); }
    }
    assert r == a by {
      forall w: Word ensures w in r <==> w in a { CatEpsilonRight(a, w); }
    }
  }

  lemma CatEmpty(a: Language)
    ensures Cat(Empty, a) == Empty && Cat(a, Empty) == Empty
  {
  }

  lemma CatAssoc(a: Language, b: Language, c: Language)
    ensures Cat(Cat(a, b), c) == Cat(a, Cat(b, c))
  {
    forall w: Word ensures w in Cat(Cat(a, b), c) <==> w in Cat(a, Cat(b, c)) {
      if w in Cat(Cat(a, b), c) {
        var uv, x := CatElim(Cat(a, b), c, w);
        var u, v := CatElim(a, b, uv);
        CatIntro(b, c, v, x);
        CatIntro(a, Cat(b, c), u, v + x);
        assert u + (v + x) == w;
      }
      if w in Cat(a, Cat(b, c)) {
        var u, vx := CatElim(a, Cat(b, c), w);
        var v, x := CatElim(b, c, vx);
        CatIntro(a, b, u, v);
        CatIntro(Cat(a, b), c, u + v, x);
        assert (u + v) + x == w;
      }
    }
  }

  lemma CatMono(a: Language, b: Language, c: Language, d: Language)
    requires a <= c && b <= d
    ensures Cat(a, b) <= Cat(c, d)
  {
    forall w | w in Cat(a, b) ensures w in Cat(c, d) {
      var u, v := CatElim(a, b, w);
      CatIntro(c, d, u, v);
    }
  }

  lemma CatUnionLeft(a: Language, b: Language, c: Language)
    ensures Cat(a + b, c) == Cat(a, c) + Cat(b, c)
  {
    CatMono(a, c, a + b, c);
    CatMono(b, c, a + b, c);
    forall w | w in Cat(a + b, c) ensures w in Cat(a, c) + Cat(b, c) {
      var u, v := CatElim(a + b, c, w);
      if u in a { CatIntro(a, c, u, v); } else { CatIntro(b, c, u, v); }
    }
  }

  lemma CatNullable(a: Language, b: Language)
    ensures [] in Cat(a, b) <==> [] in a && [] in b
  {
    if [] in a && [] in b { CatIntro(a, b, [], []); }
    if [] in Cat(a, b) { var u, v := CatElim(a, b, []); assert |u| + |v| == 0; }
  }

  lemma CatInhabited(a: Language, b: Language)
    ensures Cat(a, b) != Empty <==> a != Empty && b != Empty
  {
    if a != Empty && b != Empty {
      var u :| u in a;
      var v :| v in b;
      CatIntro(a, b, u, v);
    }
  }

  // --------------------------------------------------------------- Star

  lemma {:induction false} PowerInStar(a: Language, n: nat)
    ensures Power(a, n) <= Star(a)
  {
    forall w | w in Power(a, n) ensures w in Star(a) {
      assert Rounds(a, n, w);
    }
  }

  lemma StarUnfold(a: Language)
    ensures Star(a) == Epsilon + Cat(a, Star(a))
  {
    forall w: Word ensures w in Star(a) <==> w in Epsilon + Cat(a, Star(a)) {
      if w in Star(a) {
        var n: nat :| Rounds(a, n, w);
        if n > 0 {
          var u, v := CatElim(a, Power(a, n - 1), w);
          assert Rounds(a, n - 1, v);
          CatIntro(a, Star(a), u, v);
        }
      }
      if w == [] { assert Rounds(a, 0, w); }
      if w in Cat(a, Star(a)) {
        var u, v := CatElim(a, Star(a), w);
        var n: nat :| Rounds(a, n, v);
        CatIntro(a, Power(a, n), u, v);
        assert Rounds(a, n + 1, w);
      }
    }
  }

  lemma {:induction false} PowerMono(a: Language, b: Language, n: nat)
    requires a <= b
    ensures Power(a, n) <= Power(b, n)
  {
    if n > 0 {
      PowerMono(a, b, n - 1);
      CatMono(a, Power(a, n - 1), b, Power(b, n - 1));
    }
  }

  lemma StarMono(a: Language, b: Language)
    requires a <= b
    ensures Star(a) <= Star(b)
  {
    forall w | w in Star(a) ensures w in Star(b) {
      var n: nat :| Rounds(a, n, w);
      PowerMono(a, b, n);
      assert Rounds(b, n, w);
    }
  }

  lemma {:induction false} PowerCatStar(a: Language, n: nat)
    ensures Cat(Power(a, n), Star(a)) <= Star(a)
  {
    if n == 0 {
      CatUnit(Star(a));
    } else {
      PowerCatStar(a, n - 1);
      CatAssoc(a, Power(a, n - 1), Star(a));
      CatMono(a, Cat(Power(a, n - 1), Star(a)), a, Star(a));
      StarUnfold(a);
    }
  }

  /** A star is contained in every language that holds the empty word and absorbs a on the left. */
  lemma {:induction false} PowerLeast(a: Language, b: Language, n: nat)
    requires [] in b && Cat(a, b) <= b
    ensures Power(a, n) <= b
  {
    if n > 0 {
      PowerLeast(a, b, n - 1);
      CatMono(a, Power(a, n - 1), a, b);
    }
  }

  lemma StarLeast(a: Language, b: Language)
    requires [] in b && Cat(a, b) <= b
    ensures Star(a) <= b
  {
    forall w | w in Star(a) ensures w in b {
      var n: nat :| Rounds(a, n, w);
      PowerLeast(a, b, n);
    }
  }

  lemma IterateStar(a: Language)
    ensures Iterate(a, 0, -1) == Star(a)
  {
  }

  lemma IteratePlus(a: Language)
    ensures Iterate(a, 1, -1) == Cat(a, Star(a))
  {
    forall w: Word ensures w in Iterate(a, 1, -1) <==> w in Cat(a, Star(a)) {
      if w in Iterate(a, 1, -1) {
        var n: nat :| 1 <= n && Rounds(a, n, w);
        var u, v := CatElim(a, Power(a, n - 1), w);
        assert Rounds(a, n - 1, v);
        CatIntro(a, Star(a), u, v);
      }
      if w in Cat(a, Star(a)) {
        var u, v := CatElim(a, Star(a), w);
        var n: nat :| Rounds(a, n, v);
        CatIntro(a, Power(a, n), u, v);
        assert Rounds(a, n + 1, w);
      }
    }
  }

  lemma SingleElim(t: Token, b: Language, w: Word) returns (rest: Word)
    requires w in Cat(Single(t), b)
    ensures w == [t] + rest && rest in b
  {
    var u, v := CatElim(Single(t), b, w);
    rest := v;
  }

  /** One more round in front. */
  lemma StarStep(a: Language, b: Language, u: Word, w: Word)
    requires u in a && w in Cat(Star(a), b)
    ensures u + w in Cat(Star(a), b)
  {
    var x, y := CatElim(Star(a), b, w);
    StarCons(a, u, x);
    CatIntro(Star(a), b, u + x, y);
    assert u + w == u + x + y;
  }

  lemma StarCons(a: Language, u: Word, x: Word)
    requires u in a && x in Star(a)
    ensures u + x in Star(a)
  {
    CatIntro(a, Star(a), u, x);
    StarUnfold(a);
  }

  // -------------------------------------------------------------- Deriv

  lemma DerivUnion(t: Token, a: Language, b: Language)
    ensures Deriv(t, a + b) == Deriv(t, a) + Deriv(t, b)
  {
  }

  lemma DerivSingle(t: Token, u: Token)
    ensures Deriv(t, Single(u)) == if t == u then Epsilon else Empty
    ensures Deriv(t, Epsilon) == Empty
  {
    forall w: Word ensures [t] + w == [u] <==> t == u && w == [] {
      if [t] + w == [u] { assert ([t] + w)[0] == [u][0] && |[t] + w| == 1; }
      if t == u && w == [] { assert [t] + w == [u]; }
    }
    forall w: Word ensures [t] + w != [] { assert |[t] + w| > 0; }
  }

  lemma DerivCat(t: Token, a: Language, b: Language)
    ensures Deriv(t, Cat(a, b)) == Cat(Deriv(t, a), b) + (if [] in a then Deriv(t, b) else Empty)
  {
    forall w: Word
      ensures w in Deriv(t, Cat(a, b)) <==>
              w in Cat(Deriv(t, a), b) + (if [] in a then Deriv(t, b) else Empty)
    {
      if w in Deriv(t, Cat(a, b)) {
        var u, v := CatElim(a, b, [t] + w);
        if u == [] {
          assert v == [t] + w;
        } else {
          assert u[0] == ([t] + w)[0] == t;
          assert [t] + u[1..] == u;
          CatIntro(Deriv(t, a), b, u[1..], v);
          assert w == ([t] + w)[1..] == u[1..] + v;
        }
      }
      if w in Cat(Deriv(t, a), b) {
        var u, v := CatElim(Deriv(t, a), b, w);
        CatIntro(a, b, [t] + u, v);
        assert [t] + w == [t] + u + v;
      }
      if [] in a && w in Deriv(t, b) {
        CatIntro(a, b, [], [t] + w);
        assert [] + ([t] + w) == [t] + w;
      }
    }
  }

  lemma DerivCatConsuming(t: Token, a: Language, b: Language)
    requires [] !in a
    ensures Deriv(t, Cat(a, b)) == Cat(Deriv(t, a), b)
  {
    DerivCat(t, a, b);
  }

  lemma DerivFirst(token: Token, first: Token, tail: Language)
    ensures Deriv(token, Cat(Single(first), tail)) ==
            if token == first then Cat(Epsilon, tail) else Cat(Empty, tail)
  {
    assert [] !in Single(first);
    DerivCatConsuming(token, Single(first), tail);
    DerivSingle(token, first);
  }

  /** A language that must start with one given token. */
  lemma SingleCat(token: Token, first: Token, tail: Language)
    ensures Deriv(token, Cat(Single(first), tail)) == if token == first then tail else Empty
    ensures [] !in Cat(Single(first), tail)
  {
    assert Deriv(token, Cat(Single(first), tail)) == if token == first then tail else Empty by {
      DerivFirst(token, first, tail);
      CatUnit(tail);
      CatEmpty(tail);
    }
    CatNullable(Single(first), tail);
  }

  lemma {:induction false} DerivPower(t: Token, a: Language, n: nat)
    ensures Deriv(t, Power(a, n)) <= Cat(Deriv(t, a), Star(a))
  {
    if n == 0 {
      DerivSingle(t, t);
    } else {
      DerivPower(t, a, n - 1);
      DerivCat(t, a, Power(a, n - 1));
      PowerInStar(a, n - 1);
      CatMono(Deriv(t, a), Power(a, n - 1), Deriv(t, a), Star(a));
    }
  }

  /** The derivative of an iteration peels off its first non-empty round, even when a is nullable. */
  lemma DerivStar(t: Token, a: Language)
    ensures Deriv(t, Star(a)) == Cat(Deriv(t, a), Star(a))
    ensures Deriv(t, Cat(a, Star(a))) == Cat(Deriv(t, a), Star(a))
  {
    forall w | w in Deriv(t, Star(a)) ensures w in Cat(Deriv(t, a), Star(a)) {
      var n: nat :| Rounds(a, n, [t] + w);
      DerivPower(t, a, n);
      assert w in Deriv(t, Power(a, n));
    }
    DerivCat(t, a, Star(a));
    StarUnfold(a);
    DerivUnion(t, Epsilon, Cat(a, Star(a)));
    DerivSingle(t, t);
  }

  /** A language is determined by its nullability and its derivatives. */
  lemma DerivExtensional(a: Language, b: Language)
    requires [] in a <==> [] in b
    requires forall t: Token :: Deriv(t, a) == Deriv(t, b)
    ensures a == b
  {
    forall w: Word ensures w in a <==> w in b {
      if w != [] {
        assert w == [w[0]] + w[1..];
        assert w in a <==> w[1..] in Deriv(w[0], a);
        assert w in b <==> w[1..] in Deriv(w[0], b);
      }
    }
  }
}
