/**
 The span of a tree node: the smallest start and the largest end of the tokens held in its
 subtree, and none when the subtree holds no token.
 */
module Spans {
  import opened Grammars
  import opened TokenStreams
  import opened Forests

  ghost predicate HoldsToken<N>(f: Forest<N>, n: N, t: Lexeme) {
    exists m :: m in f && Above(f, n, m) && t in f[m].tokens
  }

  ghost function TokensBelow<N>(f: Forest<N>, n: N): iset<Lexeme> {
    iset t | HoldsToken(f, n, t)
  }

  ghost predicate IsSpanOf(s: Option<Span>, ts: iset<Lexeme>) {
    match s
    case None => ts == iset{}
    case Some(span) =>
      && (forall t :: t in ts ==> span.start <= t.start && t.end <= span.end)
      && (exists t :: t in ts && t.start == span.start)
      && (exists t :: t in ts && t.end == span.end)
  }

  /** The spans stored at n and below it are the true ones. */
  ghost predicate SpansExactBelow<N>(f: Forest<N>, n: N) {
    forall m {:trigger Above(f, n, m)} :: m in f && Above(f, n, m) ==> IsSpanOf(f[m].span, TokensBelow(f, m))
  }

  lemma SpanUnique(a: Option<Span>, b: Option<Span>, ts: iset<Lexeme>)
    requires IsSpanOf(a, ts) && IsSpanOf(b, ts)
    ensures a == b
  {
    if a.Some? {
      var t :| t in ts && t.start == a.value.start;
      var u :| u in ts && u.end == a.value.end;
    }
    if b.Some? {
      var t :| t in ts && t.start == b.value.start;
      var u :| u in ts && u.end == b.value.end;
    }
  }

  /** merge; an absent base is the empty accumulator. */
  function Merge(base: Option<Span>, next: Span): Span {
    if base.None? then next
    else Span(if next.start < base.value.start then next.start else base.value.start,
              if next.end > base.value.end then next.end else base.value.end)
  }

  lemma MergeIsSpan(base: Option<Span>, held: iset<Lexeme>, next: Span, more: iset<Lexeme>)
    requires IsSpanOf(base, held) && IsSpanOf(Some(next), more)
    ensures IsSpanOf(Some(Merge(base, next)), held + more)
  {
    var m := Merge(base, next);
    var s :| s in more && s.start == next.start;
    var e :| e in more && e.end == next.end;
    assert s in held + more && e in held + more;
    if base.Some? {
      var s0 :| s0 in held && s0.start == base.value.start;
      var e0 :| e0 in held && e0.end == base.value.end;
      assert s0 in held + more && e0 in held + more;
    }
  }

  ghost function TokensOf(ls: seq<Lexeme>): iset<Lexeme> {
    iset t | t in ls
  }

  lemma TokenIsSpan(held: seq<Lexeme>, t: Lexeme)
    ensures IsSpanOf(Some(Span(t.start, t.end)), iset{t})
    ensures TokensOf(held + [t]) == TokensOf(held) + iset{t}
  {
    assert t in iset{t};
  }

  // ------------------------------------------------------- a node from its children

  ghost function Gathered<N>(f: Forest<N>, cs: seq<N>): iset<Lexeme> {
    if cs == [] then iset{} else Gathered(f, cs[..|cs| - 1]) + TokensBelow(f, cs[|cs| - 1])
  }

  lemma {:induction false} GatheredHas<N>(f: Forest<N>, cs: seq<N>, t: Lexeme)
    ensures t in Gathered(f, cs) <==> exists i :: 0 <= i < |cs| && HoldsToken(f, cs[i], t)
    decreases |cs|
  {
    if cs != [] {
      var below := cs[..|cs| - 1];
      GatheredHas(f, below, t);
      if t in Gathered(f, below) {
        var i :| 0 <= i < |below| && HoldsToken(f, below[i], t);
        assert HoldsToken(f, cs[i], t);
      }
      if i :| 0 <= i < |cs| && HoldsToken(f, cs[i], t) {
        assert i < |below| ==> HoldsToken(f, below[i], t);
      }
    }
  }

  lemma {:induction false} GatheredPrefix<N>(f: Forest<N>, cs: seq<N>, i: nat)
    requires i < |cs|
    ensures Gathered(f, cs[..i + 1]) == Gathered(f, cs[..i]) + TokensBelow(f, cs[i])
  {
    assert cs[..i + 1][..i] == cs[..i];
  }

  lemma StepBelow<N>(f: Forest<N>, n: N, m: N)
    requires Agreed(f) && n in f && m in f && Above(f, n, m) && m != n
    ensures exists i :: 0 <= i < |f[n].children| && Above(f, f[n].children[i], m)
  {
    var k: nat :| Climb(f, m, k) == Some(n);
    ClimbLast(f, m, k);
    var c := Climb(f, m, k - 1).value;
    ClimbStays(f, m, k - 1);
    assert ParentAgrees(f, c);
    assert Above(f, c, m);
  }

  lemma {:induction false} ClimbLast<N>(f: Forest<N>, m: N, k: nat)
    requires k > 0 && Climb(f, m, k).Some?
    ensures Climb(f, m, k - 1).Some? && ParentOf(f, Climb(f, m, k - 1).value) == Climb(f, m, k)
    decreases k
  {
    if k > 1 {
      ClimbLast(f, ParentOf(f, m).value, k - 1);
    } else {
      assert Climb(f, ParentOf(f, m).value, 0) == ParentOf(f, m);
    }
  }

  /** The tokens below a node are its own and those below its children. */
  lemma {:induction false} TokensUnfold<N>(f: Forest<N>, n: N)
    requires Agreed(f) && n in f
    ensures TokensBelow(f, n) == TokensOf(f[n].tokens) + Gathered(f, f[n].children)
  {
    var cs := f[n].children;
    AboveParent(f, n, n);
    forall t ensures t in TokensBelow(f, n) <==> t in TokensOf(f[n].tokens) + Gathered(f, cs) {
      GatheredHas(f, cs, t);
      if t in TokensBelow(f, n) && t !in f[n].tokens {
        var m :| m in f && Above(f, n, m) && t in f[m].tokens;
        StepBelow(f, n, m);
        var i :| 0 <= i < |cs| && Above(f, cs[i], m);
        assert HoldsToken(f, cs[i], t);
      }
      if i :| 0 <= i < |cs| && HoldsToken(f, cs[i], t) {
        var m :| m in f && Above(f, cs[i], m) && t in f[m].tokens;
        assert KidsAgree(f, n) && cs[i] in f[n].children;
        AboveParent(f, n, cs[i]);
        AboveTrans(f, n, cs[i], m);
      }
    }
  }

  // ---------------------------------------------------- shapes, and edits that keep them

  /** g differs from f in stored spans only. */
  ghost predicate SameShape<N>(f: Forest<N>, g: Forest<N>) {
    g.Keys == f.Keys && forall n :: n in f ==> g[n] == f[n].(span := g[n].span)
  }

  lemma ShapeAbove<N>(f: Forest<N>, g: Forest<N>, a: N, n: N)
    requires SameShape(f, g)
    ensures Above(f, a, n) <==> Above(g, a, n)
  {
    if k: nat :| Climb(f, n, k) == Some(a) {
      SameClimb(f, g, n, k);
    }
    if k: nat :| Climb(g, n, k) == Some(a) {
      SameClimb(g, f, n, k);
    }
  }

  lemma ShapeTokens<N>(f: Forest<N>, g: Forest<N>, n: N)
    requires SameShape(f, g)
    ensures TokensBelow(f, n) == TokensBelow(g, n)
  {
    forall t ensures HoldsToken(f, n, t) <==> HoldsToken(g, n, t) {
      if m :| m in f && Above(f, n, m) && t in f[m].tokens {
        ShapeAbove(f, g, n, m);
      }
      if m :| m in g && Above(g, n, m) && t in g[m].tokens {
        ShapeAbove(f, g, n, m);
      }
    }
  }

  lemma ShapeForest<N>(f: Forest<N>, g: Forest<N>)
    requires SameShape(f, g) && IsForest(f)
    ensures IsForest(g)
  {
    SameLinksForest(f, g);
  }

  /** The subtree of root looks the same in both forests. */
  ghost predicate SameBelow<N>(f: Forest<N>, g: Forest<N>, root: N) {
    && (forall m :: m in g && Above(g, root, m) ==> m in f && Above(f, root, m) && g[m] == f[m])
    && (forall m, h :: m in g && h in g && Above(g, root, m) && Above(g, m, h) ==> h in f && Above(f, m, h))
    && (forall m, h :: m in g && h in f && Above(g, root, m) && Above(f, m, h) ==> h in g && Above(g, m, h))
  }

  lemma SameBelowExact<N>(f: Forest<N>, g: Forest<N>, root: N)
    requires SpansExactBelow(f, root) && SameBelow(f, g, root)
    ensures SpansExactBelow(g, root)
  {
    forall m | m in g && Above(g, root, m) ensures IsSpanOf(g[m].span, TokensBelow(g, m)) {
      forall t ensures HoldsToken(f, m, t) <==> HoldsToken(g, m, t) {
        if h :| h in f && Above(f, m, h) && t in f[h].tokens {
          AboveTrans(g, root, m, h);
        }
        if h :| h in g && Above(g, m, h) && t in g[h].tokens {
          AboveTrans(g, root, m, h);
        }
      }
      assert TokensBelow(f, m) == TokensBelow(g, m);
    }
  }

  /** Blank nodes have no relatives. */
  lemma BlankAlone<N>(f: Forest<N>, a: N, n: N)
    requires n in f && Blank(f[n])
    ensures Above(f, a, n) <==> a == n
  {
    AboveParent(f, a, n);
  }

  lemma GrowAbove<N>(f: Forest<N>, g: Forest<N>, a: N, n: N)
    requires Agreed(f) && f.Keys <= g.Keys && (forall m :: m in f ==> g[m] == f[m]) && n in f
    ensures Above(f, a, n) <==> Above(g, a, n)
  {
    forall k: nat ensures Climb(f, n, k) == Climb(g, n, k) {
      forall j: nat | j < k && Climb(f, n, j).Some?
        ensures ParentOf(g, Climb(f, n, j).value) == ParentOf(f, Climb(f, n, j).value)
      {
        ClimbStays(f, n, j);
      }
      SameClimb(f, g, n, k);
    }
  }

  lemma GrowKeepsSpans<N>(f: Forest<N>, g: Forest<N>, root: N)
    requires IsForest(f) && f.Keys <= g.Keys && (forall n :: n in f ==> g[n] == f[n])
    requires forall n :: n in g && n !in f ==> Blank(g[n])
    requires root in f && SpansExactBelow(f, root)
    ensures SpansExactBelow(g, root)
  {
    forall m | m in g && Above(g, root, m) ensures m in f && Above(f, root, m) && g[m] == f[m] {
      if m !in f {
        BlankAlone(g, root, m);
      } else {
        GrowAbove(f, g, root, m);
      }
    }
    forall m, h | m in g && h in g && Above(g, root, m) && Above(g, m, h) ensures h in f && Above(f, m, h) {
      if h !in f {
        BlankAlone(g, m, h);
      } else {
        GrowAbove(f, g, m, h);
      }
    }
    forall m, h | m in g && h in f && Above(g, root, m) && Above(f, m, h) ensures h in g && Above(g, m, h) {
      GrowAbove(f, g, m, h);
    }
    SameBelowExact(f, g, root);
  }

  lemma ShrinkKeepsSpans<N>(f: Forest<N>, g: Forest<N>, root: N)
    requires IsForest(f) && g.Keys <= f.Keys && (forall n :: n in g ==> g[n] == f[n])
    requires forall n :: n in f && n !in g ==> Blank(f[n])
    requires root in g && SpansExactBelow(f, root)
    ensures SpansExactBelow(g, root)
  {
    ShrinkKeepsForest(f, g);
    forall m | m in g && Above(g, root, m) ensures m in f && Above(f, root, m) && g[m] == f[m] {
      GrowAbove(g, f, root, m);
    }
    forall m, h | m in g && h in g && Above(g, root, m) && Above(g, m, h) ensures h in f && Above(f, m, h) {
      GrowAbove(g, f, m, h);
    }
    forall m, h | m in g && h in f && Above(g, root, m) && Above(f, m, h) ensures h in g && Above(g, m, h) {
      if h !in g {
        BlankAlone(f, m, h);
      } else {
        GrowAbove(g, f, m, h);
      }
    }
    SameBelowExact(f, g, root);
  }

  /** With no edge across, a climb that starts outside the set stays outside, and one that starts inside stays inside. */
  lemma {:induction false} ClimbKeepsSide<N>(f: Forest<N>, s: set<N>, n: N, k: nat)
    requires IsForest(f) && CutOff(f, s) && n in f && Climb(f, n, k).Some?
    ensures Climb(f, n, k).value in s <==> n in s
    decreases k
  {
    if k > 0 {
      assert ParentAgrees(f, n);
      ClimbKeepsSide(f, s, f[n].parent.value, k - 1);
    }
  }

  lemma ResetAbove<N>(f: Forest<N>, s: set<N>, a: N, n: N)
    requires IsForest(f) && CutOff(f, s) && n in f
    ensures Above(Reset(f, s), a, n) <==> if n in s then a == n else Above(f, a, n)
    ensures Above(f, a, n) ==> (a in s <==> n in s)
  {
    var g := Reset(f, s);
    if k: nat :| Climb(f, n, k) == Some(a) {
      ClimbKeepsSide(f, s, n, k);
    }
    if n in s {
      BlankAlone(g, a, n);
    } else {
      forall k: nat ensures Climb(f, n, k) == Climb(g, n, k) {
        forall j: nat | j < k && Climb(f, n, j).Some?
          ensures ParentOf(g, Climb(f, n, j).value) == ParentOf(f, Climb(f, n, j).value)
        {
          ClimbKeepsSide(f, s, n, j);
        }
        SameClimb(f, g, n, k);
      }
    }
  }

  lemma ResetKeepsSpans<N>(f: Forest<N>, s: set<N>, root: N)
    requires IsForest(f) && CutOff(f, s) && root in f && SpansExactBelow(f, root)
    ensures SpansExactBelow(Reset(f, s), root)
  {
    var g := Reset(f, s);
    ResetAbove(f, s, root, root);
    if root in s {
      forall m | m in g && Above(g, root, m) ensures IsSpanOf(g[m].span, TokensBelow(g, m)) {
        ResetAbove(f, s, root, m);
        forall t ensures !HoldsToken(g, m, t) {
          if h :| h in g && Above(g, m, h) && t in g[h].tokens {
            ResetAbove(f, s, m, h);
          }
        }
        assert TokensBelow(g, m) == iset{};
      }
    } else {
      forall m | m in g && Above(g, root, m) ensures m in f && m !in s && Above(f, root, m) && g[m] == f[m] {
        ResetAbove(f, s, root, m);
      }
      forall m, h | m in g && h in g && Above(g, root, m) && Above(g, m, h) ensures h in f && Above(f, m, h) {
        ResetAbove(f, s, m, h);
      }
      forall m, h | m in g && h in f && Above(g, root, m) && Above(f, m, h) ensures h in g && Above(g, m, h) {
        ResetAbove(f, s, m, h);
      }
      SameBelowExact(f, g, root);
    }
  }

  lemma {:induction false} SpanStep<N>(f: Forest<N>, cs: seq<N>, i: nat, own: iset<Lexeme>, acc: Option<Span>, next: Option<Span>)
    requires i < |cs| && IsSpanOf(acc, own + Gathered(f, cs[..i])) && IsSpanOf(next, TokensBelow(f, cs[i]))
    ensures IsSpanOf(if next.None? then acc else Some(Merge(acc, next.value)), own + Gathered(f, cs[..i + 1]))
  {
    GatheredPrefix(f, cs, i);
    assert own + Gathered(f, cs[..i + 1]) == own + Gathered(f, cs[..i]) + TokensBelow(f, cs[i]);
    if next.Some? {
      MergeIsSpan(acc, own + Gathered(f, cs[..i]), next.value, TokensBelow(f, cs[i]));
    } else {
      assert own + Gathered(f, cs[..i]) + TokensBelow(f, cs[i]) == own + Gathered(f, cs[..i]);
    }
  }

  /** SpansExactBelow for the spans stored in g, over the shape of f. */
  ghost predicate StoredExactBelow<N>(f: Forest<N>, g: Forest<N>, n: N)
    requires g.Keys == f.Keys
  {
    forall m {:trigger Above(f, n, m)} :: m in f && Above(f, n, m) ==> IsSpanOf(g[m].span, TokensBelow(f, m))
  }

  lemma StoredIsExact<N>(f: Forest<N>, g: Forest<N>, n: N)
    requires SameShape(f, g)
    ensures StoredExactBelow(f, g, n) <==> SpansExactBelow(g, n)
  {
    forall m | m in f ensures TokensBelow(f, m) == TokensBelow(g, m) && (Above(f, n, m) <==> Above(g, n, m)) {
      ShapeTokens(f, g, m);
      ShapeAbove(f, g, n, m);
    }
  }

  /** The step from g to h computes the spans at n and below it over the shape of f, and touches nothing else. */
  ghost predicate Refreshed<N>(f: Forest<N>, g: Forest<N>, h: Forest<N>, n: N) {
    && SameShape(f, g) && SameShape(f, h) && StoredExactBelow(f, h, n)
    && forall m :: m in f && !Above(f, n, m) ==> h[m] == g[m]
  }

  /** The step from g to h computes the spans below the first i children of n, and touches no node outside n's children. */
  ghost predicate KidsRefreshed<N>(f: Forest<N>, g: Forest<N>, h: Forest<N>, n: N, i: nat)
    requires n in f && i <= |f[n].children|
  {
    && SameShape(f, g) && SameShape(f, h)
    && (forall j :: 0 <= j < i ==> StoredExactBelow(f, h, f[n].children[j]))
    && forall m :: m in f && (m == n || !Above(f, n, m)) ==> h[m] == g[m]
  }

  lemma NextKid<N>(f: Forest<N>, g: Forest<N>, h: Forest<N>, k: Forest<N>, n: N, i: nat)
    requires IsForest(f) && n in f && i < |f[n].children|
    requires KidsRefreshed(f, g, h, n, i) && Refreshed(f, h, k, f[n].children[i])
    ensures KidsRefreshed(f, g, k, n, i + 1)
  {
    var c := f[n].children[i];
    BelowChild(f, n, c);
    forall j | 0 <= j < i ensures StoredExactBelow(f, k, f[n].children[j]) {
      forall m | m in f && Above(f, f[n].children[j], m) ensures IsSpanOf(k[m].span, TokensBelow(f, m)) {
        if Above(f, c, m) {
          assert StoredExactBelow(f, k, c);
        } else {
          assert StoredExactBelow(f, h, f[n].children[j]);
        }
      }
    }
  }

  lemma KidsThenNode<N>(f: Forest<N>, g: Forest<N>, h: Forest<N>, n: N, s: Option<Span>)
    requires IsForest(f) && n in f && KidsRefreshed(f, g, h, n, |f[n].children|) && IsSpanOf(s, TokensBelow(f, n))
    ensures Refreshed(f, g, h[n := h[n].(span := s)], n)
  {
    var k := h[n := h[n].(span := s)];
    AboveParent(f, n, n);
    forall m | m in f && Above(f, n, m) ensures IsSpanOf(k[m].span, TokensBelow(f, m)) {
      if m != n {
        StepBelow(f, n, m);
        var i :| 0 <= i < |f[n].children| && Above(f, f[n].children[i], m);
        assert StoredExactBelow(f, h, f[n].children[i]);
      }
    }
  }

  lemma BelowChild<N>(f: Forest<N>, n: N, c: N)
    requires IsForest(f) && n in f && c in f[n].children
    ensures c in f && f[c].parent == Some(n) && !Above(f, c, n) && |Subtree(f, c)| < |Subtree(f, n)|
    ensures forall m :: Above(f, c, m) ==> Above(f, n, m)
  {
    assert KidsAgree(f, n);
    NotAboveParent(f, c);
    SubtreeShrinks(f, c);
    AboveParent(f, n, n);
    AboveParent(f, n, c);
    forall m | Above(f, c, m) ensures Above(f, n, m) {
      AboveTrans(f, n, c, m);
    }
  }
}
