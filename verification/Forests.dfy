/**
 Forests of tree nodes as values: what the tree editor's heap looks like at one moment.
 A node's parent pointer and its parent's child list describe the same edge twice; this
 module says when they agree, that no chain of parents closes, and what each edit of the
 editor does to both.
 */
module Forests {
  import opened Grammars
  import opened TokenStreams

  datatype Span = Span(start: nat, end: nat)

  datatype Cell<N> = Cell(parent: Option<N>, children: seq<N>, tokens: seq<Lexeme>, span: Option<Span>)

  type Forest<!N> = map<N, Cell<N>>

  predicate NoRepeats<T(==)>(s: seq<T>) {
    forall i, j :: 0 <= i < j < |s| ==> s[i] != s[j]
  }

  predicate Blank<N>(c: Cell<N>) {
    c.parent.None? && c.children == [] && c.tokens == [] && c.span.None?
  }

  // ------------------------------------------------------------------- the invariant

  ghost predicate KidsAgree<N>(f: Forest<N>, n: N)
    requires n in f
  {
    NoRepeats(f[n].children) && forall c {:trigger c in f[n].children} :: c in f[n].children ==> c in f && f[c].parent == Some(n)
  }

  ghost predicate ParentAgrees<N>(f: Forest<N>, n: N)
    requires n in f
  {
    f[n].parent.Some? ==> f[n].parent.value in f && n in f[f[n].parent.value].children
  }

  /** Parent pointers and child lists describe the same edges, each once. */
  ghost predicate Agreed<N>(f: Forest<N>) {
    forall n {:trigger KidsAgree(f, n)} {:trigger ParentAgrees(f, n)} :: n in f ==> KidsAgree(f, n) && ParentAgrees(f, n)
  }

  function ParentOf<N>(f: Forest<N>, n: N): Option<N> {
    if n in f then f[n].parent else None
  }

  /** Where k steps along the parent pointers lead. */
  function Climb<N>(f: Forest<N>, n: N, k: nat): Option<N>
    decreases k
  {
    if k == 0 then Some(n)
    else if ParentOf(f, n).Some? then Climb(f, ParentOf(f, n).value, k - 1)
    else None
  }

  /** a is n or one of its ancestors. */
  ghost predicate Above<N>(f: Forest<N>, a: N, n: N) {
    exists k: nat :: Climb(f, n, k) == Some(a)
  }

  ghost predicate Acyclic<N>(f: Forest<N>) {
    forall n, k: nat {:trigger Climb(f, n, k)} :: n in f && k > 0 ==> Climb(f, n, k) != Some(n)
  }

  ghost predicate IsForest<N>(f: Forest<N>) {
    Agreed(f) && Acyclic(f)
  }

  // ------------------------------------------------------------------------ climbing

  lemma AboveParent<N>(f: Forest<N>, a: N, n: N)
    ensures Above(f, a, n) <==> a == n || (ParentOf(f, n).Some? && Above(f, a, ParentOf(f, n).value))
  {
    assert Climb(f, n, 0) == Some(n);
    if Above(f, a, n) && a != n {
      var k: nat :| Climb(f, n, k) == Some(a);
      assert Climb(f, ParentOf(f, n).value, k - 1) == Some(a);
    }
    if a != n && ParentOf(f, n).Some? && Above(f, a, ParentOf(f, n).value) {
      var k: nat :| Climb(f, ParentOf(f, n).value, k) == Some(a);
      assert Climb(f, n, k + 1) == Some(a);
    }
  }

  lemma {:induction false} ClimbOn<N>(f: Forest<N>, n: N, j: nat, k: nat)
    requires Climb(f, n, j).Some?
    ensures Climb(f, n, j + k) == Climb(f, Climb(f, n, j).value, k)
    decreases j
  {
    if j > 0 {
      ClimbOn(f, ParentOf(f, n).value, j - 1, k);
    }
  }

  lemma AboveTrans<N>(f: Forest<N>, a: N, b: N, c: N)
    requires Above(f, a, b) && Above(f, b, c)
    ensures Above(f, a, c)
  {
    var j: nat :| Climb(f, c, j) == Some(b);
    var k: nat :| Climb(f, b, k) == Some(a);
    ClimbOn(f, c, j, k);
  }

  /** A climb sees only the parents of the nodes it passes. */
  lemma {:induction false} SameClimb<N>(f: Forest<N>, g: Forest<N>, n: N, k: nat)
    requires forall j: nat :: j < k && Climb(f, n, j).Some? ==>
               ParentOf(g, Climb(f, n, j).value) == ParentOf(f, Climb(f, n, j).value)
    ensures Climb(g, n, k) == Climb(f, n, k)
    decreases k
  {
    if k > 0 {
      assert Climb(f, n, 0) == Some(n);
      if ParentOf(f, n).Some? {
        forall j: nat | j < k - 1 && Climb(f, ParentOf(f, n).value, j).Some?
          ensures ParentOf(g, Climb(f, ParentOf(f, n).value, j).value) == ParentOf(f, Climb(f, ParentOf(f, n).value, j).value)
        {
          assert Climb(f, n, j + 1) == Climb(f, ParentOf(f, n).value, j);
        }
        SameClimb(f, g, ParentOf(f, n).value, k - 1);
      }
    }
  }

  lemma {:induction false} ClimbStays<N>(f: Forest<N>, n: N, k: nat)
    requires Agreed(f) && n in f
    ensures Climb(f, n, k).Some? ==> Climb(f, n, k).value in f
    decreases k
  {
    if k > 0 && f[n].parent.Some? {
      assert ParentAgrees(f, n);
      ClimbStays(f, f[n].parent.value, k - 1);
    }
  }

  // ---------------------------------------------------------------- cycles and ranks

  /** Every parent outranks its children. */
  ghost predicate Ranked<N>(f: Forest<N>, rank: map<N, nat>) {
    && rank.Keys == f.Keys
    && forall n :: n in f && f[n].parent.Some? ==> f[n].parent.value in f && rank[n] < rank[f[n].parent.value]
  }

  lemma {:induction false} RankClimbs<N>(f: Forest<N>, rank: map<N, nat>, n: N, k: nat)
    requires Ranked(f, rank) && n in f && Climb(f, n, k).Some?
    ensures Climb(f, n, k).value in f && rank[Climb(f, n, k).value] >= rank[n] + k
    decreases k
  {
    if k > 0 {
      RankClimbs(f, rank, f[n].parent.value, k - 1);
    }
  }

  lemma RankedIsAcyclic<N>(f: Forest<N>, rank: map<N, nat>)
    requires Ranked(f, rank)
    ensures Acyclic(f)
  {
    forall n, k: nat | n in f && k > 0 ensures Climb(f, n, k) != Some(n) {
      if Climb(f, n, k) == Some(n) {
        RankClimbs(f, rank, n, k);
      }
    }
  }

  lemma {:induction false} ClosedChain<N>(f: Forest<N>, n: N, k: nat)
    requires n in f && f[n].parent.Some? && Climb(f, f[n].parent.value, k) == Some(n)
    ensures !Acyclic(f)
  {
    assert Climb(f, n, k + 1) == Some(n);
  }

  lemma NotAboveParent<N>(f: Forest<N>, n: N)
    requires IsForest(f) && n in f && f[n].parent.Some?
    ensures f[n].parent.value in f && f[n].parent.value != n && !Above(f, n, f[n].parent.value)
  {
    var p := f[n].parent.value;
    assert ParentAgrees(f, n);
    AboveParent(f, n, p);
    if Above(f, n, p) {
      var k: nat :| Climb(f, p, k) == Some(n);
      ClosedChain(f, n, k);
    }
  }

  ghost function Subtree<N>(f: Forest<N>, n: N): set<N> {
    set m | m in f && Above(f, n, m)
  }

  lemma SmallerSet<N>(a: set<N>, b: set<N>, x: N)
    requires a <= b && x in b && x !in a
    ensures |a| < |b|
  {
    assert a + (b - a) == b;
    assert x in b - a;
  }

  /** A child's subtree is strictly smaller than its parent's. */
  lemma SubtreeShrinks<N>(f: Forest<N>, n: N)
    requires IsForest(f) && n in f && f[n].parent.Some?
    ensures |Subtree(f, n)| < |Subtree(f, f[n].parent.value)|
  {
    var p := f[n].parent.value;
    assert ParentAgrees(f, n);
    AboveParent(f, p, p);
    AboveParent(f, p, n);
    forall m | m in Subtree(f, n) ensures m in Subtree(f, p) {
      AboveTrans(f, p, n, m);
    }
    NotAboveParent(f, n);
    SmallerSet(Subtree(f, n), Subtree(f, p), p);
  }

  ghost function Sizes<N>(f: Forest<N>): map<N, nat> {
    map n | n in f :: |Subtree(f, n)|
  }

  lemma ForestIsRanked<N>(f: Forest<N>)
    requires IsForest(f)
    ensures Ranked(f, Sizes(f))
  {
    forall n | n in f && f[n].parent.Some?
      ensures f[n].parent.value in f && Sizes(f)[n] < Sizes(f)[f[n].parent.value]
    {
      assert ParentAgrees(f, n);
      SubtreeShrinks(f, n);
    }
  }

  /** g has the parents of f except that child is now below parent; other nodes may have lost theirs. */
  ghost predicate Linked<N>(f: Forest<N>, g: Forest<N>, child: N, parent: N) {
    && g.Keys == f.Keys && child in f && parent in f && g[child].parent == Some(parent)
    && forall n :: n in f && n != child ==> g[n].parent == f[n].parent || g[n].parent.None?
  }

  /** A new edge closes no cycle when the child is not above its new parent. */
  lemma LinkIsAcyclic<N>(f: Forest<N>, g: Forest<N>, child: N, parent: N)
    requires IsForest(f) && Linked(f, g, child, parent) && !Above(f, child, parent)
    ensures Acyclic(g)
  {
    ForestIsRanked(f);
    var sizes := Sizes(f);
    var raised := map n | n in f :: if Above(f, n, parent) then sizes[n] + sizes[child] + 1 else sizes[n];
    AboveParent(f, parent, parent);
    forall n | n in g && g[n].parent.Some?
      ensures g[n].parent.value in g && raised[n] < raised[g[n].parent.value]
    {
      if n != child {
        var p := f[n].parent.value;
        assert sizes[n] < sizes[p];
        if Above(f, n, parent) {
          AboveParent(f, p, p);
          AboveParent(f, p, n);
          AboveTrans(f, p, n, parent);
        }
      }
    }
    RankedIsAcyclic(g, raised);
  }

  /** And closes one when it is. */
  lemma LinkCloses<N>(f: Forest<N>, g: Forest<N>, child: N, parent: N)
    requires Linked(f, g, child, parent) && f[child].parent.None? && Above(f, child, parent)
    requires forall n :: n in f && n != child && Above(f, n, parent) ==> g[n].parent == f[n].parent
    ensures !Acyclic(g)
  {
    var k: nat :| Climb(f, parent, k) == Some(child);
    forall j: nat | j < k && Climb(f, parent, j).Some?
      ensures ParentOf(g, Climb(f, parent, j).value) == ParentOf(f, Climb(f, parent, j).value)
    {
      var x := Climb(f, parent, j).value;
      ClimbOn(f, parent, j, k - j);
      assert x != child;
    }
    SameClimb(f, g, parent, k);
    assert Climb(g, child, k + 1) == Some(child);
  }

  /** Dropping parents closes no cycle. */
  lemma UnlinkIsAcyclic<N>(f: Forest<N>, g: Forest<N>)
    requires IsForest(f) && g.Keys == f.Keys
    requires forall n :: n in f ==> g[n].parent == f[n].parent || g[n].parent.None?
    ensures Acyclic(g)
  {
    ForestIsRanked(f);
    RankedIsAcyclic(g, Sizes(f));
  }

  // --------------------------------------------------------------------------- edits

  function Without<T(==)>(s: seq<T>, x: T): seq<T> {
    if s == [] then [] else if s[0] == x then s[1..] else [s[0]] + Without(s[1..], x)
  }

  ghost predicate AllBut<T>(r: seq<T>, s: seq<T>, x: T) {
    (forall y :: y in r ==> y in s && y != x) && (forall y :: y in s && y != x ==> y in r)
  }

  ghost predicate Exchanged<T>(r: seq<T>, s: seq<T>, x: T, y: T) {
    (forall z :: z in r ==> (z in s && z != x) || z == y) && (forall z :: z in s && z != x ==> z in r)
  }

  function Swapped<T(==)>(s: seq<T>, x: T, y: T): seq<T> {
    if s == [] then [] else if s[0] == x then [y] + s[1..] else [s[0]] + Swapped(s[1..], x, y)
  }

  /** AttachChild. */
  function Attach<N>(f: Forest<N>, parent: N, child: N): Forest<N>
    requires parent in f && child in f && parent != child
  {
    f[child := f[child].(parent := Some(parent), span := None)]
     [parent := f[parent].(children := f[parent].children + [child], span := None)]
  }

  /** Detach, of a node that has a parent. */
  function Detach<N(==)>(f: Forest<N>, node: N): Forest<N>
    requires node in f && f[node].parent.Some? && f[node].parent.value in f && f[node].parent.value != node
  {
    var parent := f[node].parent.value;
    f[node := f[node].(parent := None, span := None)]
     [parent := f[parent].(children := Without(f[parent].children, node), span := None)]
  }

  /** Replace, of a node that has a parent. */
  function Replace<N(==)>(f: Forest<N>, oldNode: N, newNode: N): Forest<N>
    requires oldNode in f && newNode in f && oldNode != newNode
    requires f[oldNode].parent.Some? && f[oldNode].parent.value in f && f[oldNode].parent.value != oldNode
  {
    var parent := f[oldNode].parent.value;
    var g := f[oldNode := f[oldNode].(parent := None)][newNode := f[newNode].(parent := Some(parent), span := None)];
    g[parent := g[parent].(children := Swapped(g[parent].children, oldNode, newNode), span := None)]
  }

  /** lstNodeResetForPool, for every node of a set. */
  function Reset<N>(f: Forest<N>, s: set<N>): Forest<N> {
    map n | n in f :: if n in s then Cell(None, [], [], None) else f[n]
  }

  /** AttachChild on a parentless node that is not above its new parent. */
  lemma AttachKeepsForest<N>(f: Forest<N>, parent: N, child: N)
    requires IsForest(f) && parent in f && child in f && f[child].parent.None? && !Above(f, child, parent)
    ensures parent != child && IsForest(Attach(f, parent, child))
  {
    AboveParent(f, child, parent);
    var g := Attach(f, parent, child);
    LinkIsAcyclic(f, g, child, parent);
    forall n | n in g ensures KidsAgree(g, n) && ParentAgrees(g, n) {
      assert KidsAgree(f, n) && ParentAgrees(f, n);
      if n == parent {
        assert child !in f[parent].children;
      } else {
        assert g[n].children == f[n].children;
      }
      if n != child && g[n].parent == Some(parent) {
        assert n in g[parent].children;
      }
    }
  }

  lemma {:induction false} WithoutOne<T>(s: seq<T>, x: T)
    requires NoRepeats(s)
    ensures NoRepeats(Without(s, x)) && AllBut(Without(s, x), s, x)
    decreases |s|
  {
    if s != [] {
      assert s == [s[0]] + s[1..];
      assert s[0] !in s[1..] by {
        assert forall j :: 1 <= j < |s| ==> s[0] != s[j];
      }
      if s[0] != x {
        WithoutOne(s[1..], x);
        assert s[0] !in Without(s[1..], x);
      }
    }
  }

  lemma {:induction false} AtIndex<T>(s: seq<T>, x: T, y: T, i: nat)
    requires i < |s| && s[i] == x && x !in s[..i]
    ensures Without(s, x) == s[..i] + s[i + 1..] && Swapped(s, x, y) == s[i := y]
    decreases i
  {
    if i > 0 {
      var rest := s[1..];
      assert s[0] in s[..i];
      assert rest[..i - 1] == s[1..i] && s[..i] == [s[0]] + s[1..i];
      AtIndex(rest, x, y, i - 1);
      assert Without(s, x) == [s[0]] + (rest[..i - 1] + rest[i..]);
      assert rest[i..] == s[i + 1..];
      assert Swapped(s, x, y) == [s[0]] + rest[i - 1 := y];
    } else {
      assert s[..0] + s[1..] == s[1..];
    }
  }

  lemma DetachKeepsForest<N>(f: Forest<N>, node: N)
    requires IsForest(f) && node in f && f[node].parent.Some?
    ensures f[node].parent.value in f && f[node].parent.value != node && IsForest(Detach(f, node))
  {
    NotAboveParent(f, node);
    assert ParentAgrees(f, node);
    var parent := f[node].parent.value;
    var g := Detach(f, node);
    UnlinkIsAcyclic(f, g);
    assert KidsAgree(f, parent);
    WithoutOne(f[parent].children, node);
    forall n | n in g ensures KidsAgree(g, n) && ParentAgrees(g, n) {
      assert KidsAgree(f, n) && ParentAgrees(f, n);
      assert n != parent ==> node !in f[n].children;
    }
  }

  lemma {:induction false} SwappedOne<T>(s: seq<T>, x: T, y: T)
    requires NoRepeats(s) && y !in s && x in s
    ensures NoRepeats(Swapped(s, x, y)) && Exchanged(Swapped(s, x, y), s, x, y) && y in Swapped(s, x, y)
    decreases |s|
  {
    assert s == [s[0]] + s[1..];
    assert s[0] !in s[1..] by {
      assert forall j :: 1 <= j < |s| ==> s[0] != s[j];
    }
    if s[0] != x {
      SwappedOne(s[1..], x, y);
      assert s[0] !in Swapped(s[1..], x, y);
    }
  }

  /** Replace always keeps the two descriptions in step. */
  lemma ReplaceAgrees<N>(f: Forest<N>, oldNode: N, newNode: N)
    requires IsForest(f) && oldNode in f && newNode in f && f[oldNode].parent.Some? && f[newNode].parent.None?
    ensures f[oldNode].parent.value in f && f[oldNode].parent.value != oldNode && Agreed(Replace(f, oldNode, newNode))
  {
    NotAboveParent(f, oldNode);
    assert ParentAgrees(f, oldNode);
    var parent := f[oldNode].parent.value;
    var g := Replace(f, oldNode, newNode);
    assert KidsAgree(f, parent);
    assert newNode !in f[parent].children;
    assert g[parent].children == Swapped(f[parent].children, oldNode, newNode);
    SwappedOne(f[parent].children, oldNode, newNode);
    forall n | n in g ensures KidsAgree(g, n) && ParentAgrees(g, n) {
      assert KidsAgree(f, n) && ParentAgrees(f, n);
      assert newNode !in f[n].children;
      assert n != parent ==> g[n].children == f[n].children && oldNode !in f[n].children;
    }
  }

  /** Replace, which does not look for cycles, makes one exactly when the new node is above the replaced node's parent. */
  lemma ReplaceKeepsForest<N>(f: Forest<N>, oldNode: N, newNode: N)
    requires IsForest(f) && oldNode in f && newNode in f && f[oldNode].parent.Some? && f[newNode].parent.None?
    ensures f[oldNode].parent.value in f && f[oldNode].parent.value != oldNode
    ensures IsForest(Replace(f, oldNode, newNode)) <==> !Above(f, newNode, f[oldNode].parent.value)
  {
    ReplaceAgrees(f, oldNode, newNode);
    var parent := f[oldNode].parent.value;
    var g := Replace(f, oldNode, newNode);
    assert Linked(f, g, newNode, parent);
    if Above(f, newNode, parent) {
      NotAboveParent(f, oldNode);
      LinkCloses(f, g, newNode, parent);
    } else {
      LinkIsAcyclic(f, g, newNode, parent);
    }
  }

  /** No edge joins the set to the rest. */
  ghost predicate CutOff<N>(f: Forest<N>, s: set<N>) {
    && (forall n :: n in f && n !in s && f[n].parent.Some? ==> f[n].parent.value !in s)
    && (forall n, c :: n in f && n !in s && c in f[n].children ==> c !in s)
  }

  /** Resetting nodes keeps the forest exactly when nothing outside is joined to them. */
  lemma ResetKeepsForest<N>(f: Forest<N>, s: set<N>)
    requires IsForest(f)
    ensures IsForest(Reset(f, s)) <==> CutOff(f, s)
  {
    var g := Reset(f, s);
    UnlinkIsAcyclic(f, g);
    if CutOff(f, s) {
      forall n | n in g ensures KidsAgree(g, n) && ParentAgrees(g, n) {
        assert KidsAgree(f, n) && ParentAgrees(f, n);
      }
    }
    if Agreed(g) {
      forall n | n in f && n !in s && f[n].parent.Some? ensures f[n].parent.value !in s {
        assert ParentAgrees(g, n);
      }
      forall n, c | n in f && n !in s && c in f[n].children ensures c !in s {
        assert KidsAgree(f, n) && KidsAgree(g, n);
      }
    }
  }

  /** Fresh blank nodes join no edge. */
  lemma GrowKeepsForest<N>(f: Forest<N>, g: Forest<N>)
    requires IsForest(f) && f.Keys <= g.Keys && (forall n :: n in f ==> g[n] == f[n])
    requires forall n :: n in g && n !in f ==> Blank(g[n])
    ensures IsForest(g)
  {
    ForestIsRanked(f);
    var rank: map<N, nat> := map n | n in g :: if n in f then Sizes(f)[n] else 0;
    assert Ranked(g, rank);
    RankedIsAcyclic(g, rank);
    forall n | n in g ensures KidsAgree(g, n) && ParentAgrees(g, n) {
      if n in f {
        assert KidsAgree(f, n) && ParentAgrees(f, n);
      }
    }
  }

  /** Whether a node is above another does not depend on the parents of nodes off the path. */
  lemma SameAbove<N>(f: Forest<N>, g: Forest<N>, a: N, n: N)
    requires IsForest(f) && n in f
    requires forall x :: x in f && x != a && Above(f, x, n) ==> ParentOf(g, x) == ParentOf(f, x)
    ensures Above(f, a, n) <==> Above(g, a, n)
  {
    if k: nat :| Climb(f, n, k) == Some(a) {
      ClimbStays(f, n, k);
      forall j: nat | j < k && Climb(f, n, j).Some?
        ensures ParentOf(g, Climb(f, n, j).value) == ParentOf(f, Climb(f, n, j).value)
      {
        ClimbStays(f, n, j);
        ClimbOn(f, n, j, k - j);
        assert Above(f, Climb(f, n, j).value, n);
      }
      SameClimb(f, g, n, k);
    } else {
      forall k: nat ensures Climb(g, n, k) == Climb(f, n, k) {
        forall j: nat | j < k && Climb(f, n, j).Some?
          ensures ParentOf(g, Climb(f, n, j).value) == ParentOf(f, Climb(f, n, j).value)
        {
          ClimbStays(f, n, j);
          assert Above(f, Climb(f, n, j).value, n);
        }
        SameClimb(f, g, n, k);
      }
    }
  }

  lemma SameLinksForest<N>(f: Forest<N>, g: Forest<N>)
    requires IsForest(f) && g.Keys == f.Keys
    requires forall n :: n in f ==> g[n].parent == f[n].parent && g[n].children == f[n].children
    ensures IsForest(g)
  {
    UnlinkIsAcyclic(f, g);
    forall n | n in g ensures KidsAgree(g, n) && ParentAgrees(g, n) {
      assert KidsAgree(f, n) && ParentAgrees(f, n);
    }
  }

  /** Forgetting blank nodes loses no edge. */
  lemma ShrinkKeepsForest<N>(f: Forest<N>, g: Forest<N>)
    requires IsForest(f) && g.Keys <= f.Keys && (forall n :: n in g ==> g[n] == f[n])
    requires forall n :: n in f && n !in g ==> Blank(f[n])
    ensures IsForest(g)
  {
    forall n | n in g ensures KidsAgree(g, n) && ParentAgrees(g, n) {
      assert KidsAgree(f, n) && ParentAgrees(f, n);
    }
    ForestIsRanked(f);
    var sizes := Sizes(f);
    RankedIsAcyclic(g, map n | n in g :: sizes[n]);
  }

  // ------------------------------------------------------------------- fragments

  /** After the first i children of a container have moved, in order, to the end of parent's. */
  function Moved<N(==)>(f: Forest<N>, parent: N, container: N, i: nat): Forest<N>
    requires parent in f && container in f && i <= |f[container].children|
  {
    if i == 0 then f
    else
      var cs := f[container].children;
      map n | n in f ::
        if n in cs[..i] then f[n].(parent := Some(parent), span := None)
        else if n == parent || n == container then
          f[n].(children := (if n == container then cs[i..] else f[n].children) + (if n == parent then cs[..i] else []), span := None)
        else f[n]
  }

  /** None of the first i children of the container is parent or above it. */
  ghost predicate MovesFree<N>(f: Forest<N>, parent: N, container: N, i: nat)
    requires container in f && i <= |f[container].children|
  {
    forall j {:trigger Above(f, f[container].children[j], parent)} :: 0 <= j < i ==> !Above(f, f[container].children[j], parent)
  }

  lemma MovesOff<N>(f: Forest<N>, parent: N, container: N, i: nat)
    requires IsForest(f) && parent in f && container in f && i <= |f[container].children| && MovesFree(f, parent, container, i)
    ensures forall n :: n in f[container].children[..i] ==> n != parent && n != container && !Above(f, n, parent)
  {
    var cs := f[container].children;
    assert KidsAgree(f, container);
    forall n | n in cs[..i] ensures n != parent && n != container && !Above(f, n, parent) {
      var j :| 0 <= j < i && cs[j] == n;
      AboveParent(f, n, parent);
      assert n in cs;
      NotAboveParent(f, n);
    }
  }

  lemma NextMove<N>(f: Forest<N>, parent: N, container: N, i: nat)
    requires IsForest(f) && parent in f && container in f && i < |f[container].children| && MovesFree(f, parent, container, i)
    ensures var g, c := Moved(f, parent, container, i), f[container].children[i];
            && c in g && c != container && g[c].parent == Some(container) && g.Keys == f.Keys
            && c !in f[container].children[..i]
            && (g[container].children == f[container].children[i..] + if container == parent then f[container].children[..i] else [])
  {
    var cs := f[container].children;
    assert KidsAgree(f, container) && cs[i] in cs;
    NotAboveParent(f, cs[i]);
    MovesOff(f, parent, container, i);
  }

  /** Whether the next child is above parent is not affected by the moves made. */
  lemma NextMoveChecked<N>(f: Forest<N>, parent: N, container: N, i: nat)
    requires IsForest(f) && parent in f && container in f && i < |f[container].children| && MovesFree(f, parent, container, i)
    ensures var g, c := Moved(f, parent, container, i), f[container].children[i];
            && c in g && g[c].parent == Some(container) && container in g && c != container
            && (Above(Detach(g, c), c, parent) <==> Above(f, c, parent))
  {
    NextMove(f, parent, container, i);
    MovesOff(f, parent, container, i);
    var g, c := Moved(f, parent, container, i), f[container].children[i];
    SameAbove(f, Detach(g, c), c, parent);
  }

  lemma {:induction false} CutFront<T>(cs: seq<T>, i: nat, tail: seq<T>)
    requires i < |cs|
    ensures Without(cs[i..] + tail, cs[i]) == cs[i + 1..] + tail
  {
    assert (cs[i..] + tail)[1..] == cs[i + 1..] + tail;
  }

  ghost predicate CanMove<N>(f: Forest<N>, g: Forest<N>, parent: N, container: N, c: N) {
    && c in g && container in g && parent in g && g.Keys == f.Keys
    && g[c].parent == Some(container) && c != container && c != parent
  }

  lemma MoveReady<N>(f: Forest<N>, parent: N, container: N, i: nat)
    requires IsForest(f) && parent in f && container in f && i < |f[container].children| && MovesFree(f, parent, container, i + 1)
    ensures CanMove(f, Moved(f, parent, container, i), parent, container, f[container].children[i])
  {
    NextMove(f, parent, container, i);
    MovesOff(f, parent, container, i + 1);
    var cs := f[container].children;
    assert cs[i] in cs[..i + 1];
  }

  lemma MoveOneAt<N>(f: Forest<N>, parent: N, container: N, i: nat, n: N)
    requires IsForest(f) && parent in f && container in f && i < |f[container].children| && MovesFree(f, parent, container, i + 1)
    requires CanMove(f, Moved(f, parent, container, i), parent, container, f[container].children[i])
    requires n in f
    ensures var g, c := Moved(f, parent, container, i), f[container].children[i];
            Attach(Detach(g, c), parent, c)[n] == Moved(f, parent, container, i + 1)[n]
  {
    NextMove(f, parent, container, i);
    MovesOff(f, parent, container, i + 1);
    var cs := f[container].children;
    var c := cs[i];
    assert cs[..i + 1] == cs[..i] + [c];
    assert cs[i..] + [] == cs[i..] && cs[i + 1..] + [] == cs[i + 1..];
    if n == container {
      CutFront(cs, i, if container == parent then cs[..i] else []);
      assert (cs[i + 1..] + cs[..i]) + [c] == cs[i + 1..] + cs[..i + 1];
    } else if n == parent {
      assert (f[n].children + cs[..i]) + [c] == f[n].children + cs[..i + 1];
      assert f[n].children + [] == f[n].children;
    }
  }

  /** Detaching the next child and attaching it to parent is the next stage of the move. */
  lemma MoveOne<N>(f: Forest<N>, parent: N, container: N, i: nat)
    requires IsForest(f) && parent in f && container in f && i < |f[container].children| && MovesFree(f, parent, container, i + 1)
    ensures var g, c := Moved(f, parent, container, i), f[container].children[i];
            CanMove(f, g, parent, container, c) && Attach(Detach(g, c), parent, c) == Moved(f, parent, container, i + 1)
  {
    MoveReady(f, parent, container, i);
    var g, c := Moved(f, parent, container, i), f[container].children[i];
    var h, next := Attach(Detach(g, c), parent, c), Moved(f, parent, container, i + 1);
    forall n | n in f ensures h[n] == next[n] {
      MoveOneAt(f, parent, container, i, n);
    }
    assert h.Keys == f.Keys && next.Keys == f.Keys;
  }
}
