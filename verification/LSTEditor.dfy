/**
 The editor of the syntax tree: heap nodes with parent pointers, child lists and cached
 spans, drawn from a pool and recorded in a creation ledger that a failed rule cuts back.
 Every edit is described by what it does to the forest the heap stands for.
 */
module LSTEditor {
  import opened Grammars
  import opened TokenStreams
  import opened Forests
  import opened Spans

  type Kind = int

  /** A pointer as an optional node. */
  function Pointed(p: LSTNode?): Option<LSTNode> {
    if p == null then None else var node: LSTNode := p; Some(node)
  }

  class LSTNode {
    var id: nat
    var kind: Kind
    var parent: LSTNode?
    var children: seq<LSTNode>
    var tokens: seq<Lexeme>
    var start: nat
    var end: nat
    var spanValid: bool

    constructor (kind: Kind)
      ensures Blank(Look()) && this.kind == kind
    {
      id, this.kind, parent, children, tokens := 0, kind, null, [], [];
      start, end, spanValid := 0, 0, false;
    }

    ghost function Look(): Cell<LSTNode>
      reads this
    {
      Cell(Pointed(parent), children, tokens,
           if spanValid then Some(Span(start, end)) else None)
    }

    /** A node taken from the pool starts over under a new identity. */
    method Restart(id: nat, kind: Kind)
      modifies this
      ensures Blank(Look()) && this.id == id && this.kind == kind
    {
      Reset();
      this.id, this.kind := id, kind;
    }

    /** lstNodeResetForPool; the identity and the kind stay. */
    method Reset()
      modifies `parent, `children, `tokens, `start, `end, `spanValid
      ensures Blank(Look())
    {
      parent, children, tokens := null, [], [];
      start, end, spanValid := 0, 0, false;
    }
  }

  lemma CardinalityBound<T>(a: set<T>, b: set<T>)
    requires a <= b
    ensures |a| <= |b|
  {
    assert a + (b - a) == b;
  }

  /** How many more steps a climb that stands at p may take. */
  ghost function Room<N>(f: Forest<N>, p: Option<N>): nat {
    if p.None? then 0
    else
      CardinalityBound(Subtree(f, p.value), f.Keys);
      1 + |f.Keys| - |Subtree(f, p.value)|
  }

  lemma Climbing<N>(f: Forest<N>, n: N)
    requires IsForest(f) && n in f
    ensures Room(f, f[n].parent) < Room(f, Some(n))
    ensures f[n].parent.Some? ==> f[n].parent.value in f
  {
    CardinalityBound(Subtree(f, n), f.Keys);
    if f[n].parent.Some? {
      assert ParentAgrees(f, n);
      SubtreeShrinks(f, n);
    }
  }

  /** The forest a set of heap nodes stands for. */
  ghost function Seen(nodes: set<LSTNode>): Forest<LSTNode>
    reads nodes
  {
    map n | n in nodes :: n.Look()
  }

  /** The ledger and the pool hold different nodes, each once, and pooled nodes are blank. */
  ghost predicate LedgerOk<N>(f: Forest<N>, created: seq<N>, pool: seq<N>) {
    && NoRepeats(created) && NoRepeats(pool)
    && (forall n :: n in created ==> n in f && n !in pool)
    && (forall n :: n in pool ==> n in f && Blank(f[n]))
  }

  ghost function Ids(created: seq<LSTNode>): seq<nat>
    reads created`id
  {
    if created == [] then [] else Ids(created[..|created| - 1]) + [created[|created| - 1].id]
  }

  /** Identities ascend along the ledger. */
  ghost predicate Numbered(ids: seq<nat>, last: nat) {
    && (forall i :: 0 <= i < |ids| ==> 0 < ids[i] <= last)
    && (forall i, j :: 0 <= i < j < |ids| ==> ids[i] < ids[j])
  }

  lemma OneChanged(before: Forest<LSTNode>, nodes: set<LSTNode>, a: LSTNode)
    requires before.Keys == nodes && a in nodes && forall n :: n in nodes && n != a ==> n.Look() == before[n]
    ensures Seen(nodes) == before[a := a.Look()]
  {
  }

  lemma TwoChanged(before: Forest<LSTNode>, nodes: set<LSTNode>, a: LSTNode, b: LSTNode)
    requires before.Keys == nodes && a in nodes && b in nodes
    requires forall n :: n in nodes && n != a && n != b ==> n.Look() == before[n]
    ensures Seen(nodes) == before[a := a.Look()][b := b.Look()]
  {
  }

  lemma {:induction false} SwappedSeen(before: Forest<LSTNode>, nodes: set<LSTNode>, parent: LSTNode, oldNode: LSTNode, newNode: LSTNode)
    requires before.Keys == nodes && parent in nodes && oldNode in nodes && newNode in nodes
    requires parent != oldNode && oldNode != newNode && before[oldNode].parent == Some(parent)
    requires forall n :: n in nodes && n != parent && n != oldNode && n != newNode ==> n.Look() == before[n]
    requires oldNode.Look() == before[oldNode].(parent := None)
    requires var p := before[parent].(children := Swapped(before[parent].children, oldNode, newNode), span := None);
             && (newNode != parent ==> newNode.Look() == before[newNode].(parent := Some(parent), span := None) && parent.Look() == p)
             && (newNode == parent ==> parent.Look() == p.(parent := Some(parent)))
    ensures Seen(nodes) == Replace(before, oldNode, newNode)
  {
  }

  /** While no edit is pending, the spans in the tree are the true ones. */
  ghost predicate SpansOk<N>(f: Forest<N>, root: Option<N>, dirty: bool) {
    root.Some? ==> root.value in f && (!dirty ==> SpansExactBelow(f, root.value))
  }

  lemma GrowKeepsAll<N>(f: Forest<N>, g: Forest<N>, root: Option<N>, dirty: bool)
    requires IsForest(f) && f.Keys <= g.Keys && (forall n :: n in f ==> g[n] == f[n])
    requires forall n :: n in g && n !in f ==> Blank(g[n])
    requires SpansOk(f, root, dirty)
    ensures IsForest(g) && SpansOk(g, root, dirty)
  {
    GrowKeepsForest(f, g);
    if root.Some? && !dirty {
      GrowKeepsSpans(f, g, root.value);
    }
  }

  lemma PopKeepsLedger<N>(f: Forest<N>, created: seq<N>, pool: seq<N>)
    requires LedgerOk(f, created, pool) && pool != []
    ensures var last := |pool| - 1;
            && LedgerOk(f, created, pool[..last]) && pool[last] !in pool[..last]
            && pool[last] !in created && pool[last] in f && Blank(f[pool[last]])
  {
    var last := |pool| - 1;
    assert pool == pool[..last] + [pool[last]];
    assert pool[last] in pool;
  }

  lemma RecordKeepsLedger<N>(f: Forest<N>, created: seq<N>, pool: seq<N>, n: N)
    requires LedgerOk(f, created, pool) && n in f && n !in pool && n !in created
    ensures LedgerOk(f, created + [n], pool)
  {
  }

  lemma GrowKeepsLedger<N>(f: Forest<N>, g: Forest<N>, created: seq<N>, pool: seq<N>, added: seq<N>)
    requires LedgerOk(f, created, pool) && NoRepeats(added)
    requires f.Keys <= g.Keys && forall n :: n in f ==> g[n] == f[n]
    requires forall n :: n in added ==> n !in f && n in g && Blank(g[n])
    ensures LedgerOk(g, created, pool + added)
  {
    var s := pool + added;
    forall i, j | 0 <= i < j < |s| ensures s[i] != s[j] {
      if i < |pool| <= j {
        assert pool[i] in pool && added[j - |pool|] in added;
      }
    }
  }

  /** An edit that moves no edge and touches no pooled node. */
  lemma TouchKeepsAll<N>(f: Forest<N>, g: Forest<N>, created: seq<N>, pool: seq<N>, root: Option<N>, dirty: bool, n: N)
    requires LedgerOk(f, created, pool) && IsForest(f) && SpansOk(f, root, dirty)
    requires n in f && n !in pool && g.Keys == f.Keys && g == f[n := g[n]]
    requires g[n].parent == f[n].parent && g[n].children == f[n].children
    ensures LedgerOk(g, created, pool) && IsForest(g) && SpansOk(g, root, true)
  {
    SameLinksForest(f, g);
  }

  lemma MoveKeepsLedger<N>(f: Forest<N>, g: Forest<N>, created: seq<N>, pool: seq<N>)
    requires LedgerOk(f, created, pool) && g.Keys == f.Keys && forall n :: n in pool ==> g[n] == f[n]
    ensures LedgerOk(g, created, pool)
  {
  }

  ghost predicate Moving<N>(f: Forest<N>, parent: N, container: N, i: nat) {
    IsForest(f) && parent in f && container in f && i <= |f[container].children| && MovesFree(f, parent, container, i)
  }

  /** A node with a child is not pooled. */
  lemma OwnerNotPooled<N>(f: Forest<N>, created: seq<N>, pool: seq<N>, n: N)
    requires LedgerOk(f, created, pool) && IsForest(f) && n in f && f[n].parent.Some?
    ensures f[n].parent.value in f && n in f[f[n].parent.value].children && f[n].parent.value !in pool
  {
    assert ParentAgrees(f, n);
  }

  lemma {:induction false} IdsTake(created: seq<LSTNode>, n: nat)
    requires n <= |created|
    ensures |Ids(created)| == |created| && Ids(created[..n]) == Ids(created)[..n]
    decreases |created|
  {
    if n < |created| {
      var shorter := created[..|created| - 1];
      IdsTake(shorter, n);
      assert shorter[..n] == created[..n];
      assert Ids(created)[..n] == Ids(shorter)[..n];
    } else if created != [] {
      IdsTake(created[..n - 1], n - 1);
      assert created[..n] == created;
      assert Ids(created)[..n] == Ids(created);
    }
  }

  /** When numbering restarts only an empty ledger is in order. */
  lemma {:induction false} NoneNumbered(created: seq<LSTNode>)
    ensures Numbered(Ids(created), 0) <==> created == []
  {
    IdsTake(created, 0);
    if created != [] {
      var first := Ids(created)[0];
      assert !(0 < first <= 0);
    }
  }

  ghost function Members<N>(s: seq<N>): set<N> {
    set n | n in s
  }

  /** The heap after a cut: the cut nodes are blank and the dropped containers are forgotten. */
  ghost predicate IsCut<N>(f: Forest<N>, g: Forest<N>, cut: set<N>, dropped: set<N>) {
    && g.Keys == f.Keys - dropped
    && forall n :: n in g ==> if n in cut then Blank(g[n]) else g[n] == f[n]
  }

  lemma CutKeepsAll<N>(f: Forest<N>, g: Forest<N>, cut: set<N>, dropped: set<N>, root: Option<N>, dirty: bool)
    requires IsForest(f) && SpansOk(f, root, dirty) && IsCut(f, g, cut, dropped) && CutOff(f, cut + dropped)
    requires root.Some? ==> root.value !in dropped
    ensures IsForest(g) && SpansOk(g, root, dirty)
  {
    var h := Reset(f, cut + dropped);
    ResetKeepsForest(f, cut + dropped);
    forall n | n in g ensures g[n] == h[n] {
    }
    ShrinkKeepsForest(h, g);
    if root.Some? && !dirty {
      ResetKeepsSpans(f, cut + dropped, root.value);
      ShrinkKeepsSpans(h, g, root.value);
    }
  }

  lemma CutKeepsLedger<N>(f: Forest<N>, g: Forest<N>, created: seq<N>, pool: seq<N>, after: nat, dropped: set<N>)
    requires after <= |created| && LedgerOk(f, created, pool) && IsCut(f, g, Members(created[after..]), dropped)
    requires forall n :: n in dropped ==> n !in created && n !in pool
    ensures LedgerOk(g, created[..after], pool + created[after..])
  {
    var kept, cut := created[..after], created[after..];
    forall n | n in kept ensures n in g && n !in pool + cut {
      assert n in created;
      var i :| 0 <= i < after && created[i] == n;
      assert forall j :: 0 <= j < |cut| ==> cut[j] == created[after + j];
    }
    forall n | n in pool + cut ensures n in g && Blank(g[n]) {
      assert n in cut ==> n in created;
    }
    var s := pool + cut;
    forall i, j | 0 <= i < j < |s| ensures s[i] != s[j] {
      if i < |pool| <= j {
        assert s[j] == created[after + j - |pool|] && s[i] in pool && s[j] in created;
      }
    }
  }

  /** A computation of spans from the root leaves pooled nodes blank. */
  lemma SpansKeepAll<N>(f: Forest<N>, g: Forest<N>, created: seq<N>, pool: seq<N>, root: N)
    requires LedgerOk(f, created, pool) && IsForest(f) && root in f
    requires Refreshed(f, f, g, root)
    ensures LedgerOk(g, created, pool) && IsForest(g) && SpansExactBelow(g, root)
  {
    ShapeForest(f, g);
    StoredIsExact(f, g, root);
    forall n | n in pool ensures g[n] == f[n] {
      BlankAlone(f, root, n);
      if n == root {
        AboveParent(f, root, root);
        TokensUnfold(f, root);
        assert TokensBelow(f, root) == iset{};
        SpanUnique(g[root].span, None, iset{});
      }
    }
    MoveKeepsLedger(f, g, created, pool);
  }

  class LSTEditor {
    var nextID: nat
    var root: LSTNode?
    var frozen: bool
    /** Set by every edit since the last full computation of spans. */
    var treeDirty: bool
    /** The ledger of the nodes made, oldest first. */
    var created: seq<LSTNode>
    var nodeFree: seq<LSTNode>
    /** Every node this editor knows: recorded, pooled, or a container that was never recorded. */
    ghost var nodes: set<LSTNode>

    ghost function View(): Forest<LSTNode>
      reads this, nodes
    {
      Seen(nodes)
    }

    ghost predicate Valid()
      reads this, nodes, created
    {
      && !frozen
      && LedgerOk(Seen(nodes), created, nodeFree) && Numbered(Ids(created), nextID)
      && IsForest(Seen(nodes))
      && SpansOk(Seen(nodes), Pointed(root), treeDirty)
    }

    /** The caller may use n: it belongs to this editor and is not pooled. */
    ghost predicate Live(n: LSTNode)
      reads this
    {
      n in nodes && n !in nodeFree
    }

    constructor ()
      ensures Valid() && View() == map[] && created == [] && nodeFree == [] && root == null
    {
      nextID, root, frozen, treeDirty := 0, null, false, false;
      created, nodeFree, nodes := [], [], {};
    }

    // ------------------------------------------------------------------ making nodes

    /** How many nodes the pool gains when it is empty; target is the growth hook's answer, if there is a hook. */
    static function Batch(target: Option<int>): nat {
      if target.None? then 32 else if target.value < 1 then 1 else target.value
    }

    /** A batch of blank nodes. */
    static method MakeBlanks(batch: nat) returns (added: seq<LSTNode>)
      ensures |added| == batch && NoRepeats(added)
      ensures forall n :: n in added ==> fresh(n) && Blank(n.Look())
    {
      added := [];
      for i := 0 to batch
        invariant |added| == i && NoRepeats(added)
        invariant forall n :: n in added ==> fresh(n) && Blank(n.Look())
      {
        var node := new LSTNode(0);
        added := added + [node];
      }
    }

    /** The growing half of nodeAcquire. */
    method GrowPool(batch: nat)
      requires Valid()
      modifies `nodeFree, `nodes
      ensures Valid() && old(nodes) <= nodes && fresh(nodes - old(nodes))
      ensures |nodeFree| == |old(nodeFree)| + batch && old(nodeFree) <= nodeFree
      ensures forall i :: |old(nodeFree)| <= i < |nodeFree| ==> fresh(nodeFree[i])
    {
      var added := MakeBlanks(batch);
      AddBlanks(added);
    }

    /** Fresh nodes join the pool. */
    method AddBlanks(added: seq<LSTNode>)
      requires Valid() && NoRepeats(added) && forall n :: n in added ==> n !in nodes && Blank(n.Look())
      modifies `nodeFree, `nodes
      ensures Valid() && nodeFree == old(nodeFree) + added && nodes == old(nodes) + set n | n in added
    {
      ghost var before := View();
      nodeFree := nodeFree + added;
      nodes := nodes + set n | n in added;
      GrowKeepsLedger(before, View(), created, old(nodeFree), added);
      GrowKeepsAll(before, View(), Pointed(root), treeDirty);
    }

    /** The newest pooled node leaves the pool. */
    method TakePooled() returns (node: LSTNode)
      requires Valid() && nodeFree != []
      modifies `nodeFree
      ensures Valid() && old(nodeFree) == nodeFree + [node]
      ensures node in nodes && node !in nodeFree && node !in created && Blank(node.Look())
    {
      PopKeepsLedger(View(), created, nodeFree);
      var last := |nodeFree| - 1;
      node := nodeFree[last];
      nodeFree := nodeFree[..last];
    }

    /** nodeAcquire. */
    method NodeAcquire(target: Option<int>) returns (node: LSTNode)
      requires Valid()
      modifies `nodeFree, `nodes
      ensures Valid() && old(nodes) <= nodes && fresh(nodes - old(nodes))
      ensures node in nodes && node !in nodeFree && node !in created && Blank(node.Look())
      ensures if old(nodeFree) == [] then fresh(node) && |nodeFree| == Batch(target) - 1
              else old(nodeFree) == nodeFree + [node] && nodes == old(nodes)
    {
      if |nodeFree| == 0 {
        GrowPool(Batch(target));
      }
      ghost var pool := nodeFree;
      node := TakePooled();
      assert node == pool[|pool| - 1];
    }

    method Enroll(node: LSTNode, kind: Kind)
      requires node in nodes && node !in created && Blank(node.Look())
      modifies `created, `nextID, node
      ensures Seen(nodes) == old(Seen(nodes)) && created == old(created) + [node]
      ensures nextID == old(nextID) + 1 && Ids(created) == old(Ids(created)) + [nextID] && node.kind == kind && node.id == nextID
    {
      ghost var before := Seen(nodes);
      nextID := nextID + 1;
      node.Restart(nextID, kind);
      OneChanged(before, nodes, node);
      created := created + [node];
      assert created[..|created| - 1] == old(created);
    }

    /** The node gets the next identity and enters the ledger. */
    method Record(node: LSTNode, kind: Kind)
      requires Valid() && Live(node) && node !in created && Blank(node.Look())
      modifies `created, `nextID, node
      ensures Valid() && View() == old(View()) && created == old(created) + [node]
      ensures nextID == old(nextID) + 1 && node.id == nextID && node.kind == kind
    {
      RecordKeepsLedger(Seen(nodes), created, nodeFree, node);
      Enroll(node, kind);
    }

    /** A detached node with the next identity, recorded in the ledger. */
    method NewNode(kind: Kind, target: Option<int>) returns (node: LSTNode)
      requires Valid()
      modifies `nodeFree, `nodes, `created, `nextID, nodeFree
      ensures Valid() && old(nodes) <= nodes && fresh(nodes - old(nodes))
      ensures created == old(created) + [node] && node !in old(created) && node !in nodeFree
      ensures nextID == old(nextID) + 1 && node.id == nextID && node.kind == kind
      ensures node in nodes && Blank(node.Look())
      ensures forall n :: n in old(nodes) ==> n.Look() == old(n.Look())
      ensures old(nodeFree) != [] ==> old(nodeFree) == nodeFree + [node] && nodes == old(nodes)
    {
      node := NodeAcquire(target);
      assert old(nodeFree) != [] ==> node == old(nodeFree)[|old(nodeFree)| - 1];
      ghost var acquired := View();
      Record(node, kind);
      assert forall n :: n in nodes ==> n.Look() == acquired[n];
    }

    /** A container outside the ledger and the pool. */
    method NewTransientNode(kind: Kind) returns (node: LSTNode)
      requires Valid()
      modifies `nodes
      ensures Valid() && fresh(node) && nodes == old(nodes) + {node} && node.kind == kind
      ensures View() == old(View())[node := Cell(None, [], [], None)]
    {
      ghost var before := View();
      node := new LSTNode(kind);
      nodes := nodes + {node};
      assert View() == before[node := node.Look()];
      GrowKeepsAll(before, View(), Pointed(root), treeDirty);
    }

    // ---------------------------------------------------------------- editing nodes

    /** markDirtyNode. */
    method MarkDirtyNode(node: LSTNode)
      modifies node`spanValid, `treeDirty
      ensures !node.spanValid && treeDirty
    {
      node.spanValid := false;
      treeDirty := true;
    }

    method AddToken(node: LSTNode, token: Lexeme)
      requires Valid() && Live(node)
      modifies node`tokens, node`spanValid, `treeDirty
      ensures Valid() && treeDirty
      ensures View() == old(View())[node := old(View()[node]).(tokens := old(node.tokens) + [token], span := None)]
    {
      ghost var before := View();
      node.tokens := node.tokens + [token];
      MarkDirtyNode(node);
      OneChanged(before, nodes, node);
      TouchKeepsAll(before, View(), created, nodeFree, Pointed(root), old(treeDirty), node);
    }

    /** SetSpan stores a span but leaves it invalid. */
    method SetSpan(node: LSTNode, start: nat, end: nat)
      requires Valid() && Live(node)
      modifies node`start, node`end, node`spanValid, `treeDirty
      ensures Valid() && treeDirty
      ensures View() == old(View())[node := old(View()[node]).(span := None)]
    {
      ghost var before := View();
      node.start, node.end := start, end;
      MarkDirtyNode(node);
      OneChanged(before, nodes, node);
      TouchKeepsAll(before, View(), created, nodeFree, Pointed(root), old(treeDirty), node);
    }

    method SetRoot(node: LSTNode?)
      requires Valid() && (node != null ==> Live(node))
      modifies `root, `treeDirty
      ensures Valid() && root == node && treeDirty
    {
      root := node;
      treeDirty := true;
    }

    /** The cycle check of AttachChild: whether child is parent or one of its ancestors. */
    method ClimbsTo(parent: LSTNode, child: LSTNode) returns (found: bool)
      requires Valid() && parent in nodes
      ensures found == Above(View(), child, parent)
    {
      var p: LSTNode? := parent;
      while p != null
        invariant p != null ==> p in nodes
        invariant Above(View(), child, parent) <==> p != null && Above(View(), child, p)
        decreases Room(View(), Pointed(p))
      {
        AboveParent(View(), child, p);
        if p == child {
          return true;
        }
        Climbing(View(), p);
        p := p.parent;
      }
      return false;
    }

    /** The two ends of a new edge. */
    method JoinEdge(parent: LSTNode, child: LSTNode)
      requires parent != child
      modifies parent`children, parent`spanValid, child`parent, child`spanValid, `treeDirty
      ensures treeDirty && child.Look() == old(child.Look()).(parent := Some(parent), span := None)
      ensures parent.Look() == old(parent.Look()).(children := old(parent.children) + [child], span := None)
    {
      child.parent := parent;
      parent.children := parent.children + [child];
      MarkDirtyNode(child);
      MarkDirtyNode(parent);
    }

    /** The two ends of an edge that goes. */
    method CutEdge(parent: LSTNode, node: LSTNode, i: nat)
      requires parent != node && i < |parent.children| && parent.children[i] == node && node !in parent.children[..i]
      modifies parent`children, parent`spanValid, node`parent, node`spanValid, `treeDirty
      ensures treeDirty && node.Look() == old(node.Look()).(parent := None, span := None)
      ensures parent.Look() == old(parent.Look()).(children := Without(old(parent.children), node), span := None)
    {
      AtIndex(parent.children, node, node, i);
      parent.children := parent.children[..i] + parent.children[i + 1..];
      node.parent := null;
      MarkDirtyNode(node);
      MarkDirtyNode(parent);
    }

    /** The edge itself, once both checks have passed. */
    method Link(parent: LSTNode, child: LSTNode)
      requires Valid() && Live(parent) && Live(child)
      requires child.parent == null && !Above(View(), child, parent)
      modifies parent`children, parent`spanValid, child`parent, child`spanValid, `treeDirty
      ensures Valid() && treeDirty && parent != child && View() == Attach(old(View()), parent, child)
    {
      ghost var before := View();
      AttachKeepsForest(before, parent, child);
      JoinEdge(parent, child);
      TwoChanged(before, nodes, child, parent);
      MoveKeepsLedger(before, View(), created, nodeFree);
    }

    /** A nil child is ignored; a child with a parent, or one that is above its new parent, is refused with a panic. */
    method AttachChild(parent: LSTNode, child: LSTNode?) returns (ok: bool)
      requires Valid() && Live(parent) && (child != null ==> Live(child))
      modifies nodes`parent, nodes`children, nodes`spanValid, `treeDirty
      ensures Valid() && (!ok || child == null ==> View() == old(View()))
      ensures ok == (child == null || (old(child.parent) == null && !Above(old(View()), child, parent)))
      ensures ok && child != null ==> treeDirty && parent != child && View() == Attach(old(View()), parent, child)
    {
      if child == null {
        return true;
      }
      if child.parent != null {
        return false;
      }
      var cycle := ClimbsTo(parent, child);
      if cycle {
        return false;
      }
      Link(parent, child);
      return true;
    }

    /** The edge at a known place in the parent's child list goes. */
    method Unlink(parent: LSTNode, node: LSTNode, i: nat)
      requires Valid() && Live(node) && node.parent == parent && parent in nodes
      requires i < |parent.children| && parent.children[i] == node && node !in parent.children[..i]
      modifies nodes`parent, nodes`children, nodes`spanValid, `treeDirty
      ensures Valid() && treeDirty && parent != node && View() == Forests.Detach(old(View()), node)
    {
      ghost var before := View();
      OwnerNotPooled(before, created, nodeFree, node);
      DetachKeepsForest(before, node);
      CutEdge(parent, node, i);
      TwoChanged(before, nodes, node, parent);
      MoveKeepsLedger(before, View(), created, nodeFree);
    }

    method Detach(node: LSTNode)
      requires Valid() && Live(node)
      modifies nodes`parent, nodes`children, nodes`spanValid, `treeDirty
      ensures Valid() && node.parent == null
      ensures old(node.parent) == null ==> View() == old(View()) && treeDirty == old(treeDirty)
      ensures old(node.parent) != null ==>
                treeDirty && old(node.parent) in nodes && old(node.parent) != node && View() == Forests.Detach(old(View()), node)
    {
      var parent := node.parent;
      if parent == null {
        return;
      }
      OwnerNotPooled(View(), created, nodeFree, node);
      var i := 0;
      while parent.children[i] != node
        invariant 0 <= i < |parent.children| && node in parent.children && node !in parent.children[..i]
        decreases |parent.children| - i
      {
        i := i + 1;
      }
      Unlink(parent, node, i);
    }

    /** A node is attached as it is; a fragment hands over its children in order, up to the first that cannot move. */
    method AttachResult(parent: LSTNode, node: LSTNode?, isFragment: bool) returns (ok: bool)
      requires Valid() && Live(parent) && (node != null ==> Live(node))
      modifies nodes`parent, nodes`children, nodes`spanValid, `treeDirty
      ensures Valid()
      ensures node == null ==> ok && View() == old(View())
      ensures node != null && !isFragment ==>
                && ok == (old(node.parent) == null && !Above(old(View()), node, parent))
                && (ok ==> parent != node && View() == Attach(old(View()), parent, node))
      ensures node != null && isFragment ==>
                && ok == MovesFree(old(View()), parent, node, |old(node.children)|)
                && (ok ==> View() == Moved(old(View()), parent, node, |old(node.children)|))
    {
      if node == null {
        return true;
      }
      if !isFragment {
        ok := AttachChild(parent, node);
        return;
      }
      ok := MoveChildren(parent, node, View());
    }

    method MoveChildren(parent: LSTNode, node: LSTNode, ghost f: Forest<LSTNode>) returns (ok: bool)
      requires Valid() && parent !in nodeFree && Moving(f, parent, node, 0) && Seen(nodes) == f
      modifies nodes`parent, nodes`children, nodes`spanValid, `treeDirty
      ensures Valid() && ok == MovesFree(f, parent, node, |f[node].children|)
      ensures ok ==> Seen(nodes) == Moved(f, parent, node, |f[node].children|)
    {
      var cs := node.children;
      ok := true;
      var i := 0;
      while i < |cs| && ok
        invariant Valid() && i <= |cs|
        invariant if ok then Moving(f, parent, node, i) && Seen(nodes) == Moved(f, parent, node, i)
                  else !MovesFree(f, parent, node, |cs|)
        decreases |cs| - i
      {
        ok := MoveChild(parent, node, f, i, cs[i]);
        i := i + 1;
      }
    }

    method MoveChild(parent: LSTNode, container: LSTNode, ghost f: Forest<LSTNode>, ghost i: nat, child: LSTNode) returns (ok: bool)
      requires Valid() && parent !in nodeFree && Moving(f, parent, container, i) && Seen(nodes) == Moved(f, parent, container, i)
      requires i < |f[container].children| && child == f[container].children[i]
      modifies nodes`parent, nodes`children, nodes`spanValid, `treeDirty
      ensures Valid() && ok == !Above(f, child, parent)
      ensures ok ==> Moving(f, parent, container, i + 1) && Seen(nodes) == Moved(f, parent, container, i + 1)
    {
      NextMove(f, parent, container, i);
      NextMoveChecked(f, parent, container, i);
      if !Above(f, child, parent) {
        MoveOne(f, parent, container, i);
      }
      Detach(child);
      ok := AttachChild(parent, child);
    }

    /** Puts newNode in oldNode's place. It panics on a parentless node and on a replacement that has a parent,
        but does not look for cycles: the tree stays one exactly when newNode is not above the place it takes. */
    method Replace(oldNode: LSTNode, newNode: LSTNode) returns (ok: bool)
      requires Valid() && Live(oldNode) && Live(newNode)
      modifies nodes`parent, nodes`children, nodes`spanValid, `treeDirty
      ensures ok == (old(oldNode.parent) != null && old(newNode.parent) == null)
      ensures !ok ==> Valid() && View() == old(View())
      ensures ok ==> treeDirty && oldNode != newNode && old(oldNode.parent) in nodes && old(oldNode.parent) != oldNode
                     && View() == Forests.Replace(old(View()), oldNode, newNode)
      ensures ok ==> (Valid() <==> !Above(old(View()), newNode, old(oldNode.parent)))
    {
      var parent := oldNode.parent;
      if parent == null || newNode.parent != null {
        return false;
      }
      OwnerNotPooled(View(), created, nodeFree, oldNode);
      var i := 0;
      while parent.children[i] != oldNode
        invariant 0 <= i < |parent.children| && oldNode in parent.children && oldNode !in parent.children[..i]
        decreases |parent.children| - i
      {
        i := i + 1;
      }
      SwapChild(parent, oldNode, newNode, i);
      return true;
    }

    method SwapChild(parent: LSTNode, oldNode: LSTNode, newNode: LSTNode, i: nat)
      requires Valid() && Live(oldNode) && Live(newNode) && oldNode.parent == parent && newNode.parent == null && parent in nodes
      requires i < |parent.children| && parent.children[i] == oldNode && oldNode !in parent.children[..i]
      modifies nodes`parent, nodes`children, nodes`spanValid, `treeDirty
      ensures treeDirty && oldNode != newNode && parent != oldNode && View() == Forests.Replace(old(View()), oldNode, newNode)
      ensures Valid() <==> !Above(old(View()), newNode, parent)
    {
      ghost var before := View();
      OwnerNotPooled(before, created, nodeFree, oldNode);
      ReplaceKeepsForest(before, oldNode, newNode);
      SwapEdge(parent, oldNode, newNode, i);
      SwappedSeen(before, nodes, parent, oldNode, newNode);
      MoveKeepsLedger(before, View(), created, nodeFree);
    }

    method SwapEdge(parent: LSTNode, oldNode: LSTNode, newNode: LSTNode, i: nat)
      requires parent != oldNode && oldNode != newNode
      requires i < |parent.children| && parent.children[i] == oldNode && oldNode !in parent.children[..i]
      modifies parent`children, parent`spanValid, oldNode`parent, newNode`parent, newNode`spanValid, `treeDirty
      ensures treeDirty && oldNode.Look() == old(oldNode.Look()).(parent := None)
      ensures newNode != parent ==>
                && newNode.Look() == old(newNode.Look()).(parent := Some(parent), span := None)
                && parent.Look() == old(parent.Look()).(children := Swapped(old(parent.children), oldNode, newNode), span := None)
      ensures newNode == parent ==>
                parent.Look() == old(parent.Look()).(parent := Some(parent), children := Swapped(old(parent.children), oldNode, newNode), span := None)
    {
      AtIndex(parent.children, oldNode, newNode, i);
      parent.children := parent.children[i := newNode];
      newNode.parent := parent;
      oldNode.parent := null;
      MarkDirtyNode(newNode);
      MarkDirtyNode(parent);
    }

    // ----------------------------------------------------------- cutting the ledger

    /** Resets nodes and pools them, in order. */
    method PoolAll(nodes: seq<LSTNode>)
      modifies `nodeFree, nodes`parent, nodes`children, nodes`tokens, nodes`start, nodes`end, nodes`spanValid
      ensures nodeFree == old(nodeFree) + nodes
      ensures forall n :: n in nodes ==> Blank(n.Look())
    {
      for i := 0 to |nodes|
        invariant nodeFree == old(nodeFree) + nodes[..i]
        invariant forall j :: 0 <= j < i ==> Blank(nodes[j].Look())
      {
        nodes[i].Reset();
        nodeFree := nodeFree + [nodes[i]];
      }
    }

    /** The nodes made since a mark go back to the pool. The caller gives up the containers in dropped with them,
        and nothing it keeps is joined to either. */
    method TruncateCreated(after: int, ghost dropped: set<LSTNode>) returns (ok: bool)
      requires Valid() && (0 <= after <= |created| ==> CanCut(after, dropped))
      modifies `nodeFree, `created, `nodes
      modifies created`parent, created`children, created`tokens, created`start, created`end, created`spanValid
      ensures Valid() && ok == (0 <= after <= |old(created)|)
      ensures !ok ==> View() == old(View()) && created == old(created) && nodeFree == old(nodeFree)
      ensures ok ==> created == old(created)[..after] && nodeFree == old(nodeFree) + old(created)[after..]
      ensures ok ==> IsCut(old(View()), View(), Members(old(created)[after..]), dropped)
    {
      ok := 0 <= after <= |created|;
      if ok {
        CutBack(after, dropped);
      }
    }

    ghost predicate CanCut(after: nat, dropped: set<LSTNode>)
      reads this, nodes
      requires after <= |created|
    {
      && dropped <= nodes && (root != null ==> root !in dropped)
      && (forall n :: n in dropped ==> n !in created && n !in nodeFree)
      && CutOff(Seen(nodes), Members(created[after..]) + dropped)
    }

    method CutHeap(after: nat, ghost dropped: set<LSTNode>)
      requires after <= |created| && forall n :: n in created ==> n in nodes
      modifies `nodeFree, `created, `nodes
      modifies created`parent, created`children, created`tokens, created`start, created`end, created`spanValid
      ensures created == old(created)[..after] && nodeFree == old(nodeFree) + old(created)[after..]
      ensures nodes == old(nodes) - dropped && |old(Ids(created))| == |old(created)| && Ids(created) == old(Ids(created))[..after]
      ensures IsCut(old(Seen(nodes)), Seen(nodes), Members(old(created)[after..]), dropped)
    {
      IdsTake(created, after);
      PoolAll(created[after..]);
      created := created[..after];
      nodes := nodes - dropped;
    }

    method CutBack(after: nat, ghost dropped: set<LSTNode>)
      requires Valid() && after <= |created| && CanCut(after, dropped)
      modifies `nodeFree, `created, `nodes
      modifies created`parent, created`children, created`tokens, created`start, created`end, created`spanValid
      ensures Valid()
      ensures created == old(created)[..after] && nodeFree == old(nodeFree) + old(created)[after..]
      ensures IsCut(old(Seen(nodes)), Seen(nodes), Members(old(created)[after..]), dropped)
    {
      CutHeap(after, dropped);
      CutKeepsLedger(old(Seen(nodes)), Seen(nodes), old(created), old(nodeFree), after, dropped);
      CutKeepsAll(old(Seen(nodes)), Seen(nodes), Members(old(created)[after..]), dropped, Pointed(root), treeDirty);
    }

    // ------------------------------------------------------------------------ spans

    /** The tokens' part of ensureSpanValid. */
    static method SpanOfTokens(tokens: seq<Lexeme>) returns (acc: Option<Span>)
      ensures IsSpanOf(acc, TokensOf(tokens))
    {
      acc := None;
      for i := 0 to |tokens|
        invariant IsSpanOf(acc, TokensOf(tokens[..i]))
      {
        TokenIsSpan(tokens[..i], tokens[i]);
        assert tokens[..i + 1] == tokens[..i] + [tokens[i]];
        MergeIsSpan(acc, TokensOf(tokens[..i]), Span(tokens[i].start, tokens[i].end), iset{tokens[i]});
        acc := Some(Merge(acc, Span(tokens[i].start, tokens[i].end)));
      }
      assert tokens[..|tokens|] == tokens;
    }

    method StoreSpan(node: LSTNode, acc: Option<Span>)
      modifies node`start, node`end, node`spanValid
      ensures node.Look() == old(node.Look()).(span := acc)
    {
      if acc.Some? {
        node.start, node.end, node.spanValid := acc.value.start, acc.value.end, true;
      } else {
        node.spanValid := false;
      }
    }

    /** Recomputes the spans at node and below it, or, unless forced, only those that are not valid; f is the
        forest's shape, which does not change. */
    method EnsureSpanValid(node: LSTNode, force: bool, ghost f: Forest<LSTNode>)
      requires IsForest(f) && f.Keys == nodes && node in f && SameShape(f, Seen(nodes))
      requires force || StoredExactBelow(f, Seen(nodes), node)
      modifies nodes`start, nodes`end, nodes`spanValid
      ensures Refreshed(f, old(Seen(nodes)), Seen(nodes), node)
      ensures !force ==> Seen(nodes) == old(Seen(nodes))
      decreases |Subtree(f, node)|, 1
    {
      AboveParent(f, node, node);
      if node.spanValid && !force {
        return;
      }
      var acc := SpanOfTokens(node.tokens);
      acc := EnsureChildren(node, force, acc, f);
      TokensUnfold(f, node);
      ghost var before := Seen(nodes);
      StoreSpan(node, acc);
      OneChanged(before, nodes, node);
      KidsThenNode(f, old(Seen(nodes)), before, node, acc);
      if !force {
        SpanUnique(before[node].span, acc, TokensBelow(f, node));
      }
    }

    /** The children's part. */
    method EnsureChildren(node: LSTNode, force: bool, base: Option<Span>, ghost f: Forest<LSTNode>) returns (acc: Option<Span>)
      requires IsForest(f) && f.Keys == nodes && node in f && SameShape(f, Seen(nodes))
      requires force || StoredExactBelow(f, Seen(nodes), node)
      requires IsSpanOf(base, TokensOf(f[node].tokens))
      modifies nodes`start, nodes`end, nodes`spanValid
      ensures KidsRefreshed(f, old(Seen(nodes)), Seen(nodes), node, |f[node].children|)
      ensures IsSpanOf(acc, TokensOf(f[node].tokens) + Gathered(f, f[node].children))
      ensures !force ==> Seen(nodes) == old(Seen(nodes))
      decreases |Subtree(f, node)|, 0
    {
      acc := base;
      var cs := node.children;
      ghost var own, was := TokensOf(f[node].tokens), Seen(nodes);
      assert own + Gathered(f, []) == own;
      for i := 0 to |cs|
        invariant cs == f[node].children && KidsRefreshed(f, was, Seen(nodes), node, i)
        invariant IsSpanOf(acc, own + Gathered(f, cs[..i]))
        invariant !force ==> Seen(nodes) == was
      {
        BelowChild(f, node, cs[i]);
        ghost var before := Seen(nodes);
        EnsureSpanValid(cs[i], force, f);
        NextKid(f, was, before, Seen(nodes), node, i);
        AboveParent(f, cs[i], cs[i]);
        SpanStep(f, cs, i, own, acc, Seen(nodes)[cs[i]].span);
        if cs[i].spanValid {
          acc := Some(Merge(acc, Span(cs[i].start, cs[i].end)));
        }
      }
      assert cs[..|cs|] == cs;
    }

    /** Afterwards every node of the tree stores its true span; nothing else has changed. */
    method RefreshTree(node: LSTNode, force: bool)
      requires node in nodes && LedgerOk(Seen(nodes), created, nodeFree) && IsForest(Seen(nodes))
      requires force || SpansExactBelow(Seen(nodes), node)
      modifies nodes`start, nodes`end, nodes`spanValid
      ensures Refreshed(old(Seen(nodes)), old(Seen(nodes)), Seen(nodes), node) && SpansExactBelow(Seen(nodes), node)
      ensures LedgerOk(Seen(nodes), created, nodeFree) && IsForest(Seen(nodes))
      ensures !force ==> Seen(nodes) == old(Seen(nodes))
    {
      ghost var f := Seen(nodes);
      StoredIsExact(f, f, node);
      EnsureSpanValid(node, force, f);
      SpansKeepAll(f, Seen(nodes), created, nodeFree, node);
    }

    /** It panics without a root, and when no edit is pending the spans are already right. */
    method ComputeSpans() returns (ok: bool)
      requires Valid()
      modifies nodes`start, nodes`end, nodes`spanValid, `treeDirty
      ensures Valid() && ok == (root != null)
      ensures ok ==> !treeDirty && SpansExactBelow(View(), root) && Refreshed(old(View()), old(View()), View(), root)
      ensures !ok || !old(treeDirty) ==> View() == old(View())
    {
      if root == null {
        return false;
      }
      RefreshTree(root, treeDirty);
      ghost var g := Seen(nodes);
      treeDirty := false;
      assert Seen(nodes) == g;
      return true;
    }

    /** Ends the session. The flag that would make the tree immutable is cleared again by end, so nothing is ever
        refused as frozen; and the restarted numbering leaves the editor usable again only when its ledger is empty. */
    method Freeze()
      requires Valid()
      modifies nodes`start, nodes`end, nodes`spanValid, `treeDirty, `root, `frozen, `nextID
      ensures root == null && !frozen && !treeDirty && nextID == 0
      ensures old(root) == null ==> View() == old(View())
      ensures old(root) != null ==> Refreshed(old(View()), old(View()), View(), old(root)) && SpansExactBelow(View(), old(root))
      ensures Valid() <==> created == []
    {
      if root != null {
        RefreshTree(root, true);
      }
      ghost var g := Seen(nodes);
      frozen := true;
      End();
      assert Seen(nodes) == g;
      NoneNumbered(created);
    }

    method End()
      modifies `root, `nextID, `frozen, `treeDirty
      ensures root == null && nextID == 0 && !frozen && !treeDirty
    {
      root, nextID, frozen, treeDirty := null, 0, false, false;
    }
  }
}
