/**
 The pass behind ToPatternGrammar: node addresses are assigned once, the nodes reachable
 from the roots are collected in post-order, and a rule is emitted for each.
 */
module PatternGrammarPass {
  import opened Grammars
  import opened PatternGrammar

  // ------------------------------------------------------------------ addresses

  /** assignPathRec: addresses a tree from its root down; an addressed subtree is left alone. */
  function WithPaths(g: Grammar, current: Path): Grammar
    decreases g, 0
  {
    if g.info.path.Some? then g
    else
      var info := g.info.(path := Some(current));
      match g
      case GToken(_, token) => GToken(info, token)
      case GConcat(_, children) => GConcat(info, WithPathsAll(children, current, 0))
      case GChoice(_, children) => GChoice(info, WithPathsAll(children, current, 0))
      case GRepeat(_, body, min, max) => GRepeat(info, WithPaths(body, current + [0]), min, max)
      case GOptional(_, body) => GOptional(info, WithPaths(body, current + [0]))
      case GEpsilon(_) => GEpsilon(info)
      case GNest(_, open, close, body) => GNest(info, open, close, WithPaths(body, current + [0]))
      case GReference(_, target) => GReference(info, target)
  }

  function WithPathsAll(gs: seq<Grammar>, current: Path, i: nat): (r: seq<Grammar>)
    ensures |r| == |gs|
    ensures forall k :: 0 <= k < |gs| ==> r[k] == WithPaths(gs[k], current + [i + k])
    decreases gs
  {
    if gs == [] then [] else [WithPaths(gs[0], current + [i])] + WithPathsAll(gs[1..], current, i + 1)
  }

  /** finalizeGraphPaths: the entry tree, then the disconnected ones, each under its own root. */
  function FinalizePaths(roots: seq<Grammar>): seq<Grammar> {
    seq(|roots|, (i: nat) requires i < |roots| => WithPaths(roots[i], [i]))
  }

  ghost predicate InTree(n: Grammar, g: Grammar)
    decreases g
  {
    n == g || exists c :: c in ChildrenOf(g) && InTree(n, c)
  }

  ghost predicate Unaddressed(g: Grammar) {
    g.info.path.None? && forall c :: c in ChildrenOf(g) ==> Unaddressed(c)
  }

  lemma ChildPath(g: Grammar, current: Path, c: Grammar) returns (i: nat)
    requires Unaddressed(g) && c in ChildrenOf(WithPaths(g, current))
    ensures i < |ChildrenOf(g)| && c == WithPaths(ChildrenOf(g)[i], current + [i])
    ensures Unaddressed(ChildrenOf(g)[i]) && ChildrenOf(g)[i] < g
  {
    i :| 0 <= i < |ChildrenOf(WithPaths(g, current))| && ChildrenOf(WithPaths(g, current))[i] == c;
    assert ChildrenOf(g)[i] in ChildrenOf(g);
    ChildrenSmaller(g, ChildrenOf(g)[i]);
  }

  lemma {:induction false} PathsExtend(g: Grammar, current: Path, n: Grammar)
    requires Unaddressed(g) && InTree(n, WithPaths(g, current))
    ensures n.info.path.Some? && current <= NameOf(n)
    ensures NameOf(n) == current ==> n == WithPaths(g, current)
    decreases g
  {
    if n != WithPaths(g, current) {
      var c :| c in ChildrenOf(WithPaths(g, current)) && InTree(n, c);
      var i := ChildPath(g, current, c);
      PathsExtend(ChildrenOf(g)[i], current + [i], n);
    }
  }

  /** Within one tree no two nodes share an address. */
  lemma {:induction false} PathsDistinct(g: Grammar, current: Path, a: Grammar, b: Grammar)
    requires Unaddressed(g) && InTree(a, WithPaths(g, current)) && InTree(b, WithPaths(g, current))
    requires NameOf(a) == NameOf(b)
    ensures a == b
    decreases g
  {
    PathsExtend(g, current, a);
    PathsExtend(g, current, b);
    if NameOf(a) != current {
      var c :| c in ChildrenOf(WithPaths(g, current)) && InTree(a, c);
      var d :| d in ChildrenOf(WithPaths(g, current)) && InTree(b, d);
      var i := ChildPath(g, current, c);
      var j := ChildPath(g, current, d);
      PathsExtend(ChildrenOf(g)[i], current + [i], a);
      PathsExtend(ChildrenOf(g)[j], current + [j], b);
      assert NameOf(a)[|current|] == (current + [i])[|current|] == i;
      assert NameOf(b)[|current|] == (current + [j])[|current|] == j;
      PathsDistinct(ChildrenOf(g)[i], current + [i], a, b);
    }
  }

  /** Across the whole package an address names one node. */
  lemma {:induction false} PackagePathsDistinct(roots: seq<Grammar>, i: nat, j: nat, a: Grammar, b: Grammar)
    requires forall k :: 0 <= k < |roots| ==> Unaddressed(roots[k])
    requires i < |roots| && j < |roots|
    requires InTree(a, FinalizePaths(roots)[i]) && InTree(b, FinalizePaths(roots)[j])
    ensures NameOf(a) == NameOf(b) ==> a == b
  {
    PathsExtend(roots[i], [i], a);
    PathsExtend(roots[j], [j], b);
    if NameOf(a) == NameOf(b) {
      assert i == NameOf(a)[0] == j;
      PathsDistinct(roots[i], [i], a, b);
    }
  }

  // ----------------------------------------------------------------- collection

  /** An addressed package: closed under successors, one node per address, references resolved. */
  ghost predicate Addressed(rules: Rules, all: set<Grammar>) {
    && (forall g :: g in all ==> g.info.path.Some? && (g.GReference? ==> g.target in rules))
    && (forall g :: g in all ==> SuccessorsIn(rules, g, all))
    && (forall a, b :: a in all && b in all && NameOf(a) == NameOf(b) ==> a == b)
  }

  ghost predicate SuccessorsIn(rules: Rules, g: Grammar, all: set<Grammar>) {
    forall c :: c in Successors(rules, g) ==> c in all
  }

  ghost predicate ClosedNodes(rules: Rules, s: set<Grammar>) {
    forall g :: g in s ==> SuccessorsIn(rules, g, s)
  }

  /** All nodes of a tree. */
  ghost function NodesOf(g: Grammar): (all: set<Grammar>)
    decreases g, 1
  {
    {g} + NodesOfAll(ChildrenOf(g), g)
  }

  ghost function NodesOfAll(gs: seq<Grammar>, parent: Grammar): (all: set<Grammar>)
    requires forall c :: c in gs ==> c < parent
    decreases parent, 0, |gs|
  {
    if gs == [] then {}
    else
      assert gs[0] in gs && forall c :: c in gs[1..] ==> c in gs;
      NodesOf(gs[0]) + NodesOfAll(gs[1..], parent)
  }

  lemma {:induction false} NodesAreInTree(g: Grammar, n: Grammar)
    ensures n in NodesOf(g) <==> InTree(n, g)
    decreases g, 1
  {
    NodesAreInTrees(ChildrenOf(g), g, n);
  }

  lemma {:induction false} NodesAreInTrees(gs: seq<Grammar>, parent: Grammar, n: Grammar)
    requires forall c :: c in gs ==> c < parent
    ensures n in NodesOfAll(gs, parent) <==> exists c :: c in gs && InTree(n, c)
    decreases parent, 0, |gs|
  {
    if gs != [] {
      assert gs[0] in gs && forall c :: c in gs[1..] ==> c in gs;
      NodesAreInTree(gs[0], n);
      NodesAreInTrees(gs[1..], parent, n);
      assert gs == [gs[0]] + gs[1..];
    }
  }

  ghost function PackageNodes(trees: seq<Grammar>): set<Grammar> {
    if trees == [] then {} else NodesOf(trees[0]) + PackageNodes(trees[1..])
  }

  lemma {:induction false} NodeOfPackage(trees: seq<Grammar>, n: Grammar)
    ensures n in PackageNodes(trees) <==> exists k :: 0 <= k < |trees| && InTree(n, trees[k])
    decreases |trees|
  {
    if trees != [] {
      NodesAreInTree(trees[0], n);
      NodeOfPackage(trees[1..], n);
      if k :| 0 <= k < |trees| && InTree(n, trees[k]) {
        assert k > 0 ==> trees[1..][k - 1] == trees[k];
      }
      if k :| 0 <= k < |trees[1..]| && InTree(n, trees[1..][k]) {
        assert trees[k + 1] == trees[1..][k];
      }
    }
  }

  lemma {:induction false} ChildInTree(n: Grammar, g: Grammar, c: Grammar)
    requires InTree(n, g) && c in ChildrenOf(n)
    ensures InTree(c, g)
    decreases g
  {
    if n == g {
      assert InTree(c, c);
    } else {
      var d :| d in ChildrenOf(g) && InTree(n, d);
      ChildInTree(n, d, c);
    }
  }

  /** Finalising the paths of a package whose references resolve to its own nodes addresses it. */
  lemma PackageAddressed(roots: seq<Grammar>, rules: Rules)
    requires forall k :: 0 <= k < |roots| ==> Unaddressed(roots[k])
    requires var all := PackageNodes(FinalizePaths(roots));
             (forall l :: l in rules ==> rules[l] in all) && (forall n :: n in all && n.GReference? ==> n.target in rules)
    ensures Addressed(rules, PackageNodes(FinalizePaths(roots)))
  {
    var trees := FinalizePaths(roots);
    var all := PackageNodes(trees);
    forall n | n in all ensures n.info.path.Some? && SuccessorsIn(rules, n, all) {
      NodeOfPackage(trees, n);
      var k :| 0 <= k < |trees| && InTree(n, trees[k]);
      PathsExtend(roots[k], [k], n);
      forall c | c in Successors(rules, n) ensures c in all {
        if c in ChildrenOf(n) {
          ChildInTree(n, trees[k], c);
          NodeOfPackage(trees, c);
        }
      }
    }
    forall a, b | a in all && b in all && NameOf(a) == NameOf(b) ensures a == b {
      NodeOfPackage(trees, a);
      NodeOfPackage(trees, b);
      var i :| 0 <= i < |trees| && InTree(a, trees[i]);
      var j :| 0 <= j < |trees| && InTree(b, trees[j]);
      PackagePathsDistinct(roots, i, j, a, b);
    }
  }

  /** No node beyond those reachable from the roots. */
  ghost predicate OnlyReachable(rules: Rules, roots: seq<Grammar>, nodes: set<Grammar>) {
    forall s: set<Grammar> :: ClosedNodes(rules, s) && (forall r :: r in roots ==> r in s) ==> nodes <= s
  }

  ghost function NamesOf(nodes: set<Grammar>): set<Path> {
    set g | g in nodes :: NameOf(g)
  }

  class Collector {
    const rules: Rules
    var order: seq<Grammar>
    var visited: set<Path>
    /** The nodes in order, as a set. */
    ghost var collected: set<Grammar>

    constructor (rules: Rules)
      ensures this.rules == rules && order == [] && visited == {} && collected == {}
    {
      this.rules := rules;
      order, visited, collected := [], {}, {};
    }

    ghost predicate Valid(all: set<Grammar>)
      reads this
    {
      && Addressed(rules, all) && collected <= all
      && (forall g :: g in order <==> g in collected)
      && (forall i, j :: 0 <= i < j < |order| ==> order[i] != order[j])
      && NamesOf(collected) <= visited <= NamesOf(all)
    }

    /** The addresses marked but not yet emitted belong to nodes still being walked. */
    ghost function Walking(): set<Path>
      reads this
    {
      visited - NamesOf(collected)
    }

    /** Every collected node's successors have been marked. */
    ghost predicate SuccessorsMarked(nodes: set<Grammar>)
      reads this
    {
      forall g :: g in nodes ==> forall c :: c in Successors(rules, g) ==> NameOf(c) in visited
    }

    /** Only nodes reachable from gs have been added to those collected before. */
    ghost predicate AddedReachable(before: set<Grammar>, gs: seq<Grammar>)
      reads this
    {
      forall s: set<Grammar> :: ClosedNodes(rules, s) && (forall g :: g in gs ==> g in s) ==> collected <= before + s
    }

    /** collectPostOrder: marks the node, walks its successors, then emits it. */
    method CollectPostOrder(g: Grammar, ghost all: set<Grammar>)
      requires Valid(all) && g in all && SuccessorsMarked(collected)
      modifies this
      ensures Valid(all) && SuccessorsMarked(collected)
      ensures old(visited) <= visited && old(collected) <= collected && NameOf(g) in visited
      ensures Walking() == old(Walking())
      ensures AddedReachable(old(collected), [g])
      decreases NamesOf(all) - visited, 0
    {
      if NameOf(g) in visited {
        return;
      }
      assert NameOf(g) in NamesOf(all);
      assert NameOf(g) !in NamesOf(collected);
      visited := visited + {NameOf(g)};
      ghost var walking := Walking();
      assert walking == old(Walking()) + {NameOf(g)};
      assert SuccessorsIn(rules, g, all);
      CollectEach(Successors(rules, g), all);
      assert NameOf(g) in Walking();
      forall s: set<Grammar> | ClosedNodes(rules, s) && (forall x :: x in [g] ==> x in s)
        ensures collected <= old(collected) + s && g in s
      {
        assert g in [g];
        assert SuccessorsIn(rules, g, s);
      }
      Emit(g, all);
    }

    method CollectEach(gs: seq<Grammar>, ghost all: set<Grammar>)
      requires Valid(all) && SuccessorsMarked(collected) && forall g :: g in gs ==> g in all
      modifies this
      ensures Valid(all) && SuccessorsMarked(collected)
      ensures old(visited) <= visited && old(collected) <= collected
      ensures forall g :: g in gs ==> NameOf(g) in visited
      ensures Walking() == old(Walking())
      ensures AddedReachable(old(collected), gs)
      decreases NamesOf(all) - visited, 1
    {
      for i := 0 to |gs|
        invariant Valid(all) && SuccessorsMarked(collected)
        invariant old(visited) <= visited && old(collected) <= collected
        invariant forall k :: 0 <= k < i ==> NameOf(gs[k]) in visited
        invariant Walking() == old(Walking())
        invariant AddedReachable(old(collected), gs)
      {
        ghost var before := collected;
        CollectPostOrder(gs[i], all);
        forall s: set<Grammar> | ClosedNodes(rules, s) && (forall g :: g in gs ==> g in s)
          ensures collected <= old(collected) + s
        {
          assert before <= old(collected) + s;
          assert forall g :: g in [gs[i]] ==> g in s;
          assert collected <= before + s;
        }
      }
    }

    method Emit(g: Grammar, ghost all: set<Grammar>)
      requires Valid(all) && SuccessorsMarked(collected) && g in all && g !in collected && NameOf(g) in visited
      requires SuccessorsMarked({g})
      modifies this`order, this`collected
      ensures Valid(all) && SuccessorsMarked(collected)
      ensures collected == old(collected) + {g} && order == old(order) + [g]
      ensures Walking() == old(Walking()) - {NameOf(g)}
    {
      order := order + [g];
      collected := collected + {g};
      assert NamesOf(collected) == NamesOf(old(collected)) + {NameOf(g)};
    }

    /** Collects from all roots; afterwards nothing is marked without being emitted. */
    method CollectFrom(roots: seq<Grammar>, ghost all: set<Grammar>)
      requires Valid(all) && visited == {} && collected == {}
      requires forall r :: r in roots ==> r in all
      modifies this
      ensures Valid(all) && SuccessorsMarked(collected) && visited == NamesOf(collected)
      ensures forall r :: r in roots ==> NameOf(r) in visited
      ensures OnlyReachable(rules, roots, collected)
    {
      assert Walking() == {};
      CollectEach(roots, all);
      forall p | p in visited ensures p in NamesOf(collected) {
        assert p !in Walking();
      }
    }

    /** The rule table, filled node by node in collection order. */
    method EmitRules() returns (cfg: Cfg)
      requires forall i, j :: 0 <= i < j < |order| ==> NameOf(order[i]) != NameOf(order[j])
      ensures cfg.Keys == set g | g in order :: NameOf(g)
      ensures forall g :: g in order ==> NameOf(g) in cfg && cfg[NameOf(g)] == NodeRule(rules, g)
    {
      cfg := map[];
      for i := 0 to |order|
        invariant cfg.Keys == set k | 0 <= k < i :: NameOf(order[k])
        invariant forall k :: 0 <= k < i ==> NameOf(order[k]) in cfg && cfg[NameOf(order[k])] == NodeRule(rules, order[k])
      {
        cfg := cfg[NameOf(order[i]) := NodeRule(rules, order[i])];
      }
    }

    lemma OrderNamesDistinct(all: set<Grammar>)
      requires Valid(all)
      ensures forall i, j :: 0 <= i < j < |order| ==> NameOf(order[i]) != NameOf(order[j])
      ensures (set g | g in order :: NameOf(g)) == NamesOf(collected)
    {
      forall i, j | 0 <= i < j < |order| ensures NameOf(order[i]) != NameOf(order[j]) {
        assert order[i] in order && order[j] in order;
      }
    }
  }

  /**
   ToPatternGrammar: the emitted grammar starts at the root, covers every node it mentions,
   and has a rule for exactly the nodes reachable from the supplied roots.
   */
  method ToPatternGrammar(rules: Rules, root: Grammar, additional: seq<Grammar>, ghost all: set<Grammar>)
    returns (start: Path, cfg: Cfg, ghost nodes: set<Grammar>)
    requires Addressed(rules, all) && root in all && forall r :: r in additional ==> r in all
    ensures start == NameOf(root) && start in cfg
    ensures root in nodes && forall r :: r in additional ==> r in nodes
    ensures Covers(rules, cfg, nodes)
    ensures cfg.Keys == NamesOf(nodes) && |cfg| == |nodes|
    ensures OnlyReachable(rules, [root] + additional, nodes)
  {
    var collector := new Collector(rules);
    var roots := [root] + additional;
    collector.CollectFrom(roots, all);
    nodes := collector.collected;
    collector.OrderNamesDistinct(all);
    cfg := collector.EmitRules();
    start := NameOf(root);
    CollectedCovers(rules, all, nodes, cfg, roots);
    assert root in roots && forall r :: r in additional ==> r in roots;
  }

  /** Once nothing is left to walk, marking and collecting coincide. */
  lemma CollectedCovers(rules: Rules, all: set<Grammar>, nodes: set<Grammar>, cfg: Cfg, roots: seq<Grammar>)
    requires Addressed(rules, all) && nodes <= all && forall r :: r in roots ==> r in all && NameOf(r) in NamesOf(nodes)
    requires forall g :: g in nodes ==> forall c :: c in Successors(rules, g) ==> NameOf(c) in NamesOf(nodes)
    requires forall g :: g in nodes ==> NameOf(g) in cfg && cfg[NameOf(g)] == NodeRule(rules, g)
    ensures Covers(rules, cfg, nodes) && forall r :: r in roots ==> r in nodes
    ensures |NamesOf(nodes)| == |nodes|
  {
    NamesCount(rules, all, nodes);
    forall r | r in roots ensures r in nodes {
      MarkedIsCollected(rules, all, nodes, r);
    }
    forall g | g in nodes ensures SuccessorsIn(rules, g, nodes) {
      assert SuccessorsIn(rules, g, all);
      forall c | c in Successors(rules, g) ensures c in nodes {
        MarkedIsCollected(rules, all, nodes, c);
      }
    }
  }

  lemma MarkedIsCollected(rules: Rules, all: set<Grammar>, nodes: set<Grammar>, g: Grammar)
    requires Addressed(rules, all) && nodes <= all && g in all && NameOf(g) in NamesOf(nodes)
    ensures g in nodes
  {
  }

  lemma {:induction false} NamesCount(rules: Rules, all: set<Grammar>, nodes: set<Grammar>)
    requires Addressed(rules, all) && nodes <= all
    ensures |NamesOf(nodes)| == |nodes|
  {
    if nodes != {} {
      var g :| g in nodes;
      NamesCount(rules, all, nodes - {g});
      assert NamesOf(nodes) == NamesOf(nodes - {g}) + {NameOf(g)};
    }
  }
}
