/**
 ToPatternGrammar: one context-free rule per grammar node, named by the node's address.
 The generated rules derive the same words as the nodes they come from.
 */
module PatternGrammar {
  import opened Languages
  import opened Grammars
  import opened Semantics

  datatype Symbol = SymTerminal(token: Token) | SymNonTerminal(name: Path) | SymEpsilon

  type Production = seq<Symbol>

  /** Rule name to its alternatives. */
  type Cfg = map<Path, seq<Production>>

  // ---------------------------------------------------- words of a context-free grammar

  ghost function SymAt(cfg: Cfg, s: Symbol, h: nat): Language
    decreases h, 0
  {
    match s
    case SymTerminal(token) => Single(token)
    case SymEpsilon => Epsilon
    case SymNonTerminal(name) => if h == 0 || name !in cfg then Empty else RuleAt(cfg, cfg[name], h - 1)
  }

  ghost function ProdAt(cfg: Cfg, p: Production, h: nat): Language
    decreases h, 1, |p|
  {
    if p == [] then Epsilon else Cat(SymAt(cfg, p[0], h), ProdAt(cfg, p[1..], h))
  }

  ghost function RuleAt(cfg: Cfg, ps: seq<Production>, h: nat): Language
    decreases h, 2, |ps|
  {
    if ps == [] then Empty else ProdAt(cfg, ps[0], h) + RuleAt(cfg, ps[1..], h)
  }

  ghost predicate SymDerivesAt(cfg: Cfg, s: Symbol, w: Word, h: nat) {
    w in SymAt(cfg, s, h)
  }

  ghost predicate SymDerives(cfg: Cfg, s: Symbol, w: Word) {
    exists h: nat :: SymDerivesAt(cfg, s, w, h)
  }

  ghost function SymLang(cfg: Cfg, s: Symbol): Language {
    iset w: Word | SymDerives(cfg, s, w)
  }

  ghost function ProdLang(cfg: Cfg, p: Production): Language {
    if p == [] then Epsilon else Cat(SymLang(cfg, p[0]), ProdLang(cfg, p[1..]))
  }

  ghost function RuleLang(cfg: Cfg, ps: seq<Production>): Language {
    if ps == [] then Empty else ProdLang(cfg, ps[0]) + RuleLang(cfg, ps[1..])
  }

  ghost function CfgLang(cfg: Cfg, name: Path): Language {
    SymLang(cfg, SymNonTerminal(name))
  }

  lemma {:induction false} SymAtMono(cfg: Cfg, s: Symbol, h: nat, k: nat)
    requires h <= k
    ensures SymAt(cfg, s, h) <= SymAt(cfg, s, k)
    decreases h, 0
  {
    if s.SymNonTerminal? && h > 0 && s.name in cfg {
      RuleAtMono(cfg, cfg[s.name], h - 1, k - 1);
    }
  }

  lemma {:induction false} ProdAtMono(cfg: Cfg, p: Production, h: nat, k: nat)
    requires h <= k
    ensures ProdAt(cfg, p, h) <= ProdAt(cfg, p, k)
    decreases h, 1, |p|
  {
    if p != [] {
      SymAtMono(cfg, p[0], h, k);
      ProdAtMono(cfg, p[1..], h, k);
      CatMono(SymAt(cfg, p[0], h), ProdAt(cfg, p[1..], h), SymAt(cfg, p[0], k), ProdAt(cfg, p[1..], k));
    }
  }

  lemma {:induction false} RuleAtMono(cfg: Cfg, ps: seq<Production>, h: nat, k: nat)
    requires h <= k
    ensures RuleAt(cfg, ps, h) <= RuleAt(cfg, ps, k)
    decreases h, 2, |ps|
  {
    if ps != [] {
      ProdAtMono(cfg, ps[0], h, k);
      RuleAtMono(cfg, ps[1..], h, k);
    }
  }

  lemma {:induction false} SymAtInLang(cfg: Cfg, s: Symbol, h: nat)
    ensures SymAt(cfg, s, h) <= SymLang(cfg, s)
  {
    forall w | w in SymAt(cfg, s, h) ensures w in SymLang(cfg, s) {
      assert SymDerivesAt(cfg, s, w, h);
    }
  }

  lemma {:induction false} ProdAtInLang(cfg: Cfg, p: Production, h: nat)
    ensures ProdAt(cfg, p, h) <= ProdLang(cfg, p)
  {
    if p != [] {
      SymAtInLang(cfg, p[0], h);
      ProdAtInLang(cfg, p[1..], h);
      CatMono(SymAt(cfg, p[0], h), ProdAt(cfg, p[1..], h), SymLang(cfg, p[0]), ProdLang(cfg, p[1..]));
    }
  }

  lemma {:induction false} RuleAtInLang(cfg: Cfg, ps: seq<Production>, h: nat)
    ensures RuleAt(cfg, ps, h) <= RuleLang(cfg, ps)
  {
    if ps != [] {
      ProdAtInLang(cfg, ps[0], h);
      RuleAtInLang(cfg, ps[1..], h);
    }
  }

  lemma {:induction false} ProdLangElim(cfg: Cfg, p: Production, w: Word) returns (h: nat)
    requires w in ProdLang(cfg, p)
    ensures w in ProdAt(cfg, p, h)
  {
    h := 0;
    if p != [] {
      var u, v := CatElim(SymLang(cfg, p[0]), ProdLang(cfg, p[1..]), w);
      var h0: nat :| SymDerivesAt(cfg, p[0], u, h0);
      var h1 := ProdLangElim(cfg, p[1..], v);
      h := if h0 < h1 then h1 else h0;
      SymAtMono(cfg, p[0], h0, h);
      ProdAtMono(cfg, p[1..], h1, h);
      CatIntro(SymAt(cfg, p[0], h), ProdAt(cfg, p[1..], h), u, v);
    }
  }

  lemma {:induction false} RuleLangElim(cfg: Cfg, ps: seq<Production>, w: Word) returns (h: nat)
    requires w in RuleLang(cfg, ps)
    ensures w in RuleAt(cfg, ps, h)
  {
    if w in ProdLang(cfg, ps[0]) {
      h := ProdLangElim(cfg, ps[0], w);
    } else {
      h := RuleLangElim(cfg, ps[1..], w);
    }
  }

  lemma SymLangOther(cfg: Cfg, s: Symbol)
    ensures s.SymTerminal? ==> SymLang(cfg, s) == Single(s.token)
    ensures s.SymEpsilon? ==> SymLang(cfg, s) == Epsilon
  {
    SymAtInLang(cfg, s, 0);
    forall w | w in SymLang(cfg, s)
      ensures s.SymTerminal? ==> w in Single(s.token)
      ensures s.SymEpsilon? ==> w in Epsilon
    {
      var h: nat :| SymDerivesAt(cfg, s, w, h);
    }
  }

  /** A rule derives what its alternatives derive. */
  lemma {:induction false} CfgLangUnfold(cfg: Cfg, name: Path)
    requires name in cfg
    ensures CfgLang(cfg, name) == RuleLang(cfg, cfg[name])
  {
    var s := SymNonTerminal(name);
    forall w | w in CfgLang(cfg, name) ensures w in RuleLang(cfg, cfg[name]) {
      var h: nat :| SymDerivesAt(cfg, s, w, h);
      RuleAtInLang(cfg, cfg[name], h - 1);
    }
    forall w | w in RuleLang(cfg, cfg[name]) ensures w in CfgLang(cfg, name) {
      var h := RuleLangElim(cfg, cfg[name], w);
      assert w in SymAt(cfg, s, h + 1);
      SymAtInLang(cfg, s, h + 1);
    }
  }

  // ---------------------------------------------------------------- compilation

  /** The nodes a node's rule refers to: its children, or the target of a reference. */
  function Successors(rules: Rules, g: Grammar): seq<Grammar> {
    if g.GReference? then (if g.target in rules then [rules[g.target]] else [])
    else ChildrenOf(g)
  }

  function NameOf(g: Grammar): Path {
    if g.info.path.Some? then g.info.path.value else []
  }

  function NonTerm(g: Grammar): Symbol {
    SymNonTerminal(NameOf(g))
  }

  /** syntaxaNodeToContextaRule. */
  function NodeRule(rules: Rules, g: Grammar): seq<Production> {
    match g
    case GToken(_, token) => [[SymTerminal(token)]]
    case GEpsilon(_) => [[SymEpsilon]]
    case GReference(_, target) => if target in rules then [[NonTerm(rules[target])]] else [[SymEpsilon]]
    case GConcat(_, children) => [SymbolsOf(children)]
    case GChoice(_, children) => ArmsOf(children)
    case GOptional(_, body) => [[SymEpsilon], [NonTerm(body)]]
    case GRepeat(_, body, min, _) =>
      if min == 0 then [[SymEpsilon], [NonTerm(body), NonTerm(g)]]
      else [[NonTerm(body), NonTerm(g)], [NonTerm(body)]]
    case GNest(_, open, close, body) => [[SymTerminal(open), NonTerm(body), SymTerminal(close)]]
  }

  function SymbolsOf(gs: seq<Grammar>): Production {
    if gs == [] then [] else [NonTerm(gs[0])] + SymbolsOf(gs[1..])
  }

  function ArmsOf(gs: seq<Grammar>): seq<Production> {
    if gs == [] then [] else [[NonTerm(gs[0])]] + ArmsOf(gs[1..])
  }

  /** The grammar holds every node's rule, and no rule refers outside the nodes. */
  ghost predicate Covers(rules: Rules, cfg: Cfg, nodes: set<Grammar>) {
    forall g :: g in nodes ==>
      && g.info.path.Some? && NameOf(g) in cfg && cfg[NameOf(g)] == NodeRule(rules, g)
      && (g.GReference? ==> g.target in rules)
      && forall c :: c in Successors(rules, g) ==> c in nodes
  }

  // ---------------------------------------------------------- rules mean their nodes

  lemma {:induction false} ProdOne(cfg: Cfg, s: Symbol)
    ensures ProdLang(cfg, [s]) == SymLang(cfg, s)
  {
    assert [s][1..] == [];
    CatUnit(SymLang(cfg, s));
  }

  lemma {:induction false} ProdTwo(cfg: Cfg, s: Symbol, t: Symbol)
    ensures ProdLang(cfg, [s, t]) == Cat(SymLang(cfg, s), SymLang(cfg, t))
  {
    assert [s, t][1..] == [t];
    ProdOne(cfg, t);
  }

  lemma {:induction false} ProdThree(cfg: Cfg, s: Symbol, t: Symbol, u: Symbol)
    ensures ProdLang(cfg, [s, t, u]) == Cat(SymLang(cfg, s), Cat(SymLang(cfg, t), SymLang(cfg, u)))
  {
    assert [s, t, u][1..] == [t, u];
    ProdTwo(cfg, t, u);
  }

  lemma {:induction false} RuleOne(cfg: Cfg, p: Production)
    ensures RuleLang(cfg, [p]) == ProdLang(cfg, p)
  {
    assert [p][1..] == [];
  }

  lemma {:induction false} RuleTwo(cfg: Cfg, p: Production, q: Production)
    ensures RuleLang(cfg, [p, q]) == ProdLang(cfg, p) + ProdLang(cfg, q)
  {
    assert [p, q][1..] == [q];
    RuleOne(cfg, q);
  }

  ghost function NodeLang(cfg: Cfg, g: Grammar): Language {
    CfgLang(cfg, NameOf(g))
  }

  /** The language equation that a node's generated rule states, kind by kind. */
  ghost function Equation(rules: Rules, cfg: Cfg, g: Grammar): Language {
    match g
    case GToken(_, token) => Single(token)
    case GEpsilon(_) => Epsilon
    case GReference(_, target) => if target in rules then NodeLang(cfg, rules[target]) else Epsilon
    case GConcat(_, children) => CatAll(cfg, children)
    case GChoice(_, children) => UnionAll(cfg, children)
    case GOptional(_, body) => Epsilon + NodeLang(cfg, body)
    case GRepeat(_, body, min, _) =>
      if min == 0 then Epsilon + Cat(NodeLang(cfg, body), NodeLang(cfg, g))
      else Cat(NodeLang(cfg, body), NodeLang(cfg, g)) + NodeLang(cfg, body)
    case GNest(_, open, close, body) => Cat(Single(open), Cat(NodeLang(cfg, body), Single(close)))
  }

  ghost function CatAll(cfg: Cfg, gs: seq<Grammar>): Language {
    if gs == [] then Epsilon else Cat(NodeLang(cfg, gs[0]), CatAll(cfg, gs[1..]))
  }

  ghost function UnionAll(cfg: Cfg, gs: seq<Grammar>): Language {
    if gs == [] then Empty else NodeLang(cfg, gs[0]) + UnionAll(cfg, gs[1..])
  }

  lemma {:induction false} SymbolsMeaning(cfg: Cfg, gs: seq<Grammar>)
    ensures ProdLang(cfg, SymbolsOf(gs)) == CatAll(cfg, gs)
  {
    if gs != [] {
      assert SymbolsOf(gs)[1..] == SymbolsOf(gs[1..]);
      SymbolsMeaning(cfg, gs[1..]);
    }
  }

  lemma {:induction false} ArmsMeaning(cfg: Cfg, gs: seq<Grammar>)
    ensures RuleLang(cfg, ArmsOf(gs)) == UnionAll(cfg, gs)
  {
    if gs != [] {
      assert ArmsOf(gs)[1..] == ArmsOf(gs[1..]);
      ArmsMeaning(cfg, gs[1..]);
      ProdOne(cfg, NonTerm(gs[0]));
    }
  }

  lemma {:induction false} LeafEquation(cfg: Cfg, s: Symbol)
    ensures RuleLang(cfg, [[s]]) == SymLang(cfg, s)
  {
    RuleOne(cfg, [s]);
    ProdOne(cfg, s);
  }

  lemma {:induction false} OptionalEquation(cfg: Cfg, body: Symbol)
    ensures RuleLang(cfg, [[SymEpsilon], [body]]) == Epsilon + SymLang(cfg, body)
  {
    RuleTwo(cfg, [SymEpsilon], [body]);
    ProdOne(cfg, SymEpsilon);
    ProdOne(cfg, body);
    SymLangOther(cfg, SymEpsilon);
  }

  lemma {:induction false} StarEquation(cfg: Cfg, body: Symbol, self: Symbol)
    ensures RuleLang(cfg, [[SymEpsilon], [body, self]]) == Epsilon + Cat(SymLang(cfg, body), SymLang(cfg, self))
  {
    RuleTwo(cfg, [SymEpsilon], [body, self]);
    ProdOne(cfg, SymEpsilon);
    ProdTwo(cfg, body, self);
    SymLangOther(cfg, SymEpsilon);
  }

  lemma {:induction false} PlusEquation(cfg: Cfg, body: Symbol, self: Symbol)
    ensures RuleLang(cfg, [[body, self], [body]]) == Cat(SymLang(cfg, body), SymLang(cfg, self)) + SymLang(cfg, body)
  {
    RuleTwo(cfg, [body, self], [body]);
    ProdTwo(cfg, body, self);
    ProdOne(cfg, body);
  }

  lemma {:induction false} NestEquation(cfg: Cfg, open: Token, body: Symbol, close: Token)
    ensures RuleLang(cfg, [[SymTerminal(open), body, SymTerminal(close)]]) ==
            Cat(Single(open), Cat(SymLang(cfg, body), Single(close)))
  {
    var o, c := SymTerminal(open), SymTerminal(close);
    RuleOne(cfg, [o, body, c]);
    ProdThree(cfg, o, body, c);
    SymLangOther(cfg, o);
    SymLangOther(cfg, c);
  }

  lemma NodeEquation(rules: Rules, cfg: Cfg, g: Grammar)
    requires NameOf(g) in cfg && cfg[NameOf(g)] == NodeRule(rules, g)
    ensures NodeLang(cfg, g) == Equation(rules, cfg, g)
  {
    CfgLangUnfold(cfg, NameOf(g));
    match g {
      case GToken(_, token) =>
        LeafEquation(cfg, SymTerminal(token));
        SymLangOther(cfg, SymTerminal(token));
      case GEpsilon(_) =>
        LeafEquation(cfg, SymEpsilon);
        SymLangOther(cfg, SymEpsilon);
      case GReference(_, target) =>
        if target in rules {
          LeafEquation(cfg, NonTerm(rules[target]));
        } else {
          LeafEquation(cfg, SymEpsilon);
          SymLangOther(cfg, SymEpsilon);
        }
      case GConcat(_, children) =>
        RuleOne(cfg, SymbolsOf(children));
        SymbolsMeaning(cfg, children);
      case GChoice(_, children) => ArmsMeaning(cfg, children);
      case GOptional(_, body) => OptionalEquation(cfg, NonTerm(body));
      case GRepeat(_, body, min, _) =>
        if min == 0 {
          StarEquation(cfg, NonTerm(body), NonTerm(g));
        } else {
          PlusEquation(cfg, NonTerm(body), NonTerm(g));
        }
      case GNest(_, open, close, body) => NestEquation(cfg, open, NonTerm(body), close);
    }
  }

  /** Every word of a node is derived by its rule. */
  lemma {:induction false} NodeInRule(rules: Rules, cfg: Cfg, nodes: set<Grammar>, g: Grammar, h: nat)
    requires Covers(rules, cfg, nodes) && g in nodes
    ensures LangAt(Lowered, rules, g, h) <= NodeLang(cfg, g)
    decreases h, g
  {
    NodeEquation(rules, cfg, g);
    match g {
      case GToken(_, _) =>
      case GEpsilon(_) =>
      case GConcat(_, children) => SeqInRule(rules, cfg, nodes, children, h);
      case GChoice(_, children) => AltInRule(rules, cfg, nodes, children, h);
      case GOptional(_, body) =>
        assert body in Successors(rules, g);
        NodeInRule(rules, cfg, nodes, body, h);
      case GRepeat(_, body, min, max) =>
        assert body in Successors(rules, g);
        NodeInRule(rules, cfg, nodes, body, h);
        RepeatInRule(min, LangAt(Lowered, rules, body, h), NodeLang(cfg, body), NodeLang(cfg, g));
      case GNest(_, open, close, body) =>
        assert body in Successors(rules, g);
        NodeInRule(rules, cfg, nodes, body, h);
        var a, b := LangAt(Lowered, rules, body, h), NodeLang(cfg, body);
        CatMono(a, Single(close), b, Single(close));
        CatMono(Single(open), Cat(a, Single(close)), Single(open), Cat(b, Single(close)));
      case GReference(_, target) =>
        if h > 0 {
          assert rules[target] in Successors(rules, g);
          NodeInRule(rules, cfg, nodes, rules[target], h - 1);
        }
    }
  }

  lemma {:induction false} SeqInRule(rules: Rules, cfg: Cfg, nodes: set<Grammar>, gs: seq<Grammar>, h: nat)
    requires Covers(rules, cfg, nodes) && forall g :: g in gs ==> g in nodes
    ensures SeqAt(Lowered, rules, gs, h) <= CatAll(cfg, gs)
    decreases h, gs
  {
    if gs != [] {
      NodeInRule(rules, cfg, nodes, gs[0], h);
      SeqInRule(rules, cfg, nodes, gs[1..], h);
      CatMono(LangAt(Lowered, rules, gs[0], h), SeqAt(Lowered, rules, gs[1..], h), NodeLang(cfg, gs[0]), CatAll(cfg, gs[1..]));
    }
  }

  lemma {:induction false} AltInRule(rules: Rules, cfg: Cfg, nodes: set<Grammar>, gs: seq<Grammar>, h: nat)
    requires Covers(rules, cfg, nodes) && forall g :: g in gs ==> g in nodes
    ensures AltAt(Lowered, rules, gs, h) <= UnionAll(cfg, gs)
    decreases h, gs
  {
    if gs != [] {
      NodeInRule(rules, cfg, nodes, gs[0], h);
      AltInRule(rules, cfg, nodes, gs[1..], h);
    }
  }

  /** The right-recursive rules of a repetition absorb every number of rounds. */
  lemma RepeatInRule(min: nat, a: Language, b: Language, p: Language)
    requires a <= b
    requires p == if min == 0 then Epsilon + Cat(b, p) else Cat(b, p) + b
    ensures RepeatLang(Lowered, min, None, a) <= p
  {
    if min == 0 {
      CatMono(a, p, b, p);
      StarLeast(a, p);
    } else {
      var q := Epsilon + p;
      PlusStep(a, b, p);
      StarLeast(a, q);
      CatMono(a, Star(a), a, q);
    }
  }

  lemma PlusStep(a: Language, b: Language, p: Language)
    requires a <= b && Cat(b, p) + b <= p
    ensures Cat(a, Epsilon + p) <= p
  {
    forall w | w in Cat(a, Epsilon + p) ensures w in p {
      var u, v := CatElim(a, Epsilon + p, w);
      if v == [] {
        assert w == u;
      } else {
        CatIntro(b, p, u, v);
      }
    }
  }

  // The same alternatives at a bounded height.

  lemma {:induction false} OneAt(cfg: Cfg, s: Symbol, h: nat)
    ensures ProdAt(cfg, [s], h) == SymAt(cfg, s, h)
  {
    var a := SymAt(cfg, s, h);
    assert ProdAt(cfg, [s], h) == Cat(a, Epsilon) by {
      assert [s][1..] == [];
    }
    assert Cat(a, Epsilon) == a by {
      CatUnit(a);
    }
  }

  lemma {:induction false} TwoAt(cfg: Cfg, s: Symbol, t: Symbol, h: nat)
    ensures ProdAt(cfg, [s, t], h) == Cat(SymAt(cfg, s, h), SymAt(cfg, t, h))
  {
    assert [s, t][1..] == [t];
    OneAt(cfg, t, h);
  }

  lemma {:induction false} RuleOneAt(cfg: Cfg, p: Production, h: nat)
    ensures RuleAt(cfg, [p], h) == ProdAt(cfg, p, h)
  {
    assert [p][1..] == [];
  }

  lemma {:induction false} RuleTwoAt(cfg: Cfg, p: Production, q: Production, h: nat)
    ensures RuleAt(cfg, [p, q], h) == ProdAt(cfg, p, h) + ProdAt(cfg, q, h)
  {
    assert [p, q][1..] == [q];
    RuleOneAt(cfg, q, h);
  }

  lemma {:induction false} LeafAt(cfg: Cfg, s: Symbol, h: nat)
    ensures RuleAt(cfg, [[s]], h) == SymAt(cfg, s, h)
  {
    RuleOneAt(cfg, [s], h);
    OneAt(cfg, s, h);
  }

  /** Every word a rule derives belongs to its node. */
  lemma {:induction false} RuleInNode(rules: Rules, cfg: Cfg, nodes: set<Grammar>, g: Grammar, h: nat)
    requires Covers(rules, cfg, nodes) && g in nodes
    ensures SymAt(cfg, NonTerm(g), h) <= Lang(Lowered, rules, g)
    decreases h, 3, 0
  {
    if h > 0 {
      var k: nat := h - 1;
      assert forall c :: c in Successors(rules, g) ==> c in nodes;
      assert SymAt(cfg, NonTerm(g), h) == RuleAt(cfg, NodeRule(rules, g), k);
      match g {
        case GToken(_, token) =>
          LangToken(Lowered, rules, g);
          LeafAt(cfg, SymTerminal(token), k);
        case GEpsilon(_) =>
          LangEpsilon(Lowered, rules, g);
          LeafAt(cfg, SymEpsilon, k);
        case GReference(_, target) =>
          LangReference(Lowered, rules, g);
          assert rules[target] in Successors(rules, g);
          RuleInNode(rules, cfg, nodes, rules[target], k);
          LeafAt(cfg, NonTerm(rules[target]), k);
        case GConcat(_, children) =>
          LangConcat(Lowered, rules, g);
          SymbolsInNodes(rules, cfg, nodes, children, k);
          RuleOneAt(cfg, SymbolsOf(children), k);
        case GChoice(_, children) =>
          LangChoice(Lowered, rules, g);
          ArmsInNodes(rules, cfg, nodes, children, k);
        case GOptional(_, body) =>
          assert body in Successors(rules, g);
          RuleInNode(rules, cfg, nodes, body, k);
          OptionalRuleInNode(rules, cfg, g, k);
        case GRepeat(_, body, min, _) =>
          assert body in Successors(rules, g);
          RuleInNode(rules, cfg, nodes, body, k);
          RuleInNode(rules, cfg, nodes, g, k);
          RepeatRuleInNode(rules, cfg, g, k);
        case GNest(_, open, close, body) =>
          assert body in Successors(rules, g);
          RuleInNode(rules, cfg, nodes, body, k);
          NestRuleInNode(rules, cfg, g, k);
      }
    }
  }

  lemma {:induction false} OptionalRuleInNode(rules: Rules, cfg: Cfg, g: Grammar, k: nat)
    requires g.GOptional?
    requires SymAt(cfg, NonTerm(g.body), k) <= Lang(Lowered, rules, g.body)
    ensures RuleAt(cfg, NodeRule(rules, g), k) <= Lang(Lowered, rules, g)
  {
    var b := NonTerm(g.body);
    LangOptional(Lowered, rules, g);
    RuleTwoAt(cfg, [SymEpsilon], [b], k);
    OneAt(cfg, SymEpsilon, k);
    OneAt(cfg, b, k);
  }

  /** An unrolling of a star or a plus stays within it. */
  lemma RepeatUnrolls(rules: Rules, g: Grammar, x: Language, y: Language)
    requires g.GRepeat? && x <= Lang(Lowered, rules, g.body) && y <= Lang(Lowered, rules, g)
    ensures Cat(x, y) <= Lang(Lowered, rules, g)
    ensures if g.min == 0 then Epsilon <= Lang(Lowered, rules, g) else x <= Lang(Lowered, rules, g)
  {
    var a := Lang(Lowered, rules, g.body);
    LangRepeat(Lowered, rules, g);
    CatMono(x, y, a, Lang(Lowered, rules, g));
    StarAbsorbs(a);
  }

  lemma {:induction false} RepeatRuleInNode(rules: Rules, cfg: Cfg, g: Grammar, k: nat)
    requires g.GRepeat?
    requires SymAt(cfg, NonTerm(g.body), k) <= Lang(Lowered, rules, g.body)
    requires SymAt(cfg, NonTerm(g), k) <= Lang(Lowered, rules, g)
    ensures RuleAt(cfg, NodeRule(rules, g), k) <= Lang(Lowered, rules, g)
  {
    var b, self := NonTerm(g.body), NonTerm(g);
    RepeatUnrolls(rules, g, SymAt(cfg, b, k), SymAt(cfg, self, k));
    TwoAt(cfg, b, self, k);
    if g.min == 0 {
      RuleTwoAt(cfg, [SymEpsilon], [b, self], k);
      OneAt(cfg, SymEpsilon, k);
    } else {
      RuleTwoAt(cfg, [b, self], [b], k);
      OneAt(cfg, b, k);
    }
  }

  lemma StarAbsorbs(a: Language)
    ensures Epsilon + Cat(a, Star(a)) <= Star(a)
    ensures Cat(a, Cat(a, Star(a))) <= Cat(a, Star(a)) && a <= Cat(a, Star(a))
  {
    StarUnfold(a);
    CatMono(a, Cat(a, Star(a)), a, Star(a));
    forall w | w in a ensures w in Cat(a, Star(a)) {
      CatIntro(a, Star(a), w, []);
      assert w + [] == w;
    }
  }

  lemma {:induction false} NestRuleInNode(rules: Rules, cfg: Cfg, g: Grammar, k: nat)
    requires g.GNest?
    requires SymAt(cfg, NonTerm(g.body), k) <= Lang(Lowered, rules, g.body)
    ensures RuleAt(cfg, NodeRule(rules, g), k) <= Lang(Lowered, rules, g)
  {
    var o, b, c := SymTerminal(g.open), NonTerm(g.body), SymTerminal(g.close);
    var x, y := SymAt(cfg, b, k), Lang(Lowered, rules, g.body);
    RuleOneAt(cfg, [o, b, c], k);
    assert ProdAt(cfg, [o, b, c], k) == Cat(Single(g.open), Cat(x, Single(g.close))) by {
      assert [o, b, c][1..] == [b, c];
      TwoAt(cfg, b, c, k);
    }
    CatMono(x, Single(g.close), y, Single(g.close));
    CatMono(Single(g.open), Cat(x, Single(g.close)), Single(g.open), Cat(y, Single(g.close)));
    LangNest(Lowered, rules, g);
  }

  lemma {:induction false} SymbolsInNodes(rules: Rules, cfg: Cfg, nodes: set<Grammar>, gs: seq<Grammar>, h: nat)
    requires Covers(rules, cfg, nodes) && forall g :: g in gs ==> g in nodes
    ensures ProdAt(cfg, SymbolsOf(gs), h) <= SeqLang(Lowered, rules, gs)
    decreases h, 4, |gs|
  {
    if gs != [] {
      assert SymbolsOf(gs)[1..] == SymbolsOf(gs[1..]);
      RuleInNode(rules, cfg, nodes, gs[0], h);
      SymbolsInNodes(rules, cfg, nodes, gs[1..], h);
      CatMono(SymAt(cfg, NonTerm(gs[0]), h), ProdAt(cfg, SymbolsOf(gs[1..]), h),
              Lang(Lowered, rules, gs[0]), SeqLang(Lowered, rules, gs[1..]));
    }
  }

  lemma {:induction false} ArmsInNodes(rules: Rules, cfg: Cfg, nodes: set<Grammar>, gs: seq<Grammar>, h: nat)
    requires Covers(rules, cfg, nodes) && forall g :: g in gs ==> g in nodes
    ensures RuleAt(cfg, ArmsOf(gs), h) <= AltLang(Lowered, rules, gs)
    decreases h, 4, |gs|
  {
    if gs != [] {
      assert ArmsOf(gs)[1..] == ArmsOf(gs[1..]);
      RuleInNode(rules, cfg, nodes, gs[0], h);
      OneAt(cfg, NonTerm(gs[0]), h);
      ArmsInNodes(rules, cfg, nodes, gs[1..], h);
    }
  }

  /**
   ToPatternGrammar preserves meaning: every node's lowered language is the language of its
   rule, recursive references and the right-recursive repetitions included.
   */
  lemma {:induction false} RulesMeanNodes(rules: Rules, cfg: Cfg, nodes: set<Grammar>, g: Grammar)
    requires Covers(rules, cfg, nodes) && g in nodes
    ensures CfgLang(cfg, NameOf(g)) == Lang(Lowered, rules, g)
    ensures Lang(Exact, rules, g) <= CfgLang(cfg, NameOf(g))
    ensures PlainRules(rules) && PlainRepeats(g) ==> CfgLang(cfg, NameOf(g)) == Lang(Exact, rules, g)
  {
    forall w | w in CfgLang(cfg, NameOf(g)) ensures w in Lang(Lowered, rules, g) {
      var h: nat :| SymDerivesAt(cfg, NonTerm(g), w, h);
      RuleInNode(rules, cfg, nodes, g, h);
    }
    forall w | w in Lang(Lowered, rules, g) ensures w in CfgLang(cfg, NameOf(g)) {
      var h := LangElim(Lowered, rules, g, w);
      NodeInRule(rules, cfg, nodes, g, h);
    }
    LoweredCoversExact(rules, g);
  }
}
