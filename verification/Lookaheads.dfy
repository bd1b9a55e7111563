/**
 lookahead: the terminals a grammar node can start with, and whether it can be empty.
 The recursion is specified by functions, with the references being entered as a set;
 the pass that runs it with loops and a shared visiting set is in LoweringPass.
 */
module Lookaheads {
  import opened Languages
  import opened Grammars
  import opened Semantics
  import opened Guards
  import opened Terminals

  datatype Found = Found(terms: seq<Terminal>, nullable: bool)

  /** The analysis answer wherever the node has an address, the structural one otherwise. */
  function OverrideNullable(env: Env, g: Grammar, structural: bool): bool {
    if env.analysis.Some? && g.info.path.Some?
    then AnalysisNullable(env.analysis.value, g.info.path.value)
    else structural
  }

  /** armGuardForChild. */
  function ArmGuard(env: Env, child: Grammar): Guard {
    if env.analysis.Some? && child.info.path.Some? && child.info.path.value in env.analysis.value.armPredict
       && |env.analysis.value.armPredict[child.info.path.value].guard| > 0
    then env.analysis.value.armPredict[child.info.path.value].guard
    else child.info.lookaheads
  }

  /** The FIRST set an arm is filtered by, when there is one. */
  function ArmFirst(env: Env, child: Grammar): Option<set<Token>> {
    if env.analysis.Some? && child.info.path.Some? && child.info.path.value in env.analysis.value.armPredict
       && env.analysis.value.armPredict[child.info.path.value].first != {}
       && !AnalysisNullable(env.analysis.value, child.info.path.value)
    then Some(env.analysis.value.armPredict[child.info.path.value].first)
    else None
  }

  function FilterArm(env: Env, child: Grammar, ts: seq<Terminal>): seq<Terminal> {
    var first := ArmFirst(env, child);
    if first.Some? then FilterByFirst(ts, first.value) else ts
  }

  function GuardArm(env: Env, child: Grammar, ts: seq<Terminal>): seq<Terminal> {
    var guard := ArmGuard(env, child);
    if |guard| > 0 then GuardAll(ts, guard) else ts
  }

  /** The bare scope frame left by a node that declares recovery tokens. */
  function RecoveryFrames(g: Grammar): seq<Frame> {
    if g.info.hasRecovery && !g.GRepeat? && !g.GOptional? && !g.GReference?
    then [Frame(None, g.info.grammarLabel, [])]
    else []
  }

  function LookaheadNode(env: Env, g: Grammar, visiting: set<Label>): (r: Found)
    ensures forall t :: t in r.terms ==> t.popOffset == 0
    decreases env.rules.Keys - visiting, g, 0
  {
    var found :=
      match g
      case GToken(_, token) => Found([Terminal(token, [], [], None, 0, [])], false)
      case GEpsilon(_) => Found([], true)
      case GConcat(_, children) => LookaheadConcat(env, children, visiting)
      case GChoice(_, children) => LookaheadChoice(env, children, visiting)
      case GRepeat(_, body, min, _) =>
        Found(EncloseAll(LookaheadNode(env, body, visiting).terms, [Frame(Some(g), g.info.grammarLabel, [])]), min == 0)
      case GOptional(_, body) =>
        Found(EncloseAll(LookaheadNode(env, body, visiting).terms, [Frame(None, g.info.grammarLabel, [])]), true)
      case GNest(_, open, _, _) => Found([Terminal(open, [], [], Some(g), 0, [])], false)
      case GReference(_, target) =>
        if target !in env.rules || target in visiting then Found([], false)
        else
          var inner := LookaheadNode(env, env.rules[target], visiting + {target});
          Found(EncloseAll(inner.terms, [Frame(None, target, [])]), inner.nullable);
    Found(EncloseAll(found.terms, RecoveryFrames(g)), OverrideNullable(env, g, found.nullable))
  }

  /** Terminals of each node up to the first that cannot be empty, each followed by its suffix. */
  function LookaheadConcat(env: Env, nodes: seq<Grammar>, visiting: set<Label>): (r: Found)
    ensures forall t :: t in r.terms ==> t.popOffset == 0
    decreases env.rules.Keys - visiting, nodes, 0
  {
    if nodes == [] then Found([], true)
    else
      var head := LookaheadNode(env, nodes[0], visiting);
      var terms := ExtendAll(head.terms, nodes[1..]);
      if !head.nullable then Found(terms, false)
      else
        var rest := LookaheadConcat(env, nodes[1..], visiting);
        Found(terms + rest.terms, rest.nullable)
  }

  function LookaheadArm(env: Env, arm: Grammar, visiting: set<Label>): (r: Found)
    ensures forall t :: t in r.terms ==> t.popOffset == 0
    decreases env.rules.Keys - visiting, arm, 1
  {
    var found := LookaheadNode(env, arm, visiting);
    Found(GuardArm(env, arm, FilterArm(env, arm, found.terms)), found.nullable)
  }

  function LookaheadChoice(env: Env, arms: seq<Grammar>, visiting: set<Label>): (r: Found)
    ensures forall t :: t in r.terms ==> t.popOffset == 0
    decreases env.rules.Keys - visiting, arms, 0
  {
    if arms == [] then Found([], false)
    else
      var head := LookaheadArm(env, arms[0], visiting);
      var rest := LookaheadChoice(env, arms[1..], visiting);
      Found(head.terms + rest.terms, head.nullable || rest.nullable)
  }

  // ------------------------------------------------------------- hypotheses

  /**
   The unseen analysis: Nullable is exact and an arm's FIRST covers its first tokens.
   References are resolved and a choice has an arm, as package production enforces.
   */
  ghost predicate NodeAnalyzed(env: Env, g: Grammar) {
    && (g.GToken? || (env.analysis.Some? && g.info.path.Some?))
    && (env.analysis.Some? && g.info.path.Some? ==>
          (AnalysisNullable(env.analysis.value, g.info.path.value) <==> [] in Lang(Lowered, env.rules, g)))
    && (ArmFirst(env, g).Some? ==>
          forall t: Token :: Deriv(t, Lang(Lowered, env.rules, g)) != Empty ==> t in ArmFirst(env, g).value)
    && (g.GReference? ==> g.target in env.rules)
    && (g.GChoice? ==> g.children != [])
  }

  ghost predicate Analyzed(env: Env, g: Grammar) {
    NodeAnalyzed(env, g) && forall c :: c in ChildrenOf(g) ==> Analyzed(env, c)
  }

  ghost predicate RulesAnalyzed(env: Env) {
    forall l :: l in env.rules ==> Analyzed(env, env.rules[l])
  }

  /** References reachable at the left edge of a node, before any token is consumed. */
  ghost function LeftRefs(env: Env, g: Grammar): set<Label> {
    match g
    case GConcat(_, children) => LeftRefsSeq(env, children)
    case GChoice(_, children) => LeftRefsAlt(env, children)
    case GRepeat(_, body, _, _) => LeftRefs(env, body)
    case GOptional(_, body) => LeftRefs(env, body)
    case GReference(_, target) => {target}
    case _ => {}
  }

  ghost function LeftRefsSeq(env: Env, gs: seq<Grammar>): set<Label> {
    if gs == [] then {}
    else LeftRefs(env, gs[0]) + (if OverrideNullable(env, gs[0], false) then LeftRefsSeq(env, gs[1..]) else {})
  }

  ghost function LeftRefsAlt(env: Env, gs: seq<Grammar>): set<Label> {
    if gs == [] then {} else LeftRefs(env, gs[0]) + LeftRefsAlt(env, gs[1..])
  }

  /** Every rule's left-edge references rank below the rule: no rule can reach itself unconsumed. */
  ghost predicate RankedBy(env: Env, rank: map<Label, nat>) {
    && env.rules.Keys <= rank.Keys
    && forall l :: l in env.rules ==> forall t :: t in LeftRefs(env, env.rules[l]) ==> t in rank && rank[t] < rank[l]
  }

  ghost predicate NotLeftRecursive(env: Env) {
    exists rank: map<Label, nat> :: RankedBy(env, rank)
  }

  ghost predicate RefsBelow(rank: map<Label, nat>, refs: set<Label>, visiting: set<Label>) {
    && refs <= rank.Keys && visiting <= rank.Keys
    && forall t, v :: t in refs && v in visiting ==> rank[t] < rank[v]
  }

  // ------------------------------------------------------------- exactness

  /** found is the first-step decomposition of the language a. */
  ghost predicate Decomposes(rules: Rules, found: Found, a: Language, token: Token) {
    && Deriv(token, a) == TermsLang(rules, found.terms, token)
    && (found.nullable <==> [] in a)
  }

  lemma {:induction false} TermsOne(rules: Rules, t: Terminal, token: Token)
    ensures TermsLang(rules, [t], token) == if t.token == token then AfterLang(rules, t) else Empty
  {
    assert [t][1..] == [];
  }

  lemma NothingLeft(rules: Rules, t: Terminal)
    requires t.remaining == [] && t.stack == []
    ensures ContLang(rules, t) == Cat(Epsilon, Epsilon)
  {
  }

  lemma BareTerminal(rules: Rules, t: Terminal)
    requires t.remaining == [] && t.stack == []
    ensures ContLang(rules, t) == Epsilon
    ensures AfterLang(rules, t) == NestTail(rules, t.nest)
  {
    assert ContLang(rules, t) == Epsilon by {
      NothingLeft(rules, t);
      CatUnit(Epsilon);
    }
    CatUnit(NestTail(rules, t.nest));
  }

  lemma PlainFrame(rules: Rules, frameLabel: Label)
    ensures FrameLang(rules, Frame(None, frameLabel, [])) == Cat(Epsilon, Epsilon)
  {
  }

  lemma {:induction false} BareFrame(rules: Rules, frameLabel: Label)
    ensures StackLang(rules, [Frame(None, frameLabel, [])]) == Epsilon
  {
    StackLangOne(rules, Frame(None, frameLabel, []));
    PlainFrame(rules, frameLabel);
    CatUnit(Epsilon);
  }

  lemma EncloseNone(ts: seq<Terminal>)
    ensures EncloseAll(ts, []) == ts
  {
    forall i | 0 <= i < |ts| ensures EncloseAll(ts, [])[i] == ts[i] {
      assert ts[i].stack + [] == ts[i].stack;
    }
  }

  /** Scope frames without content do not change the meaning. */
  lemma {:induction false} EncloseBare(rules: Rules, ts: seq<Terminal>, frameLabel: Label, token: Token)
    ensures TermsLang(rules, EncloseAll(ts, [Frame(None, frameLabel, [])]), token) == TermsLang(rules, ts, token)
  {
    TermsEnclose(rules, ts, [Frame(None, frameLabel, [])], token);
    BareFrame(rules, frameLabel);
    CatUnit(TermsLang(rules, ts, token));
  }

  lemma {:induction false} RecoveryFramesNeutral(rules: Rules, g: Grammar, ts: seq<Terminal>, token: Token)
    ensures TermsLang(rules, EncloseAll(ts, RecoveryFrames(g)), token) == TermsLang(rules, ts, token)
  {
    if RecoveryFrames(g) == [] {
      EncloseNone(ts);
    } else {
      EncloseBare(rules, ts, g.info.grammarLabel, token);
    }
  }

  /** A plain star or plus after its first non-empty round: the node again, or nothing. */
  lemma {:induction false} RepeatTail(rules: Rules, g: Grammar, token: Token)
    requires g.GRepeat?
    ensures Deriv(token, Lang(Lowered, rules, g)) ==
            Cat(Deriv(token, Lang(Lowered, rules, g.body)), StackLang(rules, [Frame(Some(g), g.info.grammarLabel, [])]))
  {
    LangRepeat(Lowered, rules, g);
    DerivStar(token, Lang(Lowered, rules, g.body));
    AgainOrNothing(rules, g);
    StackLangOne(rules, Frame(Some(g), g.info.grammarLabel, []));
  }

  lemma AgainOrNothing(rules: Rules, g: Grammar)
    requires g.GRepeat?
    ensures FrameLang(rules, Frame(Some(g), g.info.grammarLabel, [])) == Star(Lang(Lowered, rules, g.body))
  {
    var a := Lang(Lowered, rules, g.body);
    assert RepLang(rules, Some(g)) == Star(a) by {
      LangRepeat(Lowered, rules, g);
      StarUnfold(a);
    }
    CatUnit(Star(a));
  }

  lemma NestDeriv(rules: Rules, g: Grammar, token: Token)
    requires g.GNest?
    ensures Deriv(token, Lang(Lowered, rules, g)) == if token == g.open then NestTail(rules, Some(g)) else Empty
    ensures [] !in Lang(Lowered, rules, g)
  {
    var tail := NestTail(rules, Some(g));
    LangNest(Lowered, rules, g);
    SingleCat(token, g.open, tail);
  }

  lemma NestExact(env: Env, g: Grammar, token: Token)
    requires g.GNest?
    ensures Decomposes(env.rules, Found([Terminal(g.open, [], [], Some(g), 0, [])], false),
                       Lang(Lowered, env.rules, g), token)
  {
    NestDeriv(env.rules, g, token);
    var t := Terminal(g.open, [], [], Some(g), 0, []);
    BareTerminal(env.rules, t);
    TermsOne(env.rules, t, token);
  }

  lemma TokenDeriv(rules: Rules, g: Grammar, token: Token)
    requires g.GToken?
    ensures Deriv(token, Lang(Lowered, rules, g)) == if token == g.token then NestTail(rules, None) else Empty
    ensures [] !in Lang(Lowered, rules, g)
  {
    LangToken(Lowered, rules, g);
    DerivSingle(token, g.token);
  }

  lemma TokenExact(env: Env, g: Grammar, token: Token)
    requires g.GToken?
    ensures Decomposes(env.rules, Found([Terminal(g.token, [], [], None, 0, [])], false),
                       Lang(Lowered, env.rules, g), token)
  {
    TokenDeriv(env.rules, g, token);
    var t := Terminal(g.token, [], [], None, 0, []);
    BareTerminal(env.rules, t);
    TermsOne(env.rules, t, token);
  }

  /**
   lookahead is an exact first-step decomposition: a word that starts with token belongs
   to the node iff its tail is in the after-language of a returned terminal on that token,
   and the boolean is the node's nullability.
   */
  lemma {:induction false} LookaheadExact(env: Env, rank: map<Label, nat>, g: Grammar, visiting: set<Label>, token: Token)
    requires RulesAnalyzed(env) && Analyzed(env, g)
    requires RankedBy(env, rank) && RefsBelow(rank, LeftRefs(env, g), visiting)
    ensures Decomposes(env.rules, LookaheadNode(env, g, visiting), Lang(Lowered, env.rules, g), token)
    decreases env.rules.Keys - visiting, g
  {
    var rules := env.rules;
    match g {
      case GToken(_, _) =>
        TokenExact(env, g, token);
        RecoveryFramesNeutral(rules, g, [Terminal(g.token, [], [], None, 0, [])], token);
      case GEpsilon(_) =>
        LangEpsilon(Lowered, rules, g);
        DerivSingle(token, token);
        RecoveryFramesNeutral(rules, g, [], token);
      case GConcat(_, children) =>
        LangConcat(Lowered, rules, g);
        assert ChildrenOf(g) == children;
        ConcatExact(env, rank, children, visiting, token);
        RecoveryFramesNeutral(rules, g, LookaheadConcat(env, children, visiting).terms, token);
      case GChoice(_, children) =>
        LangChoice(Lowered, rules, g);
        assert ChildrenOf(g) == children;
        ChoiceExact(env, rank, children, visiting, token);
        RecoveryFramesNeutral(rules, g, LookaheadChoice(env, children, visiting).terms, token);
      case GRepeat(_, body, _, _) =>
        assert body in ChildrenOf(g);
        LookaheadExact(env, rank, body, visiting, token);
        RepeatTail(rules, g, token);
        var frame := [Frame(Some(g), g.info.grammarLabel, [])];
        TermsEnclose(rules, LookaheadNode(env, body, visiting).terms, frame, token);
        EncloseNone(EncloseAll(LookaheadNode(env, body, visiting).terms, frame));
      case GOptional(_, body) =>
        assert body in ChildrenOf(g);
        LookaheadExact(env, rank, body, visiting, token);
        LangOptional(Lowered, rules, g);
        DerivUnion(token, Epsilon, Lang(Lowered, rules, body));
        DerivSingle(token, token);
        EncloseBare(rules, LookaheadNode(env, body, visiting).terms, g.info.grammarLabel, token);
        EncloseNone(EncloseAll(LookaheadNode(env, body, visiting).terms, [Frame(None, g.info.grammarLabel, [])]));
      case GNest(_, _, _, _) =>
        NestExact(env, g, token);
        RecoveryFramesNeutral(rules, g, [Terminal(g.open, [], [], Some(g), 0, [])], token);
      case GReference(_, target) =>
        assert target in LeftRefs(env, g);
        assert target !in visiting;
        LookaheadExact(env, rank, rules[target], visiting + {target}, token);
        LangReference(Lowered, rules, g);
        var inner := LookaheadNode(env, rules[target], visiting + {target}).terms;
        EncloseBare(rules, inner, target, token);
        EncloseNone(EncloseAll(inner, [Frame(None, target, [])]));
    }
  }

  lemma {:induction false} ConcatExact(env: Env, rank: map<Label, nat>, nodes: seq<Grammar>, visiting: set<Label>, token: Token)
    requires RulesAnalyzed(env) && forall c :: c in nodes ==> Analyzed(env, c)
    requires RankedBy(env, rank) && RefsBelow(rank, LeftRefsSeq(env, nodes), visiting)
    ensures Decomposes(env.rules, LookaheadConcat(env, nodes, visiting), SeqLang(Lowered, env.rules, nodes), token)
    decreases env.rules.Keys - visiting, nodes
  {
    if nodes == [] {
      DerivSingle(token, token);
    } else {
      var rules := env.rules;
      var head := LookaheadNode(env, nodes[0], visiting);
      LookaheadExact(env, rank, nodes[0], visiting, token);
      var a, b := Lang(Lowered, rules, nodes[0]), SeqLang(Lowered, rules, nodes[1..]);
      DerivCat(token, a, b);
      CatNullable(a, b);
      TermsExtend(rules, head.terms, nodes[1..], token);
      if head.nullable {
        ConcatExact(env, rank, nodes[1..], visiting, token);
        TermsAppend(rules, ExtendAll(head.terms, nodes[1..]), LookaheadConcat(env, nodes[1..], visiting).terms, token);
      }
    }
  }

  lemma ArmExact(env: Env, arm: Grammar, found: Found, token: Token)
    requires NodeAnalyzed(env, arm)
    requires Decomposes(env.rules, found, Lang(Lowered, env.rules, arm), token)
    ensures Decomposes(env.rules, Found(GuardArm(env, arm, FilterArm(env, arm, found.terms)), found.nullable),
                       Lang(Lowered, env.rules, arm), token)
  {
    var first := ArmFirst(env, arm);
    if first.Some? {
      TermsFilter(env.rules, found.terms, first.value, token);
    }
    var filtered := FilterArm(env, arm, found.terms);
    TermsRelabel(env.rules, filtered, GuardArm(env, arm, filtered), token);
  }

  lemma {:induction false} ChoiceExact(env: Env, rank: map<Label, nat>, arms: seq<Grammar>, visiting: set<Label>, token: Token)
    requires RulesAnalyzed(env) && forall c :: c in arms ==> Analyzed(env, c)
    requires RankedBy(env, rank) && RefsBelow(rank, LeftRefsAlt(env, arms), visiting)
    ensures Decomposes(env.rules, LookaheadChoice(env, arms, visiting), AltLang(Lowered, env.rules, arms), token)
    decreases env.rules.Keys - visiting, arms
  {
    if arms != [] {
      LookaheadExact(env, rank, arms[0], visiting, token);
      ArmExact(env, arms[0], LookaheadNode(env, arms[0], visiting), token);
      ChoiceExact(env, rank, arms[1..], visiting, token);
      DerivUnion(token, Lang(Lowered, env.rules, arms[0]), AltLang(Lowered, env.rules, arms[1..]));
      TermsAppend(env.rules, LookaheadArm(env, arms[0], visiting).terms,
                  LookaheadChoice(env, arms[1..], visiting).terms, token);
    }
  }

  // ------------------------------------------------- what terminals are made of

  ghost predicate FrameAnalyzed(env: Env, f: Frame) {
    && (f.rep.Some? ==> f.rep.value.GRepeat? && Analyzed(env, f.rep.value))
    && forall g :: g in f.remaining ==> Analyzed(env, g)
  }

  ghost predicate TermAnalyzed(env: Env, t: Terminal) {
    && (forall g :: g in t.remaining ==> Analyzed(env, g))
    && (forall f :: f in t.stack ==> FrameAnalyzed(env, f))
    && (t.nest.Some? ==> t.nest.value.GNest? && Analyzed(env, t.nest.value))
  }

  ghost predicate TermsAnalyzed(env: Env, ts: seq<Terminal>) {
    forall t :: t in ts ==> TermAnalyzed(env, t)
  }

  lemma {:induction false} ExtendAnalyzed(env: Env, ts: seq<Terminal>, suffix: seq<Grammar>)
    requires TermsAnalyzed(env, ts) && forall g :: g in suffix ==> Analyzed(env, g)
    ensures TermsAnalyzed(env, ExtendAll(ts, suffix))
  {
    forall i | 0 <= i < |ts| ensures TermAnalyzed(env, Extend(ts[i], suffix)) {
      var t := ts[i];
      assert TermAnalyzed(env, t);
      if t.stack != [] {
        assert t.stack[|t.stack| - 1] in t.stack;
      }
    }
  }

  lemma EncloseAnalyzed(env: Env, ts: seq<Terminal>, frames: seq<Frame>)
    requires TermsAnalyzed(env, ts) && forall f :: f in frames ==> FrameAnalyzed(env, f)
    ensures TermsAnalyzed(env, EncloseAll(ts, frames))
  {
    forall i | 0 <= i < |ts| ensures TermAnalyzed(env, Enclose(ts[i], frames)) {
      assert TermAnalyzed(env, ts[i]);
    }
  }

  lemma RelabelAnalyzed(env: Env, a: seq<Terminal>, b: seq<Terminal>)
    requires |a| == |b| && TermsAnalyzed(env, a)
    requires forall i :: 0 <= i < |a| ==> b[i] == a[i].(guard := b[i].guard, popOffset := b[i].popOffset)
    ensures TermsAnalyzed(env, b)
  {
    forall i | 0 <= i < |b| ensures TermAnalyzed(env, b[i]) {
      assert TermAnalyzed(env, a[i]);
      assert b[i].remaining == a[i].remaining && b[i].stack == a[i].stack && b[i].nest == a[i].nest;
    }
  }

  lemma {:induction false} FilterAnalyzed(env: Env, ts: seq<Terminal>, first: set<Token>)
    requires TermsAnalyzed(env, ts)
    ensures TermsAnalyzed(env, FilterByFirst(ts, first))
  {
    if ts != [] {
      assert ts[0] in ts;
      FilterAnalyzed(env, ts[1..], first);
    }
  }

  lemma ArmAnalyzed(env: Env, arm: Grammar, ts: seq<Terminal>)
    requires TermsAnalyzed(env, ts)
    ensures TermsAnalyzed(env, GuardArm(env, arm, FilterArm(env, arm, ts)))
  {
    var first := ArmFirst(env, arm);
    if first.Some? {
      FilterAnalyzed(env, ts, first.value);
    }
    var filtered := FilterArm(env, arm, ts);
    RelabelAnalyzed(env, filtered, GuardArm(env, arm, filtered));
  }

  /** Terminals only carry nodes of the analyzed grammar. */
  lemma {:induction false} LookaheadAnalyzed(env: Env, g: Grammar, visiting: set<Label>)
    requires RulesAnalyzed(env) && Analyzed(env, g)
    ensures TermsAnalyzed(env, LookaheadNode(env, g, visiting).terms)
    decreases env.rules.Keys - visiting, g
  {
    match g {
      case GToken(_, token) =>
        EncloseAnalyzed(env, [Terminal(token, [], [], None, 0, [])], RecoveryFrames(g));
      case GEpsilon(_) =>
      case GConcat(_, children) =>
        assert ChildrenOf(g) == children;
        ConcatAnalyzed(env, children, visiting);
        EncloseAnalyzed(env, LookaheadConcat(env, children, visiting).terms, RecoveryFrames(g));
      case GChoice(_, children) =>
        assert ChildrenOf(g) == children;
        ChoiceAnalyzed(env, children, visiting);
        EncloseAnalyzed(env, LookaheadChoice(env, children, visiting).terms, RecoveryFrames(g));
      case GRepeat(_, body, _, _) =>
        assert body in ChildrenOf(g);
        LookaheadAnalyzed(env, body, visiting);
        var ts, frame := LookaheadNode(env, body, visiting).terms, [Frame(Some(g), g.info.grammarLabel, [])];
        EncloseAnalyzed(env, ts, frame);
        EncloseNone(EncloseAll(ts, frame));
      case GOptional(_, body) =>
        assert body in ChildrenOf(g);
        LookaheadAnalyzed(env, body, visiting);
        var ts, frame := LookaheadNode(env, body, visiting).terms, [Frame(None, g.info.grammarLabel, [])];
        EncloseAnalyzed(env, ts, frame);
        EncloseNone(EncloseAll(ts, frame));
      case GNest(_, open, _, _) =>
        EncloseAnalyzed(env, [Terminal(open, [], [], Some(g), 0, [])], RecoveryFrames(g));
      case GReference(_, target) =>
        if target !in visiting {
          LookaheadAnalyzed(env, env.rules[target], visiting + {target});
          var ts, frame := LookaheadNode(env, env.rules[target], visiting + {target}).terms, [Frame(None, target, [])];
          EncloseAnalyzed(env, ts, frame);
          EncloseNone(EncloseAll(ts, frame));
        }
    }
  }

  lemma {:induction false} ConcatAnalyzed(env: Env, nodes: seq<Grammar>, visiting: set<Label>)
    requires RulesAnalyzed(env) && forall c :: c in nodes ==> Analyzed(env, c)
    ensures TermsAnalyzed(env, LookaheadConcat(env, nodes, visiting).terms)
    decreases env.rules.Keys - visiting, nodes
  {
    if nodes != [] {
      LookaheadAnalyzed(env, nodes[0], visiting);
      ExtendAnalyzed(env, LookaheadNode(env, nodes[0], visiting).terms, nodes[1..]);
      ConcatAnalyzed(env, nodes[1..], visiting);
    }
  }

  lemma {:induction false} ChoiceAnalyzed(env: Env, arms: seq<Grammar>, visiting: set<Label>)
    requires RulesAnalyzed(env) && forall c :: c in arms ==> Analyzed(env, c)
    ensures TermsAnalyzed(env, LookaheadChoice(env, arms, visiting).terms)
    decreases env.rules.Keys - visiting, arms
  {
    if arms != [] {
      LookaheadAnalyzed(env, arms[0], visiting);
      ArmAnalyzed(env, arms[0], LookaheadNode(env, arms[0], visiting).terms);
      ChoiceAnalyzed(env, arms[1..], visiting);
    }
  }

  lemma {:induction false} LeftRefsResolved(env: Env, g: Grammar)
    requires Analyzed(env, g)
    ensures LeftRefs(env, g) <= env.rules.Keys
    decreases g
  {
    match g
    case GConcat(_, children) => assert ChildrenOf(g) == children; LeftRefsSeqResolved(env, children);
    case GChoice(_, children) => assert ChildrenOf(g) == children; LeftRefsAltResolved(env, children);
    case GRepeat(_, body, _, _) => assert body in ChildrenOf(g); LeftRefsResolved(env, body);
    case GOptional(_, body) => assert body in ChildrenOf(g); LeftRefsResolved(env, body);
    case _ =>
  }

  lemma {:induction false} LeftRefsSeqResolved(env: Env, gs: seq<Grammar>)
    requires forall g :: g in gs ==> Analyzed(env, g)
    ensures LeftRefsSeq(env, gs) <= env.rules.Keys
    decreases gs
  {
    if gs != [] {
      LeftRefsResolved(env, gs[0]);
      LeftRefsSeqResolved(env, gs[1..]);
    }
  }

  lemma {:induction false} LeftRefsAltResolved(env: Env, gs: seq<Grammar>)
    requires forall g :: g in gs ==> Analyzed(env, g)
    ensures LeftRefsAlt(env, gs) <= env.rules.Keys
    decreases gs
  {
    if gs != [] {
      LeftRefsResolved(env, gs[0]);
      LeftRefsAltResolved(env, gs[1..]);
    }
  }

  /** The decomposition for a whole package: analyzed, resolved and not left recursive. */
  lemma {:induction false} LookaheadIsFirstStep(env: Env, g: Grammar, w: Word)
    requires RulesAnalyzed(env) && Analyzed(env, g) && NotLeftRecursive(env)
    ensures [] in Lang(Lowered, env.rules, g) <==> LookaheadNode(env, g, {}).nullable
    ensures w != [] ==>
              (w in Lang(Lowered, env.rules, g) <==>
               exists i :: 0 <= i < |LookaheadNode(env, g, {}).terms| && LookaheadNode(env, g, {}).terms[i].token == w[0]
                           && w[1..] in AfterLang(env.rules, LookaheadNode(env, g, {}).terms[i]))
  {
    var rank :| RankedBy(env, rank);
    LeftRefsResolved(env, g);
    var token := if w == [] then 0 else w[0];
    LookaheadExact(env, rank, g, {}, token);
    if w != [] {
      assert w == [w[0]] + w[1..];
      TermsMember(env.rules, LookaheadNode(env, g, {}).terms, token, w[1..]);
    }
  }

  lemma {:induction false} TermsMember(rules: Rules, ts: seq<Terminal>, token: Token, v: Word)
    ensures v in TermsLang(rules, ts, token) <==>
            exists i :: 0 <= i < |ts| && ts[i].token == token && v in AfterLang(rules, ts[i])
  {
    if ts != [] {
      TermsMember(rules, ts[1..], token, v);
      if v in TermsLang(rules, ts[1..], token) {
        var i :| 0 <= i < |ts[1..]| && ts[1..][i].token == token && v in AfterLang(rules, ts[1..][i]);
        assert ts[i + 1] == ts[1..][i];
      }
      if i :| 0 <= i < |ts| && ts[i].token == token && v in AfterLang(rules, ts[i]) {
        if i > 0 {
          assert ts[1..][i - 1] == ts[i];
        }
      }
    }
  }
}
