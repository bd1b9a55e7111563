/**
 The state graph as a pushdown machine. A context is identified by its full terminal list
 and its fall-through flag. Consuming a token either pops contexts or replaces the top
 one; entering a nest pushes its wrapper and, at once, its content.
 */
module StateGraph {
  import opened Languages
  import opened Grammars
  import opened Semantics
  import opened Guards
  import opened Terminals
  import opened Lookaheads
  import opened Advance

  /** Wrapper and Content are the two contexts of a nest; Content is the wrapper's immediate push target. */
  datatype Context =
    | Ctx(terms: seq<Terminal>, optionalContinuation: bool)
    | Wrapper(nest: Grammar)
    | Content(nest: Grammar)

  datatype StackOp = OpPop | OpSet

  /** targets lists the contexts of an OpSet from the bottom up; popAmount belongs to OpPop. */
  datatype Transition = Transition(token: Token, op: StackOp, targets: seq<Context>, popAmount: nat)

  /** The node-path-free token node built for a nest's closing bracket. */
  function CloseNode(close: Token): Grammar {
    GToken(NodeInfo(None, "", [], false), close)
  }

  /** The terminals of a nest's content: body then close, each completing with one extra pop. */
  function ContentTerms(env: Env, nest: Grammar): seq<Terminal>
    requires nest.GNest?
  {
    OffsetAll(LookaheadConcat(env, [nest.body, CloseNode(nest.close)], {}).terms, 1)
  }

  function TermsOf(env: Env, c: Context): seq<Terminal> {
    match c
    case Ctx(terms, _) => terms
    case Wrapper(_) => []
    case Content(nest) => if nest.GNest? then ContentTerms(env, nest) else []
  }

  /** The context that the advanced terminals make. */
  function NextContext(adv: Found, offset: nat): Context {
    Ctx(OffsetAll(adv.terms, offset), adv.nullable)
  }

  /** buildStandardTransition and buildNestTransition. */
  function BuildTransition(env: Env, term: Terminal): Transition {
    var adv := AdvanceTerminal(env, term.(nest := None));
    if term.nest.Some? then
      var body := Wrapper(term.nest.value);
      if adv.terms == [] then Transition(term.token, OpSet, [body], 0)
      else Transition(term.token, OpSet, [NextContext(adv, term.popOffset), body], 0)
    else if adv.terms == [] then Transition(term.token, OpPop, [], 1 + term.popOffset)
    else Transition(term.token, OpSet, [NextContext(adv, term.popOffset)], 0)
  }

  /** Pushes the targets in order; a wrapper pushes its content on top of itself. */
  function Enter(targets: seq<Context>, stack: seq<Context>): seq<Context> {
    if targets == [] then stack
    else
      var c := targets[0];
      Enter(targets[1..], (if c.Wrapper? then [Content(c.nest), c] else [c]) + stack)
  }

  /** The stack (top first) after the transition; None when there is nothing left to pop. */
  function Apply(tr: Transition, stack: seq<Context>): Option<seq<Context>>
    requires stack != []
  {
    match tr.op
    case OpPop => if tr.popAmount <= |stack| then Some(stack[tr.popAmount..]) else None
    case OpSet => Some(Enter(tr.targets, stack[1..]))
  }

  function Step(env: Env, stack: seq<Context>, i: nat): Option<seq<Context>>
    requires stack != [] && i < |TermsOf(env, stack[0])|
  {
    Apply(BuildTransition(env, TermsOf(env, stack[0])[i]), stack)
  }

  predicate MayStop(stack: seq<Context>) {
    stack == [] || (|stack| == 1 && stack[0].Ctx? && stack[0].optionalContinuation)
  }

  /** Term i of the top context consumes token and leads to next. */
  predicate Moves(env: Env, stack: seq<Context>, token: Token, i: nat, next: seq<Context>) {
    && stack != [] && i < |TermsOf(env, stack[0])|
    && TermsOf(env, stack[0])[i].token == token
    && Step(env, stack, i) == Some(next)
  }

  /** Some run consumes w and ends where the machine may stop. */
  ghost predicate Accepts(env: Env, stack: seq<Context>, w: Word)
    decreases |w|
  {
    if w == [] then MayStop(stack)
    else exists i: nat, next :: Moves(env, stack, w[0], i, next) && Accepts(env, next, w[1..])
  }

  /** Some run consumes w and leads from one stack to the other. */
  ghost predicate Reaches(env: Env, stack: seq<Context>, w: Word, end: seq<Context>)
    decreases |w|
  {
    if w == [] then stack == end
    else exists i: nat, next :: Moves(env, stack, w[0], i, next) && Reaches(env, next, w[1..], end)
  }

  function Root(env: Env, entry: Grammar): Context {
    var found := LookaheadNode(env, entry, {});
    Ctx(found.terms, found.nullable)
  }

  // --------------------------------------------------------------- meanings

  ghost predicate InContext(rules: Rules, terms: seq<Terminal>, nullable: bool, w: Word) {
    if w == [] then nullable else w[1..] in TermsLang(rules, terms, w[0])
  }

  ghost function TermListLang(rules: Rules, terms: seq<Terminal>, nullable: bool): Language {
    iset w: Word | InContext(rules, terms, nullable, w)
  }

  ghost function ContextLang(env: Env, c: Context): Language {
    match c
    case Ctx(terms, nullable) => TermListLang(env.rules, terms, nullable)
    case Wrapper(_) => Epsilon
    case Content(_) => TermListLang(env.rules, TermsOf(env, c), false)
  }

  ghost function ConfigLang(env: Env, stack: seq<Context>): Language {
    if stack == [] then Epsilon else Cat(ContextLang(env, stack[0]), ConfigLang(env, stack[1..]))
  }

  lemma {:induction false} TermListDeriv(rules: Rules, terms: seq<Terminal>, nullable: bool, token: Token)
    ensures Deriv(token, TermListLang(rules, terms, nullable)) == TermsLang(rules, terms, token)
    ensures [] in TermListLang(rules, terms, nullable) <==> nullable
  {
    forall w: Word ensures InContext(rules, terms, nullable, [token] + w) <==> w in TermsLang(rules, terms, token) {
      assert ([token] + w)[0] == token && ([token] + w)[1..] == w;
    }
  }

  /** A context built from a decomposition means what was decomposed. */
  lemma ContextFromFound(rules: Rules, found: Found, offset: nat, a: Language)
    requires forall token: Token :: Decomposes(rules, found, a, token)
    ensures TermListLang(rules, OffsetAll(found.terms, offset), found.nullable) == a
    ensures TermListLang(rules, found.terms, found.nullable) == a
  {
    forall token: Token
      ensures Deriv(token, TermListLang(rules, OffsetAll(found.terms, offset), found.nullable)) == Deriv(token, a)
      ensures Deriv(token, TermListLang(rules, found.terms, found.nullable)) == Deriv(token, a)
    {
      assert Decomposes(rules, found, a, token);
      TermsRelabel(rules, found.terms, OffsetAll(found.terms, offset), token);
      TermListDeriv(rules, OffsetAll(found.terms, offset), found.nullable, token);
      TermListDeriv(rules, found.terms, found.nullable, token);
    }
    assert Decomposes(rules, found, a, 0);
    TermListDeriv(rules, OffsetAll(found.terms, offset), found.nullable, 0);
    TermListDeriv(rules, found.terms, found.nullable, 0);
    DerivExtensional(TermListLang(rules, OffsetAll(found.terms, offset), found.nullable), a);
    DerivExtensional(TermListLang(rules, found.terms, found.nullable), a);
  }

  // ------------------------------------------- terminals inside a nest reach its close

  ghost predicate IsClose(g: Grammar) {
    g.GToken? && g.info.path.None? && !g.info.hasRecovery
  }

  ghost predicate EndsInClose(gs: seq<Grammar>) {
    gs != [] && IsClose(gs[|gs| - 1])
  }

  ghost function LastRemaining(t: Terminal): seq<Grammar> {
    if t.stack == [] then t.remaining else t.stack[|t.stack| - 1].remaining
  }

  /** The closing bracket is still ahead, or it is this very token. */
  ghost predicate Sealed(t: Terminal) {
    || EndsInClose(LastRemaining(t))
    || (t.remaining == [] && t.stack == [] && t.nest.None?)
  }

  ghost predicate AllSealed(ts: seq<Terminal>) {
    forall t :: t in ts ==> Sealed(t)
  }

  lemma {:induction false} EndsInCloseNotNullable(rules: Rules, gs: seq<Grammar>)
    requires EndsInClose(gs)
    ensures [] !in SeqLang(Lowered, rules, gs)
  {
    CatNullable(Lang(Lowered, rules, gs[0]), SeqLang(Lowered, rules, gs[1..]));
    if |gs| == 1 {
      LangToken(Lowered, rules, gs[0]);
    } else {
      EndsInCloseNotNullable(rules, gs[1..]);
    }
  }

  lemma {:induction false} StackEndNotNullable(rules: Rules, stack: seq<Frame>)
    requires stack != [] && EndsInClose(stack[|stack| - 1].remaining)
    ensures [] !in StackLang(rules, stack)
  {
    CatNullable(FrameLang(rules, stack[0]), StackLang(rules, stack[1..]));
    if |stack| == 1 {
      FrameNullable(rules, stack[0]);
      EndsInCloseNotNullable(rules, stack[0].remaining);
    } else {
      StackEndNotNullable(rules, stack[1..]);
    }
  }

  lemma SealedNotNullable(rules: Rules, t: Terminal)
    requires EndsInClose(LastRemaining(t))
    ensures [] !in ContLang(rules, t)
  {
    CatNullable(SeqLang(Lowered, rules, t.remaining), StackLang(rules, t.stack));
    if t.stack == [] {
      EndsInCloseNotNullable(rules, t.remaining);
    } else {
      StackEndNotNullable(rules, t.stack);
    }
  }

  lemma ExtendSealed(ts: seq<Terminal>, suffix: seq<Grammar>)
    requires EndsInClose(suffix)
    ensures AllSealed(ExtendAll(ts, suffix))
  {
    forall i | 0 <= i < |ts| ensures Sealed(Extend(ts[i], suffix)) {
      var r := LastRemaining(Extend(ts[i], suffix));
      assert r == LastRemaining(ts[i]) + suffix;
    }
  }

  lemma {:induction false} CloseLookahead(env: Env, g: Grammar, visiting: set<Label>)
    requires IsClose(g)
    ensures LookaheadNode(env, g, visiting) == Found([Terminal(g.token, [], [], None, 0, [])], false)
  {
    EncloseNone([Terminal(g.token, [], [], None, 0, [])]);
  }

  lemma {:induction false} ConcatSealed(env: Env, nodes: seq<Grammar>, visiting: set<Label>)
    requires EndsInClose(nodes)
    ensures AllSealed(LookaheadConcat(env, nodes, visiting).terms)
    ensures !LookaheadConcat(env, nodes, visiting).nullable
    decreases nodes
  {
    var head := LookaheadNode(env, nodes[0], visiting);
    if |nodes| == 1 {
      CloseLookahead(env, nodes[0], visiting);
      assert ExtendAll(head.terms, nodes[1..])[0] == head.terms[0];
    } else {
      ExtendSealed(head.terms, nodes[1..]);
      ConcatSealed(env, nodes[1..], visiting);
    }
  }

  lemma FrameSealed(env: Env, f: Frame)
    requires EndsInClose(f.remaining)
    ensures AllSealed(FrameLookahead(env, f).terms)
    ensures !FrameLookahead(env, f).nullable
  {
    ConcatSealed(env, f.remaining, {});
    if f.rep.Some? {
      ExtendSealed(LookaheadNode(env, f.rep.value, {}).terms, f.remaining);
    }
  }

  lemma ReattachSealed(ts: seq<Terminal>, shifted: Guard, outer: seq<Frame>)
    requires if outer == [] then AllSealed(ts) else EndsInClose(outer[|outer| - 1].remaining)
    ensures AllSealed(Reattach(ts, shifted, outer))
  {
    var r := Reattach(ts, shifted, outer);
    forall i | 0 <= i < |r| ensures Sealed(r[i]) {
      assert r[i].stack == ts[i].stack + outer && r[i].remaining == ts[i].remaining && r[i].nest == ts[i].nest;
      if outer == [] {
        assert Sealed(ts[i]);
        assert r[i].stack == ts[i].stack;
      } else {
        assert r[i].stack[|r[i].stack| - 1] == outer[|outer| - 1];
      }
    }
  }

  lemma {:induction false} AdvanceLevelsSealed(env: Env, levels: seq<Frame>, shifted: Guard)
    requires levels != [] && EndsInClose(levels[|levels| - 1].remaining)
    ensures AllSealed(AdvanceLevels(env, levels, shifted).terms)
    ensures !AdvanceLevels(env, levels, shifted).nullable
  {
    var f, outer := levels[0], levels[1..];
    if outer != [] {
      AdvanceLevelsSealed(env, outer, shifted);
    } else {
      FrameSealed(env, f);
    }
    if !(f.remaining == [] && f.rep.None?) {
      ReattachSealed(FrameLookahead(env, f).terms, shifted, outer);
    }
  }

  lemma AdvanceSealed(env: Env, t: Terminal)
    requires EndsInClose(LastRemaining(t))
    ensures AllSealed(AdvanceTerminal(env, t).terms)
    ensures AdvanceTerminal(env, t).terms != [] ==> !AdvanceTerminal(env, t).nullable
  {
    var levels := Levels(t);
    if t.stack != [] {
      assert levels[|levels| - 1] == t.stack[|t.stack| - 1];
    }
    AdvanceLevelsSealed(env, levels, Shift(t.guard, t.token));
  }

  // -------------------------------------------------------- the stack discipline

  /** Inside a nest every terminal pops one context more and the closing bracket is still due. */
  ghost predicate ContextOk(env: Env, c: Context, offset: nat) {
    && !c.Wrapper?
    && (c.Content? ==> c.nest.GNest?)
    && TermsAnalyzed(env, TermsOf(env, c))
    && (forall t :: t in TermsOf(env, c) ==> t.popOffset == offset)
    && (offset == 1 ==> AllSealed(TermsOf(env, c)) && (c.Ctx? ==> !c.optionalContinuation))
  }

  /** Content and wrapper alternate above at most one outermost context. */
  ghost predicate WellStacked(env: Env, stack: seq<Context>) {
    || stack == []
    || (|stack| == 1 && stack[0].Ctx? && ContextOk(env, stack[0], 0))
    || (|stack| >= 2 && ContextOk(env, stack[0], 1) && stack[1].Wrapper? && WellStacked(env, stack[2..]))
  }

  /** A well stacked configuration that lies wholly inside nests. */
  ghost predicate Nested(env: Env, stack: seq<Context>) {
    || stack == []
    || (|stack| >= 2 && ContextOk(env, stack[0], 1) && stack[1].Wrapper? && Nested(env, stack[2..]))
  }

  ghost predicate PackageOk(env: Env) {
    RulesAnalyzed(env) && NotLeftRecursive(env) && Productive(env)
  }

  lemma {:induction false} CloseNodeAnalyzed(env: Env, close: Token)
    ensures Analyzed(env, CloseNode(close))
  {
  }

  /** A nest's content derives its body and then its closing bracket. */
  lemma {:induction false} ContentMeaning(env: Env, nest: Grammar)
    requires PackageOk(env) && nest.GNest? && Analyzed(env, nest)
    ensures ContextLang(env, Content(nest)) == NestTail(env.rules, Some(nest))
    ensures ContextOk(env, Content(nest), 1)
  {
    var nodes := [nest.body, CloseNode(nest.close)];
    var found := LookaheadConcat(env, nodes, {});
    assert nest.body in ChildrenOf(nest);
    CloseNodeAnalyzed(env, nest.close);
    var rank :| RankedBy(env, rank);
    LeftRefsSeqResolved(env, nodes);
    forall token: Token ensures Decomposes(env.rules, found, SeqLang(Lowered, env.rules, nodes), token) {
      ConcatExact(env, rank, nodes, {}, token);
    }
    ConcatSealed(env, nodes, {});
    ContextFromFound(env.rules, found, 1, SeqLang(Lowered, env.rules, nodes));
    BodyThenClose(env.rules, nest);
    ConcatAnalyzed(env, nodes, {});
    RelabelAnalyzed(env, found.terms, OffsetAll(found.terms, 1));
    RelabelSealed(found.terms, 1);
  }

  lemma {:induction false} BodyThenClose(rules: Rules, nest: Grammar)
    requires nest.GNest?
    ensures SeqLang(Lowered, rules, [nest.body, CloseNode(nest.close)]) == NestTail(rules, Some(nest))
  {
    var close := CloseNode(nest.close);
    assert [nest.body, close][1..] == [close];
    SeqLangOne(rules, close);
    LangToken(Lowered, rules, close);
  }

  lemma RelabelSealed(ts: seq<Terminal>, offset: nat)
    requires AllSealed(ts)
    ensures AllSealed(OffsetAll(ts, offset))
  {
    forall i | 0 <= i < |ts| ensures Sealed(OffsetAll(ts, offset)[i]) {
      assert Sealed(ts[i]);
    }
  }

  /** What follows a terminal becomes the next context, or a pop when nothing can follow. */
  lemma NextMeaning(env: Env, term: Terminal, offset: nat)
    requires PackageOk(env) && TermAnalyzed(env, term) && offset <= 1
    requires offset == 1 ==> Sealed(term)
    ensures var t := term.(nest := None);
            var adv := AdvanceTerminal(env, t);
            && (adv.terms == [] <==> ContLang(env.rules, term) == Epsilon)
            && ContextLang(env, NextContext(adv, offset)) == ContLang(env.rules, term)
            && (adv.terms != [] ==> ContextOk(env, NextContext(adv, offset), offset))
  {
    var t := term.(nest := None);
    var adv := AdvanceTerminal(env, t);
    assert ContLang(env.rules, t) == ContLang(env.rules, term);
    forall token: Token ensures Decomposes(env.rules, adv, ContLang(env.rules, t), token) {
      AdvanceExact(env, t, token);
    }
    AdvanceExact(env, t, 0);
    ContextFromFound(env.rules, adv, offset, ContLang(env.rules, t));
    AdvanceAnalyzed(env, t);
    RelabelAnalyzed(env, adv.terms, OffsetAll(adv.terms, offset));
    if offset == 1 && adv.terms != [] {
      assert LastRemaining(t) == LastRemaining(term);
      if EndsInClose(LastRemaining(t)) {
        AdvanceSealed(env, t);
        RelabelSealed(adv.terms, 1);
      } else {
        BareTerminal(env.rules, t);
      }
    }
  }

  /** The stack left below the top context once the wrapper, if any, is gone. */
  ghost function Below(stack: seq<Context>): seq<Context>
    requires stack != []
  {
    if |stack| == 1 then [] else stack[2..]
  }

  /** A wrapper contributes nothing of its own. */
  lemma {:induction false} WrapperMeaning(env: Env, stack: seq<Context>)
    requires stack != [] && stack[0].Wrapper?
    ensures ConfigLang(env, stack) == ConfigLang(env, stack[1..])
  {
    var below := ConfigLang(env, stack[1..]);
    assert ConfigLang(env, stack) == Cat(Epsilon, below);
    assert Cat(Epsilon, below) == below by {
      CatUnit(below);
    }
  }

  lemma {:induction false} BelowMeaning(env: Env, stack: seq<Context>)
    requires WellStacked(env, stack) && stack != []
    ensures ConfigLang(env, stack[1..]) == ConfigLang(env, Below(stack))
  {
    if |stack| >= 2 {
      assert stack[1..][1..] == stack[2..];
      WrapperMeaning(env, stack[1..]);
    }
  }

  ghost function OffsetOf(stack: seq<Context>): nat {
    if |stack| <= 1 then 0 else 1
  }

  /** next is a well formed stack that stands for what may follow the term on the stack. */
  ghost predicate StepsTo(env: Env, stack: seq<Context>, term: Terminal, next: Option<seq<Context>>)
    requires stack != []
  {
    && next.Some? && WellStacked(env, next.value)
    && (Nested(env, stack) ==> Nested(env, next.value))
    && ConfigLang(env, next.value) == Cat(AfterLang(env.rules, term), ConfigLang(env, stack[1..]))
  }

  lemma {:induction false} PopMeaning(env: Env, stack: seq<Context>, term: Terminal)
    requires WellStacked(env, stack) && stack != [] && term.nest.None?
    requires ContLang(env.rules, term) == Epsilon
    ensures ConfigLang(env, Below(stack)) == Cat(AfterLang(env.rules, term), ConfigLang(env, stack[1..]))
  {
    BelowMeaning(env, stack);
    AfterPlain(env.rules, term);
    CatUnit(ConfigLang(env, Below(stack)));
  }

  /** A completed nest pops its content and its wrapper; outermost, only the context itself. */
  lemma {:induction false} PopShape(env: Env, stack: seq<Context>, term: Terminal)
    requires WellStacked(env, stack) && stack != []
    requires term in TermsOf(env, stack[0]) && term.nest.None?
    requires AdvanceTerminal(env, term.(nest := None)).terms == []
    ensures Apply(BuildTransition(env, term), stack) == Some(Below(stack))
  {
    assert ContextOk(env, stack[0], OffsetOf(stack));
    assert term.popOffset == OffsetOf(stack);
    var tr := BuildTransition(env, term);
    assert tr == Transition(term.token, OpPop, [], 1 + term.popOffset);
    assert stack[tr.popAmount..] == Below(stack);
  }

  lemma NothingFollows(env: Env, term: Terminal)
    requires PackageOk(env) && TermAnalyzed(env, term) && ContLang(env.rules, term) == Epsilon
    ensures AdvanceTerminal(env, term.(nest := None)).terms == []
  {
    NextMeaning(env, term, 0);
  }

  lemma {:induction false} BelowShape(env: Env, stack: seq<Context>)
    requires WellStacked(env, stack) && stack != []
    ensures WellStacked(env, Below(stack))
    ensures Nested(env, stack) ==> Nested(env, Below(stack))
  {
  }

  lemma {:induction false} PopStep(env: Env, stack: seq<Context>, term: Terminal)
    requires PackageOk(env) && WellStacked(env, stack) && stack != []
    requires term in TermsOf(env, stack[0]) && term.nest.None?
    requires ContLang(env.rules, term) == Epsilon
    ensures StepsTo(env, stack, term, Apply(BuildTransition(env, term), stack))
  {
    assert TermAnalyzed(env, term);
    NothingFollows(env, term);
    PopShape(env, stack, term);
    BelowShape(env, stack);
    PopMeaning(env, stack, term);
  }

  lemma AfterPlain(rules: Rules, term: Terminal)
    requires term.nest.None?
    ensures AfterLang(rules, term) == ContLang(rules, term)
  {
    var cont := ContLang(rules, term);
    assert AfterLang(rules, term) == Cat(Epsilon, cont);
    assert Cat(Epsilon, cont) == cont by {
      CatUnit(cont);
    }
  }

  lemma {:induction false} StackedOn(env: Env, c: Context, stack: seq<Context>)
    requires WellStacked(env, stack) && stack != []
    requires ContextOk(env, c, OffsetOf(stack)) && c.Ctx?
    ensures WellStacked(env, [c] + stack[1..])
    ensures Nested(env, stack) ==> Nested(env, [c] + stack[1..])
    ensures ConfigLang(env, [c] + stack[1..]) == Cat(ContextLang(env, c), ConfigLang(env, stack[1..]))
  {
    var s := [c] + stack[1..];
    assert s[0] == c && s[1..] == stack[1..];
    if |stack| >= 2 {
      assert s[1] == stack[1] && s[2..] == stack[2..];
    }
  }

  lemma {:induction false} SetStep(env: Env, stack: seq<Context>, term: Terminal)
    requires PackageOk(env) && WellStacked(env, stack) && stack != []
    requires term in TermsOf(env, stack[0]) && term.nest.None?
    requires ContLang(env.rules, term) != Epsilon
    ensures StepsTo(env, stack, term, Apply(BuildTransition(env, term), stack))
  {
    assert TermAnalyzed(env, term) && term.popOffset == OffsetOf(stack);
    NextMeaning(env, term, OffsetOf(stack));
    var c := NextContext(AdvanceTerminal(env, term.(nest := None)), term.popOffset);
    assert Enter([c], stack[1..]) == [c] + stack[1..] by {
      assert [c][1..] == [];
    }
    StackedOn(env, c, stack);
    AfterPlain(env.rules, term);
  }

  ghost function Inside(nest: Grammar, stack: seq<Context>): (s: seq<Context>)
    ensures |s| == |stack| + 2 && s[0] == Content(nest) && s[1] == Wrapper(nest)
    ensures s[2..] == stack && s[1..] == [Wrapper(nest)] + stack
  {
    [Content(nest), Wrapper(nest)] + stack
  }

  /** Entering a nest leaves the continuation, the wrapper and the content, in that order upwards. */
  lemma {:induction false} EnterNest(env: Env, nest: Grammar, stack: seq<Context>)
    requires PackageOk(env) && nest.GNest? && Analyzed(env, nest) && WellStacked(env, stack)
    ensures Enter([Wrapper(nest)], stack) == [Content(nest), Wrapper(nest)] + stack
    ensures WellStacked(env, [Content(nest), Wrapper(nest)] + stack)
    ensures Nested(env, stack) ==> Nested(env, [Content(nest), Wrapper(nest)] + stack)
    ensures ConfigLang(env, [Content(nest), Wrapper(nest)] + stack) ==
            Cat(NestTail(env.rules, Some(nest)), ConfigLang(env, stack))
  {
    var s := Inside(nest, stack);
    assert [Wrapper(nest)][1..] == [];
    ContentMeaning(env, nest);
    InsideMeaning(env, nest, stack);
  }

  lemma {:induction false} InsideMeaning(env: Env, nest: Grammar, stack: seq<Context>)
    requires ContextLang(env, Content(nest)) == NestTail(env.rules, Some(nest))
    ensures ConfigLang(env, Inside(nest, stack)) == Cat(NestTail(env.rules, Some(nest)), ConfigLang(env, stack))
  {
    var s := Inside(nest, stack);
    assert s[1..][0] == Wrapper(nest) && s[1..][1..] == stack;
    WrapperMeaning(env, s[1..]);
  }

  lemma {:induction false} NestAlone(env: Env, stack: seq<Context>, term: Terminal)
    requires PackageOk(env) && WellStacked(env, stack) && |stack| == 1
    requires TermAnalyzed(env, term) && term.nest.Some? && ContLang(env.rules, term) == Epsilon
    ensures StepsTo(env, stack, term, Some(Enter([Wrapper(term.nest.value)], stack[1..])))
  {
    var nest := term.nest.value;
    EnterNest(env, nest, stack[1..]);
    var tail := NestTail(env.rules, Some(nest));
    assert AfterLang(env.rules, term) == tail by {
      CatUnit(tail);
    }
  }

  lemma {:induction false} NestBefore(env: Env, stack: seq<Context>, term: Terminal, c: Context)
    requires PackageOk(env) && WellStacked(env, stack) && stack != []
    requires TermAnalyzed(env, term) && term.nest.Some?
    requires c.Ctx? && ContextOk(env, c, OffsetOf(stack)) && ContextLang(env, c) == ContLang(env.rules, term)
    ensures StepsTo(env, stack, term, Some(Enter([c, Wrapper(term.nest.value)], stack[1..])))
  {
    var nest, below := term.nest.value, stack[1..];
    StackedOn(env, c, stack);
    EnterNest(env, nest, [c] + below);
    assert [c, Wrapper(nest)][1..] == [Wrapper(nest)];
    CatAssoc(NestTail(env.rules, Some(nest)), ContLang(env.rules, term), ConfigLang(env, below));
  }

  lemma {:induction false} NestStep(env: Env, stack: seq<Context>, term: Terminal)
    requires PackageOk(env) && WellStacked(env, stack) && stack != []
    requires term in TermsOf(env, stack[0]) && term.nest.Some?
    ensures StepsTo(env, stack, term, Apply(BuildTransition(env, term), stack))
  {
    assert TermAnalyzed(env, term) && term.popOffset == OffsetOf(stack);
    NextMeaning(env, term, OffsetOf(stack));
    var adv := AdvanceTerminal(env, term.(nest := None));
    if adv.terms == [] {
      NestNotSealedEmpty(env, stack, term);
      NestAlone(env, stack, term);
    } else {
      NestBefore(env, stack, term, NextContext(adv, term.popOffset));
    }
  }

  /** Inside a nest something always follows an inner nest, so only the outermost context is replaced. */
  lemma {:induction false} NestNotSealedEmpty(env: Env, stack: seq<Context>, term: Terminal)
    requires WellStacked(env, stack) && stack != []
    requires term in TermsOf(env, stack[0]) && term.nest.Some?
    requires ContLang(env.rules, term) == Epsilon
    ensures |stack| == 1
  {
    if |stack| >= 2 {
      assert Sealed(term);
      SealedNotNullable(env.rules, term);
    }
  }

  /** Every transition of a well stacked machine leads where the consumed terminal says. */
  lemma {:induction false} StepMeaning(env: Env, stack: seq<Context>, i: nat)
    requires PackageOk(env) && WellStacked(env, stack) && stack != [] && i < |TermsOf(env, stack[0])|
    ensures StepsTo(env, stack, TermsOf(env, stack[0])[i], Step(env, stack, i))
  {
    var term := TermsOf(env, stack[0])[i];
    assert TermAnalyzed(env, term);
    if term.nest.Some? {
      NestStep(env, stack, term);
    } else if ContLang(env.rules, term) == Epsilon {
      PopStep(env, stack, term);
    } else {
      SetStep(env, stack, term);
    }
  }

  // --------------------------------------------------------------- acceptance

  /** A word of the top context and the rest starts with one of the context's terminals. */
  lemma {:induction false} ConfigFirst(env: Env, stack: seq<Context>, token: Token, v: Word)
    requires WellStacked(env, stack) && stack != []
    ensures [token] + v in ConfigLang(env, stack) <==>
            v in Cat(TermsLang(env.rules, TermsOf(env, stack[0]), token), ConfigLang(env, stack[1..]))
  {
    var c, rest := stack[0], ConfigLang(env, stack[1..]);
    var nullable := c.Ctx? && c.optionalContinuation;
    TermListDeriv(env.rules, TermsOf(env, c), nullable, token);
    DerivCat(token, ContextLang(env, c), rest);
    if nullable {
      assert |stack| == 1;
      DerivSingle(token, token);
    }
    assert v in Deriv(token, ConfigLang(env, stack)) <==> [token] + v in ConfigLang(env, stack);
  }

  lemma {:induction false} TermsThen(rules: Rules, ts: seq<Terminal>, token: Token, rest: Language, v: Word)
    ensures v in Cat(TermsLang(rules, ts, token), rest) <==>
            exists i: nat :: i < |ts| && ts[i].token == token && v in Cat(AfterLang(rules, ts[i]), rest)
  {
    if ts == [] {
      CatEmpty(rest);
    } else {
      TermsThen(rules, ts[1..], token, rest, v);
      var head := if ts[0].token == token then AfterLang(rules, ts[0]) else Empty;
      CatUnionLeft(head, TermsLang(rules, ts[1..], token), rest);
      CatEmpty(rest);
      if v in Cat(TermsLang(rules, ts[1..], token), rest) {
        var i: nat :| i < |ts[1..]| && ts[1..][i].token == token && v in Cat(AfterLang(rules, ts[1..][i]), rest);
        assert ts[i + 1] == ts[1..][i];
      }
      if i: nat :| i < |ts| && ts[i].token == token && v in Cat(AfterLang(rules, ts[i]), rest) {
        if i > 0 {
          assert ts[1..][i - 1] == ts[i];
        }
      }
    }
  }

  lemma {:induction false} ConfigNullable(env: Env, stack: seq<Context>)
    requires WellStacked(env, stack)
    ensures [] in ConfigLang(env, stack) <==> MayStop(stack)
  {
    if stack != [] {
      var c := stack[0];
      CatNullable(ContextLang(env, c), ConfigLang(env, stack[1..]));
      TermListDeriv(env.rules, TermsOf(env, c), c.Ctx? && c.optionalContinuation, 0);
    }
  }

  /** Running a well stacked machine accepts exactly the words its configuration stands for. */
  lemma {:induction false} MachineExact(env: Env, stack: seq<Context>, w: Word)
    requires PackageOk(env) && WellStacked(env, stack)
    ensures Accepts(env, stack, w) <==> w in ConfigLang(env, stack)
    decreases |w|
  {
    if w == [] {
      ConfigNullable(env, stack);
    } else if stack == [] {
      assert w !in Epsilon;
    } else {
      var token, v := w[0], w[1..];
      assert w == [token] + v;
      var ts, rest := TermsOf(env, stack[0]), ConfigLang(env, stack[1..]);
      ConfigFirst(env, stack, token, v);
      TermsThen(env.rules, ts, token, rest, v);
      if w in ConfigLang(env, stack) {
        var i: nat :| i < |ts| && ts[i].token == token && v in Cat(AfterLang(env.rules, ts[i]), rest);
        StepMeaning(env, stack, i);
        var next := Step(env, stack, i).value;
        MachineExact(env, next, v);
        assert Moves(env, stack, token, i, next);
      }
      if Accepts(env, stack, w) {
        var i: nat, next :| Moves(env, stack, token, i, next) && Accepts(env, next, v);
        StepMeaning(env, stack, i);
        MachineExact(env, next, v);
      }
    }
  }

  lemma {:induction false} RootOk(env: Env, entry: Grammar)
    requires PackageOk(env) && Analyzed(env, entry)
    ensures WellStacked(env, [Root(env, entry)])
    ensures ConfigLang(env, [Root(env, entry)]) == Lang(Lowered, env.rules, entry)
  {
    var rank :| RankedBy(env, rank);
    var found := LookaheadNode(env, entry, {});
    var a := Lang(Lowered, env.rules, entry);
    LeftRefsResolved(env, entry);
    forall token: Token ensures Decomposes(env.rules, found, a, token) {
      LookaheadExact(env, rank, entry, {}, token);
    }
    ContextFromFound(env.rules, found, 0, a);
    LookaheadAnalyzed(env, entry, {});
    OneContext(env, Root(env, entry));
  }

  lemma {:induction false} OneContext(env: Env, c: Context)
    ensures ConfigLang(env, [c]) == ContextLang(env, c)
  {
    var a := ContextLang(env, c);
    assert ConfigLang(env, [c]) == Cat(a, Epsilon) by {
      assert [c][1..] == [];
    }
    assert Cat(a, Epsilon) == a by {
      CatUnit(a);
    }
  }

  /**
   The state graph, run as a pushdown machine from its root, accepts exactly the lowered
   language of the entry rule: every word of the entry rule, and no other when all
   repetitions are plain stars and pluses.
   */
  lemma {:induction false} StateGraphExact(env: Env, entry: Grammar, w: Word)
    requires PackageOk(env) && Analyzed(env, entry)
    ensures Accepts(env, [Root(env, entry)], w) <==> w in Lang(Lowered, env.rules, entry)
    ensures w in Lang(Exact, env.rules, entry) ==> Accepts(env, [Root(env, entry)], w)
    ensures PlainRules(env.rules) && PlainRepeats(entry) ==>
              (Accepts(env, [Root(env, entry)], w) <==> w in Lang(Exact, env.rules, entry))
  {
    RootOk(env, entry);
    MachineExact(env, [Root(env, entry)], w);
    LoweredCoversExact(env.rules, entry);
  }

  // ------------------------------------------------------------------- nests

  lemma {:induction false} NestedIsWellStacked(env: Env, stack: seq<Context>)
    requires Nested(env, stack)
    ensures WellStacked(env, stack)
  {
    if stack != [] {
      NestedIsWellStacked(env, stack[2..]);
    }
  }

  lemma {:induction false} EnterAppend(targets: seq<Context>, s: seq<Context>, rest: seq<Context>)
    ensures Enter(targets, s + rest) == Enter(targets, s) + rest
  {
    if targets != [] {
      var c := targets[0];
      var head := if c.Wrapper? then [Content(c.nest), c] else [c];
      assert head + (s + rest) == (head + s) + rest;
      EnterAppend(targets[1..], head + s, rest);
    }
  }

  /** A move of the upper part of a stack leaves what is below it alone. */
  lemma MoveBelowUntouched(env: Env, s: seq<Context>, rest: seq<Context>, token: Token, i: nat, next: seq<Context>)
    requires Moves(env, s, token, i, next)
    ensures Moves(env, s + rest, token, i, next + rest)
  {
    assert (s + rest)[0] == s[0] && (s + rest)[1..] == s[1..] + rest;
    var tr := BuildTransition(env, TermsOf(env, s[0])[i]);
    match tr.op {
      case OpPop => assert (s + rest)[tr.popAmount..] == s[tr.popAmount..] + rest;
      case OpSet => EnterAppend(tr.targets, s[1..], rest);
    }
  }

  /**
   From a stack inside nests, every word of its configuration has a run that pops exactly
   the contexts of those nests and uncovers the stack below.
   */
  lemma {:induction false} NestedRunUncovers(env: Env, s: seq<Context>, rest: seq<Context>, w: Word)
    requires PackageOk(env) && Nested(env, s)
    requires Accepts(env, s, w)
    ensures Reaches(env, s + rest, w, rest)
    decreases |w|
  {
    if w == [] {
      assert s == [];
      assert s + rest == rest;
    } else {
      var i: nat, next :| Moves(env, s, w[0], i, next) && Accepts(env, next, w[1..]);
      NestedIsWellStacked(env, s);
      StepMeaning(env, s, i);
      NestedRunUncovers(env, next, rest, w[1..]);
      MoveBelowUntouched(env, s, rest, w[0], i, next);
    }
  }

  /** A nest is left, popping exactly its content and wrapper, on the words body-then-close and no others. */
  lemma {:induction false} NestPopsContentAndWrapper(env: Env, nest: Grammar, rest: seq<Context>, w: Word)
    requires PackageOk(env) && nest.GNest? && Analyzed(env, nest)
    ensures Accepts(env, [Content(nest), Wrapper(nest)], w) <==> w in NestTail(env.rules, Some(nest))
    ensures w in NestTail(env.rules, Some(nest)) ==>
              Reaches(env, [Content(nest), Wrapper(nest)] + rest, w, rest)
  {
    var s := [Content(nest), Wrapper(nest)];
    var tail := NestTail(env.rules, Some(nest));
    EnterNest(env, nest, []);
    assert s + [] == s;
    MachineExact(env, s, w);
    CatEpsilonRight(tail, w);
    if w in tail {
      NestedRunUncovers(env, s, rest, w);
    }
  }
}
