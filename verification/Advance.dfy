/**
 advanceTerminal: the terminals that may come after a terminal's token, found by
 walking its remaining nodes and then its frames from the inside out until one of them
 cannot be skipped.
 */
module Advance {
  import opened Languages
  import opened Grammars
  import opened Semantics
  import opened Guards
  import opened Terminals
  import opened Lookaheads

  /** The remaining nodes as level zero, then the frames. */
  function Levels(t: Terminal): seq<Frame> {
    [Frame(None, "", t.remaining)] + t.stack
  }

  /** computeLookaheadForFrame: loop again, or go on with what remains. */
  function FrameLookahead(env: Env, f: Frame): Found {
    var exit := LookaheadConcat(env, f.remaining, {});
    if f.rep.Some? then
      var again := LookaheadNode(env, f.rep.value, {});
      Found(ExtendAll(again.terms, f.remaining) + exit.terms, exit.nullable)
    else exit
  }

  /** appendLookaheadWithStack: put back the outer frames and the guard that is still pending. */
  function Reattach(ts: seq<Terminal>, shifted: Guard, outer: seq<Frame>): seq<Terminal> {
    GuardAll(EncloseAll(ts, outer), shifted)
  }

  function AdvanceLevels(env: Env, levels: seq<Frame>, shifted: Guard): Found {
    if levels == [] then Found([], true)
    else if levels[0].remaining == [] && levels[0].rep.None? then AdvanceLevels(env, levels[1..], shifted)
    else
      var here := FrameLookahead(env, levels[0]);
      var terms := Reattach(here.terms, shifted, levels[1..]);
      if !here.nullable then Found(terms, false)
      else
        var rest := AdvanceLevels(env, levels[1..], shifted);
        Found(terms + rest.terms, rest.nullable)
  }

  function AdvanceTerminal(env: Env, t: Terminal): Found {
    var found := AdvanceLevels(env, Levels(t), Shift(t.guard, t.token));
    if found.terms == [] then Found([], true) else found
  }

  // ------------------------------------------------------------- productivity

  /** Every rule derives some word. */
  ghost predicate Productive(env: Env) {
    forall l :: l in env.rules ==> Lang(Lowered, env.rules, env.rules[l]) != Empty
  }

  lemma {:induction false} NodeProductive(env: Env, g: Grammar)
    requires Productive(env) && Analyzed(env, g)
    ensures Lang(Lowered, env.rules, g) != Empty
    decreases g
  {
    var rules := env.rules;
    match g {
      case GToken(_, token) =>
        LangToken(Lowered, rules, g);
        assert [token] in Single(token);
      case GEpsilon(_) =>
        LangEpsilon(Lowered, rules, g);
        assert [] in Epsilon;
      case GConcat(_, children) =>
        assert ChildrenOf(g) == children;
        LangConcat(Lowered, rules, g);
        SeqProductive(env, children);
      case GChoice(_, children) =>
        assert ChildrenOf(g) == children;
        LangChoice(Lowered, rules, g);
        NodeProductive(env, children[0]);
      case GRepeat(_, body, min, _) =>
        assert body in ChildrenOf(g);
        LangRepeat(Lowered, rules, g);
        NodeProductive(env, body);
        StarInhabited(Lang(Lowered, rules, body));
        CatInhabited(Lang(Lowered, rules, body), Star(Lang(Lowered, rules, body)));
      case GOptional(_, body) =>
        LangOptional(Lowered, rules, g);
        assert [] in Lang(Lowered, rules, g);
      case GNest(_, open, close, body) =>
        assert body in ChildrenOf(g);
        LangNest(Lowered, rules, g);
        NodeProductive(env, body);
        assert [close] in Single(close) && [open] in Single(open);
        CatInhabited(Lang(Lowered, rules, body), Single(close));
        CatInhabited(Single(open), Cat(Lang(Lowered, rules, body), Single(close)));
      case GReference(_, target) =>
        LangReference(Lowered, rules, g);
    }
  }

  lemma StarInhabited(a: Language)
    ensures [] in Star(a)
    ensures Star(a) != Empty
  {
    assert Rounds(a, 0, []);
  }

  lemma {:induction false} SeqProductive(env: Env, gs: seq<Grammar>)
    requires Productive(env) && forall g :: g in gs ==> Analyzed(env, g)
    ensures SeqLang(Lowered, env.rules, gs) != Empty
    decreases gs
  {
    if gs == [] {
      assert [] in Epsilon;
    } else {
      NodeProductive(env, gs[0]);
      SeqProductive(env, gs[1..]);
      CatInhabited(Lang(Lowered, env.rules, gs[0]), SeqLang(Lowered, env.rules, gs[1..]));
    }
  }

  lemma {:induction false} StackProductive(env: Env, stack: seq<Frame>)
    requires Productive(env) && forall f :: f in stack ==> FrameAnalyzed(env, f)
    ensures StackLang(env.rules, stack) != Empty
  {
    if stack == [] {
      assert [] in Epsilon;
    } else {
      var f := stack[0];
      assert FrameAnalyzed(env, f);
      assert [] in RepLang(env.rules, f.rep);
      SeqProductive(env, f.remaining);
      CatInhabited(RepLang(env.rules, f.rep), SeqLang(Lowered, env.rules, f.remaining));
      StackProductive(env, stack[1..]);
      CatInhabited(FrameLang(env.rules, f), StackLang(env.rules, stack[1..]));
    }
  }

  // --------------------------------------------------------------- exactness

  lemma {:induction false} PlainFrameIsSequence(rules: Rules, gs: seq<Grammar>)
    ensures FrameLang(rules, Frame(None, "", gs)) == SeqLang(Lowered, rules, gs)
  {
    var s := SeqLang(Lowered, rules, gs);
    assert FrameLang(rules, Frame(None, "", gs)) == Cat(Epsilon, s);
    assert Cat(Epsilon, s) == s by {
      CatUnit(s);
    }
  }

  lemma {:induction false} LevelsUnfold(rules: Rules, t: Terminal)
    ensures StackLang(rules, Levels(t)) == Cat(FrameLang(rules, Frame(None, "", t.remaining)), StackLang(rules, t.stack))
  {
    assert Levels(t)[1..] == t.stack;
  }

  lemma {:induction false} LevelsMeaning(rules: Rules, t: Terminal)
    ensures StackLang(rules, Levels(t)) == ContLang(rules, t)
  {
    LevelsUnfold(rules, t);
    PlainFrameIsSequence(rules, t.remaining);
  }

  lemma LevelsAnalyzed(env: Env, t: Terminal)
    requires TermAnalyzed(env, t)
    ensures forall f :: f in Levels(t) ==> FrameAnalyzed(env, f)
  {
  }

  /** The start of a repetition frame's language is the node's start, then the frame's own start. */
  lemma {:induction false} FrameDeriv(rules: Rules, f: Frame, token: Token)
    requires f.rep.Some?
    ensures Deriv(token, FrameLang(rules, f)) ==
            Cat(Deriv(token, Lang(Lowered, rules, f.rep.value)), SeqLang(Lowered, rules, f.remaining))
            + Deriv(token, SeqLang(Lowered, rules, f.remaining))
  {
    var l, r := Lang(Lowered, rules, f.rep.value), SeqLang(Lowered, rules, f.remaining);
    DerivCat(token, Epsilon + l, r);
    assert Deriv(token, Epsilon + l) == Deriv(token, l) by {
      DerivUnion(token, Epsilon, l);
      DerivSingle(token, token);
    }
    assert [] in Epsilon + l;
  }

  lemma {:induction false} FrameNullable(rules: Rules, f: Frame)
    ensures [] in FrameLang(rules, f) <==> [] in SeqLang(Lowered, rules, f.remaining)
  {
    CatNullable(RepLang(rules, f.rep), SeqLang(Lowered, rules, f.remaining));
  }

  lemma FrameExact(env: Env, rank: map<Label, nat>, f: Frame, token: Token)
    requires RulesAnalyzed(env) && RankedBy(env, rank) && FrameAnalyzed(env, f)
    ensures Decomposes(env.rules, FrameLookahead(env, f), FrameLang(env.rules, f), token)
  {
    LeftRefsSeqResolved(env, f.remaining);
    ConcatExact(env, rank, f.remaining, {}, token);
    FrameNullable(env.rules, f);
    if f.rep.Some? {
      LeftRefsResolved(env, f.rep.value);
      LookaheadExact(env, rank, f.rep.value, {}, token);
      FrameDeriv(env.rules, f, token);
      var again := LookaheadNode(env, f.rep.value, {}).terms;
      TermsExtend(env.rules, again, f.remaining, token);
      TermsAppend(env.rules, ExtendAll(again, f.remaining), LookaheadConcat(env, f.remaining, {}).terms, token);
    } else {
      CatUnit(SeqLang(Lowered, env.rules, f.remaining));
    }
  }

  lemma {:induction false} ReattachMeaning(rules: Rules, ts: seq<Terminal>, shifted: Guard, outer: seq<Frame>, token: Token)
    ensures TermsLang(rules, Reattach(ts, shifted, outer), token) ==
            Cat(TermsLang(rules, ts, token), StackLang(rules, outer))
  {
    TermsEnclose(rules, ts, outer, token);
    TermsRelabel(rules, EncloseAll(ts, outer), Reattach(ts, shifted, outer), token);
  }

  lemma EmptyFrame(rules: Rules, f: Frame)
    requires f.remaining == [] && f.rep.None?
    ensures FrameLang(rules, f) == Epsilon
  {
    PlainFrame(rules, f.frameLabel);
    assert f == Frame(None, f.frameLabel, []);
    CatUnit(Epsilon);
  }

  lemma {:induction false} AdvanceLevelsExact(env: Env, rank: map<Label, nat>, levels: seq<Frame>, shifted: Guard, token: Token)
    requires RulesAnalyzed(env) && RankedBy(env, rank)
    requires forall f :: f in levels ==> FrameAnalyzed(env, f)
    ensures Decomposes(env.rules, AdvanceLevels(env, levels, shifted), StackLang(env.rules, levels), token)
  {
    var rules := env.rules;
    if levels == [] {
      DerivSingle(token, token);
    } else {
      var f, outer := levels[0], levels[1..];
      if f.remaining == [] && f.rep.None? {
        AdvanceLevelsExact(env, rank, outer, shifted, token);
        EmptyFrame(rules, f);
        CatUnit(StackLang(rules, outer));
      } else {
        FrameExact(env, rank, f, token);
        var here := FrameLookahead(env, f);
        DerivCat(token, FrameLang(rules, f), StackLang(rules, outer));
        CatNullable(FrameLang(rules, f), StackLang(rules, outer));
        ReattachMeaning(rules, here.terms, shifted, outer, token);
        if here.nullable {
          AdvanceLevelsExact(env, rank, outer, shifted, token);
          TermsAppend(rules, Reattach(here.terms, shifted, outer), AdvanceLevels(env, outer, shifted).terms, token);
        }
      }
    }
  }

  /** Without terminals on any token, only the empty word can be left. */
  lemma NoTermsOnlyEmpty(rules: Rules, a: Language)
    requires a != Empty
    requires forall token: Token :: Deriv(token, a) == Empty
    ensures a == Epsilon
  {
    forall w | w in a ensures w == [] {
      var t := if w == [] then 0 else w[0];
      assert w != [] ==> w == [t] + w[1..];
      assert w != [] ==> w[1..] in Deriv(t, a);
    }
    var w :| w in a;
  }

  /**
   advanceTerminal is the exact first-step decomposition of what follows the token, through
   any mix of repetition and plain frames, and its boolean says whether nothing need follow.
   */
  lemma AdvanceExact(env: Env, t: Terminal, token: Token)
    requires RulesAnalyzed(env) && NotLeftRecursive(env) && Productive(env) && TermAnalyzed(env, t)
    ensures Decomposes(env.rules, AdvanceTerminal(env, t), ContLang(env.rules, t), token)
    ensures AdvanceTerminal(env, t).terms == [] <==> ContLang(env.rules, t) == Epsilon
  {
    var rank :| RankedBy(env, rank);
    var levels, shifted := Levels(t), Shift(t.guard, t.token);
    LevelsAnalyzed(env, t);
    LevelsMeaning(env.rules, t);
    AdvanceLevelsExact(env, rank, levels, shifted, token);
    if AdvanceLevels(env, levels, shifted).terms == [] {
      StackProductive(env, levels);
      forall any: Token ensures Deriv(any, ContLang(env.rules, t)) == Empty {
        AdvanceLevelsExact(env, rank, levels, shifted, any);
      }
      NoTermsOnlyEmpty(env.rules, ContLang(env.rules, t));
    } else {
      var first := AdvanceTerminal(env, t).terms[0];
      AdvanceAnalyzed(env, t);
      AdvanceLevelsExact(env, rank, levels, shifted, first.token);
      FirstTermContributes(env, AdvanceTerminal(env, t).terms);
      DerivSingle(first.token, first.token);
    }
  }

  lemma {:induction false} FirstTermContributes(env: Env, ts: seq<Terminal>)
    requires Productive(env) && TermsAnalyzed(env, ts) && ts != []
    ensures TermsLang(env.rules, ts, ts[0].token) != Empty
  {
    var t := ts[0];
    LevelsAnalyzed(env, t);
    LevelsMeaning(env.rules, t);
    StackProductive(env, Levels(t));
    assert NestTail(env.rules, t.nest) != Empty by {
      if t.nest.Some? {
        var g := t.nest.value;
        assert g.body in ChildrenOf(g);
        NodeProductive(env, g.body);
        assert [g.close] in Single(g.close);
        CatInhabited(Lang(Lowered, env.rules, g.body), Single(g.close));
      } else {
        assert [] in Epsilon;
      }
    }
    CatInhabited(NestTail(env.rules, t.nest), ContLang(env.rules, t));
    var w :| w in AfterLang(env.rules, t);
    assert w in TermsLang(env.rules, ts, t.token);
  }

  // ------------------------------------------------- closure of the analyzed nodes

  lemma FrameLookaheadAnalyzed(env: Env, f: Frame)
    requires RulesAnalyzed(env) && FrameAnalyzed(env, f)
    ensures TermsAnalyzed(env, FrameLookahead(env, f).terms)
  {
    ConcatAnalyzed(env, f.remaining, {});
    if f.rep.Some? {
      LookaheadAnalyzed(env, f.rep.value, {});
      ExtendAnalyzed(env, LookaheadNode(env, f.rep.value, {}).terms, f.remaining);
    }
  }

  lemma {:induction false} AdvanceLevelsAnalyzed(env: Env, levels: seq<Frame>, shifted: Guard)
    requires RulesAnalyzed(env) && forall f :: f in levels ==> FrameAnalyzed(env, f)
    ensures TermsAnalyzed(env, AdvanceLevels(env, levels, shifted).terms)
  {
    if levels != [] {
      AdvanceLevelsAnalyzed(env, levels[1..], shifted);
      FrameLookaheadAnalyzed(env, levels[0]);
      var ts := FrameLookahead(env, levels[0]).terms;
      EncloseAnalyzed(env, ts, levels[1..]);
      RelabelAnalyzed(env, EncloseAll(ts, levels[1..]), Reattach(ts, shifted, levels[1..]));
    }
  }

  lemma AdvanceAnalyzed(env: Env, t: Terminal)
    requires RulesAnalyzed(env) && TermAnalyzed(env, t)
    ensures TermsAnalyzed(env, AdvanceTerminal(env, t).terms)
  {
    LevelsAnalyzed(env, t);
    AdvanceLevelsAnalyzed(env, Levels(t), Shift(t.guard, t.token));
  }
}
