/**
 The lowering pass as it runs: one object that carries the rule map, the analysis and the
 visiting set, with loops that edit terminal lists. Every method is tied to the function
 that specifies it, so what is proved about those functions holds of the pass.
 */
module LoweringPass {
  import opened Languages
  import opened Grammars
  import opened Guards
  import opened Terminals
  import L = Lookaheads
  import A = Advance

  lemma Grouped(a: seq<Terminal>, b: seq<Terminal>, c: seq<Terminal>)
    ensures a + (b + c) == (a + b) + c
  {
  }

  lemma {:induction false} FilterSplit(out: seq<Terminal>, terms: seq<Terminal>, i: nat, first: set<Token>)
    requires i < |terms|
    ensures var kept := if terms[i].token in first then out + [terms[i]] else out;
            kept + FilterByFirst(terms[i + 1..], first) == out + FilterByFirst(terms[i..], first)
  {
    var rest := FilterByFirst(terms[i + 1..], first);
    assert terms[i..][0] == terms[i] && terms[i..][1..] == terms[i + 1..];
    if terms[i].token in first {
      Grouped(out, [terms[i]], rest);
    } else {
      assert [] + rest == rest;
    }
  }

  /** The part of a concat's terminals still to come, one node further on. */
  lemma {:induction false} ConcatSplit(env: Env, nodes: seq<Grammar>, i: nat, visiting: set<Label>, terms: seq<Terminal>)
    requires i < |nodes|
    ensures var head := L.LookaheadNode(env, nodes[i], visiting);
            var here, rest := L.LookaheadConcat(env, nodes[i..], visiting), L.LookaheadConcat(env, nodes[i + 1..], visiting);
            var ts := ExtendAll(head.terms, nodes[i + 1..]);
            if head.nullable then here.nullable == rest.nullable && terms + here.terms == (terms + ts) + rest.terms
            else !here.nullable && terms + here.terms == terms + ts
  {
    assert nodes[i..][0] == nodes[i] && nodes[i..][1..] == nodes[i + 1..];
    var ts := ExtendAll(L.LookaheadNode(env, nodes[i], visiting).terms, nodes[i + 1..]);
    var rest := L.LookaheadConcat(env, nodes[i + 1..], visiting);
    Grouped(terms, ts, rest.terms);
  }

  /** The part of a choice's terminals still to come, one arm further on. */
  lemma {:induction false} ChoiceSplit(env: Env, arms: seq<Grammar>, i: nat, visiting: set<Label>, all: seq<Terminal>)
    requires i < |arms|
    ensures var head := L.LookaheadArm(env, arms[i], visiting);
            var here, rest := L.LookaheadChoice(env, arms[i..], visiting), L.LookaheadChoice(env, arms[i + 1..], visiting);
            all + here.terms == (all + head.terms) + rest.terms && here.nullable == (head.nullable || rest.nullable)
  {
    assert arms[i..][0] == arms[i] && arms[i..][1..] == arms[i + 1..];
    var head, rest := L.LookaheadArm(env, arms[i], visiting), L.LookaheadChoice(env, arms[i + 1..], visiting);
    Grouped(all, head.terms, rest.terms);
  }

  /** What the walk over the first i levels has found; open says that the next level is still to be looked at. */
  ghost predicate WalkedOver(env: Env, term: Terminal, i: nat, result: seq<Terminal>, open: bool)
    requires i <= |term.stack| + 1
  {
    var shifted, levels := Shift(term.guard, term.token), A.Levels(term);
    var goal, rest := A.AdvanceLevels(env, levels, shifted), A.AdvanceLevels(env, levels[i..], shifted);
    if open then result + rest.terms == goal.terms && rest.nullable == goal.nullable
    else result == goal.terms && !goal.nullable
  }

  lemma AdvanceStarts(env: Env, term: Terminal)
    ensures WalkedOver(env, term, 0, [], true)
  {
    var levels := A.Levels(term);
    var goal := A.AdvanceLevels(env, levels, Shift(term.guard, term.token));
    assert levels[0..] == levels && [] + goal.terms == goal.terms;
  }

  lemma {:induction false} AdvanceEnds(env: Env, term: Terminal, i: nat, result: seq<Terminal>, open: bool)
    requires i <= |term.stack| + 1 && WalkedOver(env, term, i, result, open) && (open ==> i == |term.stack| + 1)
    ensures A.AdvanceLevels(env, A.Levels(term), Shift(term.guard, term.token)) == L.Found(result, open)
  {
    assert A.Levels(term)[|term.stack| + 1..] == [];
    assert result + [] == result;
  }

  /** One unfolding of the walk at level i. */
  lemma LevelSplit(env: Env, term: Terminal, i: nat, before: seq<Terminal>)
    requires i <= |term.stack| && WalkedOver(env, term, i, before, true)
    ensures var f := if i == 0 then Frame(None, "", term.remaining) else term.stack[i - 1];
            var here := A.FrameLookahead(env, f);
            if f.remaining == [] && f.rep.None? then WalkedOver(env, term, i + 1, before, true)
            else WalkedOver(env, term, i + 1, before + A.Reattach(here.terms, Shift(term.guard, term.token), term.stack[i..]), here.nullable)
  {
    var shifted, levels := Shift(term.guard, term.token), A.Levels(term);
    var f := if i == 0 then Frame(None, "", term.remaining) else term.stack[i - 1];
    assert levels[i..][0] == f && levels[i..][1..] == levels[i + 1..] == term.stack[i..];
    if !(f.remaining == [] && f.rep.None?) {
      var terms := A.Reattach(A.FrameLookahead(env, f).terms, shifted, term.stack[i..]);
      Grouped(before, terms, A.AdvanceLevels(env, levels[i + 1..], shifted).terms);
    }
  }

  class Lowerer {
    const env: Env
    var visiting: set<Label>

    constructor (env: Env)
      ensures this.env == env && visiting == {}
    {
      this.env := env;
      visiting := {};
    }

    /** The edit shared by concat and the repetition continuation: `*last = append(*last, suffix...)`. */
    method ExtendEach(terms: seq<Terminal>, suffix: seq<Grammar>) returns (ts: seq<Terminal>)
      ensures ts == ExtendAll(terms, suffix)
    {
      ts := terms;
      for j := 0 to |ts|
        invariant |ts| == |terms|
        invariant forall k :: 0 <= k < j ==> ts[k] == Extend(terms[k], suffix)
        invariant forall k :: j <= k < |ts| ==> ts[k] == terms[k]
      {
        var t := ts[j];
        if |t.stack| == 0 {
          t := t.(remaining := t.remaining + suffix);
        } else {
          var last := |t.stack| - 1;
          var f := t.stack[last];
          t := t.(stack := t.stack[last := f.(remaining := f.remaining + suffix)]);
        }
        ts := ts[j := t];
      }
    }

    method PushEach(terms: seq<Terminal>, f: Frame) returns (ts: seq<Terminal>)
      ensures ts == EncloseAll(terms, [f])
    {
      ts := terms;
      for j := 0 to |ts|
        invariant |ts| == |terms|
        invariant forall k :: 0 <= k < j ==> ts[k] == Enclose(terms[k], [f])
        invariant forall k :: j <= k < |ts| ==> ts[k] == terms[k]
      {
        ts := ts[j := ts[j].(stack := ts[j].stack + [f])];
      }
    }

    /** filterTermsByArmFirst: rewrites the slice over its own storage. */
    method FilterTermsByArmFirst(terms: seq<Terminal>, first: set<Token>) returns (out: seq<Terminal>)
      ensures out == if first == {} then terms else FilterByFirst(terms, first)
    {
      if first == {} || |terms| == 0 {
        return terms;
      }
      out := [];
      for i := 0 to |terms|
        invariant out + FilterByFirst(terms[i..], first) == FilterByFirst(terms, first)
      {
        FilterSplit(out, terms, i, first);
        if terms[i].token in first {
          out := out + [terms[i]];
        }
      }
      assert out + [] == out;
    }

    method LookaheadNode(g: Grammar) returns (ts: seq<Terminal>, n: bool)
      modifies this
      ensures visiting == old(visiting)
      ensures L.Found(ts, n) == L.LookaheadNode(env, g, visiting)
      decreases env.rules.Keys - visiting, g, 1
    {
      match g {
        case GToken(_, token) =>
          ts, n := [Terminal(token, [], [], None, 0, [])], false;
        case GEpsilon(_) =>
          ts, n := [], true;
        case GConcat(_, children) =>
          ts, n := LookaheadConcat(Some(g), children);
        case GChoice(_, children) =>
          ts, n := LookaheadChoice(g, children);
        case GRepeat(_, _, _, _) =>
          ts, n := LookaheadRepetition(g);
        case GOptional(_, _) =>
          ts, n := LookaheadRepetition(g);
        case GReference(_, _) =>
          ts, n := LookaheadReference(g);
        case GNest(_, open, _, _) =>
          ts, n := [Terminal(open, [], [], Some(g), 0, [])], false;
      }
      if env.analysis.Some? && g.info.path.Some? {
        n := AnalysisNullable(env.analysis.value, g.info.path.value);
      }
      if g.info.hasRecovery && !g.GRepeat? && !g.GOptional? && !g.GReference? {
        ts := PushEach(ts, Frame(None, g.info.grammarLabel, []));
      } else {
        L.EncloseNone(ts);
      }
    }

    method GuardEach(plain: seq<Terminal>, guard: Guard) returns (ts: seq<Terminal>)
      ensures ts == GuardAll(plain, guard)
    {
      ts := plain;
      for j := 0 to |ts|
        invariant |ts| == |plain|
        invariant forall k :: 0 <= k < j ==> ts[k] == plain[k].(guard := Merge(guard, plain[k].guard))
        invariant forall k :: j <= k < |ts| ==> ts[k] == plain[k]
      {
        ts := ts[j := ts[j].(guard := Merge(guard, ts[j].guard))];
      }
    }

    /** One round of the choice loop: filter by the arm's FIRST, then conjoin its guard. */
    method LookaheadArm(child: Grammar) returns (ts: seq<Terminal>, n: bool)
      modifies this
      ensures visiting == old(visiting)
      ensures L.Found(ts, n) == L.LookaheadArm(env, child, visiting)
      decreases env.rules.Keys - visiting, child, 2
    {
      ts, n := LookaheadNode(child);
      var first := L.ArmFirst(env, child);
      if first.Some? {
        ts := FilterTermsByArmFirst(ts, first.value);
      }
      var guard := L.ArmGuard(env, child);
      if |guard| > 0 {
        ts := GuardEach(ts, guard);
      }
    }

    method LookaheadChoice(g: Grammar, arms: seq<Grammar>) returns (all: seq<Terminal>, anyNull: bool)
      requires g.GChoice? && arms == g.children
      modifies this
      ensures visiting == old(visiting)
      ensures all == L.LookaheadChoice(env, arms, visiting).terms
      ensures anyNull == L.OverrideNullable(env, g, L.LookaheadChoice(env, arms, visiting).nullable)
      decreases env.rules.Keys - visiting, arms, 0
    {
      all, anyNull := [], false;
      ghost var goal := L.LookaheadChoice(env, arms, visiting);
      for i := 0 to |arms|
        invariant visiting == old(visiting)
        invariant all + L.LookaheadChoice(env, arms[i..], visiting).terms == goal.terms
        invariant (anyNull || L.LookaheadChoice(env, arms[i..], visiting).nullable) == goal.nullable
      {
        ChoiceSplit(env, arms, i, visiting, all);
        var ts, n := LookaheadArm(arms[i]);
        all := all + ts;
        anyNull := anyNull || n;
      }
      assert all + [] == all;
      if env.analysis.Some? && g.info.path.Some? {
        anyNull := AnalysisNullable(env.analysis.value, g.info.path.value);
      }
    }

    method LookaheadRepetition(g: Grammar) returns (ts: seq<Terminal>, nullable: bool)
      requires g.GRepeat? || g.GOptional?
      modifies this
      ensures visiting == old(visiting)
      ensures L.Found(ts, nullable) == L.LookaheadNode(env, g, visiting)
      decreases env.rules.Keys - visiting, g, 0
    {
      var n;
      ts, n := LookaheadNode(g.body);
      ts := PushEach(ts, Frame(if g.GRepeat? then Some(g) else None, g.info.grammarLabel, []));
      nullable := g.GOptional? || g.min == 0;
      if env.analysis.Some? && g.info.path.Some? {
        nullable := AnalysisNullable(env.analysis.value, g.info.path.value);
      }
      L.EncloseNone(ts);
    }

    /** The only writer of the visiting set: marked before the target is entered, unmarked after. */
    method LookaheadReference(g: Grammar) returns (ts: seq<Terminal>, n: bool)
      requires g.GReference?
      modifies this
      ensures visiting == old(visiting)
      ensures ts == L.LookaheadNode(env, g, visiting).terms
      ensures L.OverrideNullable(env, g, n) == L.LookaheadNode(env, g, visiting).nullable
      decreases env.rules.Keys - visiting, g, 0
    {
      if g.target !in env.rules || g.target in visiting {
        L.EncloseNone([]);
        return [], false;
      }
      ghost var outside := visiting;
      visiting := visiting + {g.target};
      assert env.rules.Keys - visiting < env.rules.Keys - outside by {
        assert g.target in env.rules.Keys - outside;
      }
      ts, n := LookaheadNode(env.rules[g.target]);
      visiting := visiting - {g.target};
      assert visiting == outside;
      ts := PushEach(ts, Frame(None, g.target, []));
      L.EncloseNone(ts);
      if env.analysis.Some? && g.info.path.Some? {
        n := AnalysisNullable(env.analysis.value, g.info.path.value);
      }
    }

    method LookaheadConcat(owner: Option<Grammar>, nodes: seq<Grammar>) returns (terms: seq<Terminal>, nullable: bool)
      modifies this
      ensures visiting == old(visiting)
      ensures terms == L.LookaheadConcat(env, nodes, visiting).terms
      ensures nullable == if owner.Some? then L.OverrideNullable(env, owner.value, L.LookaheadConcat(env, nodes, visiting).nullable)
                          else L.LookaheadConcat(env, nodes, visiting).nullable
      decreases env.rules.Keys - visiting, nodes, 0
    {
      terms, nullable := [], true;
      ghost var goal := L.LookaheadConcat(env, nodes, visiting);
      var i := 0;
      while i < |nodes|
        invariant visiting == old(visiting)
        invariant 0 <= i <= |nodes|
        invariant nullable ==> terms + L.LookaheadConcat(env, nodes[i..], visiting).terms == goal.terms
        invariant nullable ==> L.LookaheadConcat(env, nodes[i..], visiting).nullable == goal.nullable
        invariant !nullable ==> terms == goal.terms && !goal.nullable
        decreases |nodes| - i
      {
        ConcatSplit(env, nodes, i, visiting, terms);
        var ts, n := LookaheadNode(nodes[i]);
        ts := ExtendEach(ts, nodes[i + 1..]);
        terms := terms + ts;
        if !n {
          nullable := false;
          break;
        }
        i := i + 1;
      }
      assert i == |nodes| ==> terms + [] == terms;
      if env.analysis.Some? && owner.Some? && owner.value.info.path.Some? {
        nullable := AnalysisNullable(env.analysis.value, owner.value.info.path.value);
      }
    }

    // ---------------------------------------------------------------- advance

    /** computeLookaheadForFrame; every frame starts from an empty visiting set. */
    method ComputeLookaheadForFrame(f: Frame) returns (la: seq<Terminal>, nullable: bool)
      requires visiting == {}
      modifies this
      ensures visiting == {}
      ensures L.Found(la, nullable) == A.FrameLookahead(env, f)
    {
      if f.rep.Some? {
        var loopTs, ignored := LookaheadNode(f.rep.value);
        loopTs := ExtendEach(loopTs, f.remaining);
        var remTs, remNull := LookaheadConcat(None, f.remaining);
        return loopTs + remTs, remNull;
      }
      la, nullable := LookaheadConcat(None, f.remaining);
    }

    method AppendLookaheadWithStack(la: seq<Terminal>, consumed: Token, parentGuard: Guard, outer: seq<Frame>, result: seq<Terminal>)
      returns (out: seq<Terminal>)
      ensures out == result + A.Reattach(la, Shift(parentGuard, consumed), outer)
    {
      var shifted := ShiftChoiceGuardAfterConsume(parentGuard, consumed);
      var ts := la;
      for j := 0 to |ts|
        invariant |ts| == |la|
        invariant forall k :: 0 <= k < j ==> ts[k] == A.Reattach(la, shifted, outer)[k]
        invariant forall k :: j <= k < |ts| ==> ts[k] == la[k]
      {
        ts := ts[j := ts[j].(stack := ts[j].stack + outer, guard := Merge(shifted, ts[j].guard))];
      }
      assert ts == A.Reattach(la, shifted, outer);
      return result + ts;
    }

    /** One level of the walk: skipped when nothing is left of it, otherwise its terminals are appended. */
    method AdvanceOver(term: Terminal, i: nat, before: seq<Terminal>) returns (result: seq<Terminal>, open: bool)
      requires visiting == {} && i <= |term.stack| && WalkedOver(env, term, i, before, true)
      modifies this
      ensures visiting == {} && WalkedOver(env, term, i + 1, result, open)
    {
      // extractFrameDetails
      var f := if i == 0 then Frame(None, "", term.remaining) else term.stack[i - 1];
      LevelSplit(env, term, i, before);
      if |f.remaining| == 0 && f.rep.None? {
        return before, true;
      }
      var la, nullable := ComputeLookaheadForFrame(f);
      result := AppendLookaheadWithStack(la, term.token, term.guard, term.stack[i..], before);
      return result, nullable;
    }

    method AdvanceTerminal(term: Terminal) returns (result: seq<Terminal>, isNullable: bool)
      requires visiting == {}
      modifies this
      ensures visiting == {}
      ensures L.Found(result, isNullable) == A.AdvanceTerminal(env, term)
    {
      result, isNullable := [], true;
      AdvanceStarts(env, term);
      var i := 0;
      while i < |term.stack| + 1 && isNullable
        invariant visiting == {} && 0 <= i <= |term.stack| + 1
        invariant WalkedOver(env, term, i, result, isNullable)
        decreases |term.stack| + 1 - i
      {
        result, isNullable := AdvanceOver(term, i, result);
        i := i + 1;
      }
      AdvanceEnds(env, term, i, result, isNullable);
      if |result| == 0 {
        return [], true;
      }
    }
  }
}
