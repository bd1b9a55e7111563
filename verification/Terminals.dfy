/**
 The first-step terminals of a grammar node: a token together with everything that may
 follow it, kept as the rest of the innermost sequence plus a stack of enclosing
 frames, innermost first.
 */
module Terminals {
  import opened Languages
  import opened Grammars
  import opened Semantics
  import opened Guards

  /** An enclosing repetition (rep holds its node) or a plain scope, with what follows it. */
  datatype Frame = Frame(rep: Option<Grammar>, frameLabel: Label, remaining: seq<Grammar>)

  /** nest is the bracketed node when the token is its opening bracket. */
  datatype Terminal = Terminal(
    token: Token,
    remaining: seq<Grammar>,
    stack: seq<Frame>,
    nest: Option<Grammar>,
    popOffset: nat,
    guard: Guard)

  /** What a context holds about the grammar it was built from. */
  datatype Env = Env(rules: Rules, analysis: Option<Analysis>)

  // ------------------------------------------------------------ edits

  /** Appends to the remaining list that getLastRemaining points at. */
  function Extend(t: Terminal, suffix: seq<Grammar>): Terminal {
    if t.stack == [] then t.(remaining := t.remaining + suffix)
    else
      var last := |t.stack| - 1;
      t.(stack := t.stack[last := t.stack[last].(remaining := t.stack[last].remaining + suffix)])
  }

  function ExtendAll(ts: seq<Terminal>, suffix: seq<Grammar>): (r: seq<Terminal>)
    ensures |r| == |ts| && forall i :: 0 <= i < |ts| ==> r[i] == Extend(ts[i], suffix)
  {
    seq(|ts|, (i: nat) requires i < |ts| => Extend(ts[i], suffix))
  }

  function Enclose(t: Terminal, frames: seq<Frame>): Terminal {
    t.(stack := t.stack + frames)
  }

  function EncloseAll(ts: seq<Terminal>, frames: seq<Frame>): (r: seq<Terminal>)
    ensures |r| == |ts| && forall i :: 0 <= i < |ts| ==> r[i] == Enclose(ts[i], frames)
  {
    seq(|ts|, (i: nat) requires i < |ts| => Enclose(ts[i], frames))
  }

  function GuardAll(ts: seq<Terminal>, guard: Guard): (r: seq<Terminal>)
    ensures |r| == |ts| && forall i :: 0 <= i < |ts| ==> r[i] == ts[i].(guard := Merge(guard, ts[i].guard))
  {
    seq(|ts|, (i: nat) requires i < |ts| => ts[i].(guard := Merge(guard, ts[i].guard)))
  }

  function OffsetAll(ts: seq<Terminal>, offset: nat): (r: seq<Terminal>)
    ensures |r| == |ts| && forall i :: 0 <= i < |ts| ==> r[i] == ts[i].(popOffset := offset)
  {
    seq(|ts|, (i: nat) requires i < |ts| => ts[i].(popOffset := offset))
  }

  function FilterByFirst(ts: seq<Terminal>, first: set<Token>): (r: seq<Terminal>)
    ensures forall t :: t in r <==> t in ts && t.token in first
  {
    if ts == [] then []
    else (if ts[0].token in first then [ts[0]] else []) + FilterByFirst(ts[1..], first)
  }

  // ---------------------------------------------------------- meanings

  ghost function RepLang(rules: Rules, rep: Option<Grammar>): Language {
    if rep.Some? then Epsilon + Lang(Lowered, rules, rep.value) else Epsilon
  }

  /** The repeat node again or nothing, then what remains of the frame. */
  ghost function FrameLang(rules: Rules, f: Frame): Language {
    Cat(RepLang(rules, f.rep), SeqLang(Lowered, rules, f.remaining))
  }

  ghost function StackLang(rules: Rules, stack: seq<Frame>): Language {
    if stack == [] then Epsilon else Cat(FrameLang(rules, stack[0]), StackLang(rules, stack[1..]))
  }

  /** Everything after the token, brackets of a nest aside. */
  ghost function ContLang(rules: Rules, t: Terminal): Language {
    Cat(SeqLang(Lowered, rules, t.remaining), StackLang(rules, t.stack))
  }

  /** The part of a nest that follows its opening bracket. */
  ghost function NestTail(rules: Rules, nest: Option<Grammar>): Language {
    if nest.Some? && nest.value.GNest?
    then Cat(Lang(Lowered, rules, nest.value.body), Single(nest.value.close))
    else Epsilon
  }

  ghost function AfterLang(rules: Rules, t: Terminal): Language {
    Cat(NestTail(rules, t.nest), ContLang(rules, t))
  }

  /** What the terminals on token allow after it. */
  ghost function TermsLang(rules: Rules, ts: seq<Terminal>, token: Token): Language {
    if ts == [] then Empty
    else (if ts[0].token == token then AfterLang(rules, ts[0]) else Empty) + TermsLang(rules, ts[1..], token)
  }

  // --------------------------------------------- what each edit does to the meaning

  lemma {:induction false} SeqLangAppend(rules: Rules, a: seq<Grammar>, b: seq<Grammar>)
    ensures SeqLang(Lowered, rules, a + b) == Cat(SeqLang(Lowered, rules, a), SeqLang(Lowered, rules, b))
  {
    if a == [] {
      assert a + b == b;
      CatUnit(SeqLang(Lowered, rules, b));
    } else {
      assert (a + b)[0] == a[0] && (a + b)[1..] == a[1..] + b;
      SeqLangAppend(rules, a[1..], b);
      CatAssoc(Lang(Lowered, rules, a[0]), SeqLang(Lowered, rules, a[1..]), SeqLang(Lowered, rules, b));
    }
  }

  lemma {:induction false} StackLangAppend(rules: Rules, a: seq<Frame>, b: seq<Frame>)
    ensures StackLang(rules, a + b) == Cat(StackLang(rules, a), StackLang(rules, b))
  {
    if a == [] {
      assert a + b == b;
      CatUnit(StackLang(rules, b));
    } else {
      assert (a + b)[0] == a[0] && (a + b)[1..] == a[1..] + b;
      StackLangAppend(rules, a[1..], b);
      CatAssoc(FrameLang(rules, a[0]), StackLang(rules, a[1..]), StackLang(rules, b));
    }
  }

  lemma {:induction false} StackLangOne(rules: Rules, f: Frame)
    ensures StackLang(rules, [f]) == FrameLang(rules, f)
  {
    assert [f][1..] == [];
    CatUnit(FrameLang(rules, f));
  }

  lemma {:induction false} SeqLangOne(rules: Rules, g: Grammar)
    ensures SeqLang(Lowered, rules, [g]) == Lang(Lowered, rules, g)
  {
    assert [g][1..] == [];
    CatUnit(Lang(Lowered, rules, g));
  }

  lemma {:induction false} FrameExtend(rules: Rules, f: Frame, suffix: seq<Grammar>)
    ensures FrameLang(rules, f.(remaining := f.remaining + suffix)) ==
            Cat(FrameLang(rules, f), SeqLang(Lowered, rules, suffix))
  {
    SeqLangAppend(rules, f.remaining, suffix);
    CatAssoc(RepLang(rules, f.rep), SeqLang(Lowered, rules, f.remaining), SeqLang(Lowered, rules, suffix));
  }

  lemma {:induction false} ContExtend(rules: Rules, t: Terminal, suffix: seq<Grammar>)
    ensures ContLang(rules, Extend(t, suffix)) == Cat(ContLang(rules, t), SeqLang(Lowered, rules, suffix))
  {
    var s := SeqLang(Lowered, rules, suffix);
    var r := SeqLang(Lowered, rules, t.remaining);
    if t.stack == [] {
      SeqLangAppend(rules, t.remaining, suffix);
      CatUnit(r);
      CatUnit(Cat(r, s));
    } else {
      var last := |t.stack| - 1;
      var f, init := t.stack[last], t.stack[..last];
      var f' := f.(remaining := f.remaining + suffix);
      assert t.stack == init + [f];
      assert Extend(t, suffix).stack == init + [f'];
      StackLangAppend(rules, init, [f]);
      StackLangAppend(rules, init, [f']);
      StackLangOne(rules, f);
      StackLangOne(rules, f');
      FrameExtend(rules, f, suffix);
      CatAssoc(StackLang(rules, init), FrameLang(rules, f), s);
      CatAssoc(r, StackLang(rules, t.stack), s);
    }
  }

  lemma {:induction false} ContEnclose(rules: Rules, t: Terminal, frames: seq<Frame>)
    ensures ContLang(rules, Enclose(t, frames)) == Cat(ContLang(rules, t), StackLang(rules, frames))
  {
    StackLangAppend(rules, t.stack, frames);
    CatAssoc(SeqLang(Lowered, rules, t.remaining), StackLang(rules, t.stack), StackLang(rules, frames));
  }

  lemma {:induction false} TermsAppend(rules: Rules, a: seq<Terminal>, b: seq<Terminal>, token: Token)
    ensures TermsLang(rules, a + b, token) == TermsLang(rules, a, token) + TermsLang(rules, b, token)
  {
    if a == [] {
      assert a + b == b;
    } else {
      assert (a + b)[0] == a[0] && (a + b)[1..] == a[1..] + b;
      TermsAppend(rules, a[1..], b, token);
    }
  }

  lemma {:induction false} TermsExtend(rules: Rules, ts: seq<Terminal>, suffix: seq<Grammar>, token: Token)
    ensures TermsLang(rules, ExtendAll(ts, suffix), token) ==
            Cat(TermsLang(rules, ts, token), SeqLang(Lowered, rules, suffix))
  {
    var s := SeqLang(Lowered, rules, suffix);
    CatEmpty(s);
    if ts != [] {
      assert ExtendAll(ts, suffix)[1..] == ExtendAll(ts[1..], suffix);
      TermsExtend(rules, ts[1..], suffix, token);
      ContExtend(rules, ts[0], suffix);
      CatAssoc(NestTail(rules, ts[0].nest), ContLang(rules, ts[0]), s);
      CatUnionLeft(if ts[0].token == token then AfterLang(rules, ts[0]) else Empty,
                   TermsLang(rules, ts[1..], token), s);
    }
  }

  lemma {:induction false} TermsEnclose(rules: Rules, ts: seq<Terminal>, frames: seq<Frame>, token: Token)
    ensures TermsLang(rules, EncloseAll(ts, frames), token) ==
            Cat(TermsLang(rules, ts, token), StackLang(rules, frames))
  {
    var s := StackLang(rules, frames);
    CatEmpty(s);
    if ts != [] {
      assert EncloseAll(ts, frames)[1..] == EncloseAll(ts[1..], frames);
      TermsEnclose(rules, ts[1..], frames, token);
      ContEnclose(rules, ts[0], frames);
      CatAssoc(NestTail(rules, ts[0].nest), ContLang(rules, ts[0]), s);
      CatUnionLeft(if ts[0].token == token then AfterLang(rules, ts[0]) else Empty,
                   TermsLang(rules, ts[1..], token), s);
    }
  }

  /** Guards and pop offsets are carried along; they do not change what a terminal derives. */
  lemma {:induction false} TermsRelabel(rules: Rules, a: seq<Terminal>, b: seq<Terminal>, token: Token)
    requires |a| == |b|
    requires forall i :: 0 <= i < |a| ==> b[i] == a[i].(guard := b[i].guard, popOffset := b[i].popOffset)
    ensures TermsLang(rules, a, token) == TermsLang(rules, b, token)
  {
    if a != [] {
      assert b[0] == a[0].(guard := b[0].guard, popOffset := b[0].popOffset);
      TermsRelabel(rules, a[1..], b[1..], token);
    }
  }

  lemma {:induction false} TermsFilter(rules: Rules, ts: seq<Terminal>, first: set<Token>, token: Token)
    ensures TermsLang(rules, FilterByFirst(ts, first), token) ==
            if token in first then TermsLang(rules, ts, token) else Empty
  {
    if ts != [] {
      TermsFilter(rules, ts[1..], first, token);
      var head := if ts[0].token in first then [ts[0]] else [];
      TermsAppend(rules, head, FilterByFirst(ts[1..], first), token);
      if ts[0].token in first {
        assert [ts[0]][1..] == [];
      }
    }
  }
}
