/**
 The delimited list rule: a hand-written automaton over the visible tokens, and the
 grammar it publishes.
 */
module ListRule {
  import opened Languages
  import opened Grammars
  import opened Semantics
  import opened TokenStreams
  import opened Sources

  datatype TrailingMode = TrailingForbidden | TrailingOptional | TrailingRequired

  datatype ListSpec = ListSpec(open: Token, element: Token, separator: Token, close: Token, allowEmpty: bool, mode: TrailingMode)

  /** Where the run ended: with the element lexemes in order, or with the lexeme to blame and the nodes made so far. */
  datatype ListRun = Accepted(at: Position, elements: seq<Lexeme>) | Rejected(at: Position, blame: Lexeme, made: nat)

  function RunList(src: Source, c: Position, spec: ListSpec): (r: ListRun)
    requires Within(src, c)
    ensures c <= r.at && Within(src, r.at)
  {
    var open := PeekAt(src, c, 0);
    if open.token != spec.open then Rejected(c, open, 0) else
    var d := Advance(src, c);
    var peek := PeekAt(src, d, 0);
    if peek.token == spec.close then
      if spec.allowEmpty then Accepted(Advance(src, d), []) else Rejected(d, peek, 1)
    else if peek.token != spec.element then Rejected(d, peek, 1)
    else RunTail(src, Advance(src, d), spec, [peek])
  }

  /** The loop, entered just after an element. */
  function RunTail(src: Source, c: Position, spec: ListSpec, elements: seq<Lexeme>): (r: ListRun)
    requires Within(src, c)
    ensures c <= r.at && Within(src, r.at)
    decreases |src.lexemes| - c
  {
    var peek := PeekAt(src, c, 0);
    if peek.token == spec.close then
      if spec.mode.TrailingRequired? then Rejected(c, peek, 1 + |elements|) else Accepted(Advance(src, c), elements)
    else if peek.token == spec.element || peek.token != spec.separator then Rejected(c, peek, 1 + |elements|)
    else
      var d := Advance(src, c);
      var next := PeekAt(src, d, 0);
      if next.token == spec.close then
        if spec.mode.TrailingForbidden? then Rejected(d, next, 1 + |elements|) else Accepted(Advance(src, d), elements)
      else if next.token != spec.element then Rejected(d, next, 1 + |elements|)
      else
        SeparatedMoves(src, c, spec);
        RunTail(src, Advance(src, d), spec, elements + [next])
  }

  /** A separator and an element differ, so consuming both moves the cursor on every stream. */
  lemma SeparatedMoves(src: Source, c: Position, spec: ListSpec)
    requires Within(src, c)
    requires PeekAt(src, c, 0).token == spec.separator != spec.element
    requires PeekAt(src, Advance(src, c), 0).token == spec.element
    ensures c < Advance(src, Advance(src, c))
  {
    if spec.separator != src.eof {
      AdvanceTakes(src, c);
    } else {
      AdvanceTakes(src, Advance(src, c));
    }
  }

  ghost predicate Ends(ok: bool, started: bool, at: Position, elements: seq<Lexeme>, blame: Lexeme, r: ListRun) {
    r == if ok then Accepted(at, elements) else Rejected(at, blame, if started then 1 + |elements| else 0)
  }

  /** The rule as it runs, over the shared token stream. */
  method RunListRule(ts: TokenStream, spec: ListSpec, ghost src: Source, ghost c: Position)
    returns (ok: bool, started: bool, elements: seq<Lexeme>, blame: Lexeme)
    requires At(ts, src, c)
    modifies ts`cursor, ts`nextVisibleRawIndex, ts`nextVisibleCached
    ensures At(ts, src, ts.cursor) && Ends(ok, started, ts.cursor, elements, blame, RunList(src, c, spec)) && (ok ==> started)
  {
    blame := PeekVisible(ts, src, c, 0);
    if blame.token != spec.open {
      return false, false, [], blame;
    }
    var taken := ConsumeVisible(ts, src, c);
    ghost var d := ts.cursor;
    blame := PeekVisible(ts, src, d, 0);
    if blame.token == spec.close {
      if spec.allowEmpty {
        taken := ConsumeVisible(ts, src, d);
      }
      return spec.allowEmpty, true, [], blame;
    }
    if blame.token != spec.element {
      return false, true, [], blame;
    }
    taken := ConsumeVisible(ts, src, d);
    started := true;
    ok, elements, blame := RunListAutomaton(ts, spec, [taken], src, ts.cursor);
  }

  /** The (separator, element)* loop. */
  method RunListAutomaton(ts: TokenStream, spec: ListSpec, first: seq<Lexeme>, ghost src: Source, ghost c: Position)
    returns (ok: bool, elements: seq<Lexeme>, blame: Lexeme)
    requires At(ts, src, c)
    modifies ts`cursor, ts`nextVisibleRawIndex, ts`nextVisibleCached
    ensures At(ts, src, ts.cursor) && Ends(ok, true, ts.cursor, elements, blame, RunTail(src, c, spec, first))
  {
    elements := first;
    while true
      invariant At(ts, src, ts.cursor)
      invariant RunTail(src, c, spec, first) == RunTail(src, ts.cursor, spec, elements)
      decreases |ts.lexemes| - ts.cursor
    {
      ghost var d := ts.cursor;
      blame := PeekVisible(ts, src, d, 0);
      if blame.token == spec.close {
        if spec.mode.TrailingRequired? {
          return false, elements, blame;
        }
        var taken := ConsumeVisible(ts, src, d);
        return true, elements, blame;
      }
      if blame.token == spec.element || blame.token != spec.separator {
        return false, elements, blame;
      }
      var taken := ConsumeVisible(ts, src, d);
      ghost var e := ts.cursor;
      blame := PeekVisible(ts, src, e, 0);
      if blame.token == spec.close {
        if spec.mode.TrailingForbidden? {
          return false, elements, blame;
        }
        taken := ConsumeVisible(ts, src, e);
        return true, elements, blame;
      }
      if blame.token != spec.element {
        return false, elements, blame;
      }
      SeparatedMoves(src, d, spec);
      taken := ConsumeVisible(ts, src, e);
      elements := elements + [taken];
    }
  }

  // ------------------------------------------------------------------ the grammar

  function Node(label': Label): NodeInfo {
    NodeInfo(None, label', [], false)
  }

  /** getListGrammar. */
  function ListGrammar(id: Label, spec: ListSpec): Grammar {
    var elem, sep := GToken(Node(id), spec.element), GToken(Node(id), spec.separator);
    var pairs := GRepeat(Node(id), GConcat(Node(id), [sep, elem]), 0, None);
    var baseBody := GConcat(Node(id), [elem, pairs]);
    var body := match spec.mode
      case TrailingForbidden => baseBody
      case TrailingOptional => GConcat(Node(id), [baseBody, GOptional(Node(id), sep)])
      case TrailingRequired => GConcat(Node(id), [baseBody, sep]);
    GNest(Node(id), spec.open, spec.close, if spec.allowEmpty then GOptional(Node(id), body) else body)
  }

  /** What may follow an element, up to and with the closing token. */
  predicate IsTail(spec: ListSpec, w: Word)
    decreases |w|
  {
    || (w == [spec.close] && !spec.mode.TrailingRequired?)
    || (w == [spec.separator, spec.close] && !spec.mode.TrailingForbidden?)
    || (|w| >= 2 && w[0] == spec.separator && w[1] == spec.element && IsTail(spec, w[2..]))
  }

  predicate IsList(spec: ListSpec, w: Word) {
    || (w == [spec.open, spec.close] && spec.allowEmpty)
    || (|w| >= 2 && w[0] == spec.open && w[1] == spec.element && IsTail(spec, w[2..]))
  }

  // --------------------------------------------------------- the words of the grammar

  ghost function TrailLang(spec: ListSpec): Language {
    match spec.mode
    case TrailingForbidden => Epsilon
    case TrailingOptional => Epsilon + Single(spec.separator)
    case TrailingRequired => Single(spec.separator)
  }

  ghost function PairLang(spec: ListSpec): Language {
    Cat(Single(spec.separator), Single(spec.element))
  }

  /** (separator element)* trailing close. */
  ghost function TailLang(spec: ListSpec): Language {
    Cat(Star(PairLang(spec)), Cat(TrailLang(spec), Single(spec.close)))
  }

  predicate IsEnd(spec: ListSpec, w: Word) {
    || (w == [spec.close] && !spec.mode.TrailingRequired?)
    || (w == [spec.separator, spec.close] && !spec.mode.TrailingForbidden?)
  }

  lemma EndIsEnd(spec: ListSpec, w: Word)
    requires w in Cat(TrailLang(spec), Single(spec.close))
    ensures IsEnd(spec, w)
  {
    var u, v := CatElim(TrailLang(spec), Single(spec.close), w);
    assert u == [] || u == [spec.separator];
  }

  lemma EndDerivable(spec: ListSpec, w: Word)
    requires IsEnd(spec, w)
    ensures w in Cat(TrailLang(spec), Single(spec.close))
  {
    var u := if w == [spec.close] && !spec.mode.TrailingRequired? then [] else [spec.separator];
    assert w == u + [spec.close];
    CatIntro(TrailLang(spec), Single(spec.close), u, [spec.close]);
  }

  lemma PairWord(spec: ListSpec, w: Word)
    ensures w in PairLang(spec) <==> w == [spec.separator, spec.element]
  {
    var s, e := Single(spec.separator), Single(spec.element);
    if w in PairLang(spec) {
      var u, v := CatElim(s, e, w);
    }
    if w == [spec.separator, spec.element] {
      CatIntro(s, e, [spec.separator], [spec.element]);
      assert w == [spec.separator] + [spec.element];
    }
  }

  lemma {:induction false} PowerIsTail(spec: ListSpec, n: nat, u: Word, v: Word)
    requires u in Power(PairLang(spec), n) && v in Cat(TrailLang(spec), Single(spec.close))
    ensures IsTail(spec, u + v)
    decreases n
  {
    EndIsEnd(spec, v);
    if n == 0 {
      assert u + v == v;
    } else {
      var p, q := CatElim(PairLang(spec), Power(PairLang(spec), n - 1), u);
      PairWord(spec, p);
      PowerIsTail(spec, n - 1, q, v);
      assert (u + v)[2..] == q + v;
    }
  }

  lemma {:induction false} TailIsTail(spec: ListSpec, w: Word)
    requires w in TailLang(spec)
    ensures IsTail(spec, w)
  {
    var u, v := CatElim(Star(PairLang(spec)), Cat(TrailLang(spec), Single(spec.close)), w);
    var n: nat :| Rounds(PairLang(spec), n, u);
    PowerIsTail(spec, n, u, v);
  }

  lemma {:induction false} TailDerivable(spec: ListSpec, w: Word)
    requires IsTail(spec, w)
    ensures w in TailLang(spec)
    decreases |w|
  {
    if IsEnd(spec, w) {
      EndDerivable(spec, w);
      EndInTail(spec, w);
    } else {
      TailDerivable(spec, w[2..]);
      PairWord(spec, [spec.separator, spec.element]);
      StarStep(PairLang(spec), Cat(TrailLang(spec), Single(spec.close)), [spec.separator, spec.element], w[2..]);
      assert w == [spec.separator, spec.element] + w[2..];
    }
  }

  lemma EndInTail(spec: ListSpec, w: Word)
    requires w in Cat(TrailLang(spec), Single(spec.close))
    ensures w in TailLang(spec)
  {
    StarUnfold(PairLang(spec));
    CatIntro(Star(PairLang(spec)), Cat(TrailLang(spec), Single(spec.close)), [], w);
    assert [] + w == w;
  }

  // -------------------------------------------------- the grammar's words are lists

  lemma PairsMean(rules: Rules, id: Label, spec: ListSpec)
    ensures Lang(Exact, rules, GRepeat(Node(id), GConcat(Node(id), [GToken(Node(id), spec.separator), GToken(Node(id), spec.element)]), 0, None))
            == Star(PairLang(spec))
  {
    var elem, sep := GToken(Node(id), spec.element), GToken(Node(id), spec.separator);
    var pair := GConcat(Node(id), [sep, elem]);
    ConcatOfTwo(rules, pair);
    LangToken(Exact, rules, elem);
    LangToken(Exact, rules, sep);
    LangRepeat(Exact, rules, GRepeat(Node(id), pair, 0, None));
    IterateStar(PairLang(spec));
  }

  lemma ConcatOfTwo(rules: Rules, g: Grammar)
    requires g.GConcat? && |g.children| == 2
    ensures Lang(Exact, rules, g) == Cat(Lang(Exact, rules, g.children[0]), Lang(Exact, rules, g.children[1]))
  {
    LangConcat(Exact, rules, g);
    var a, b := g.children[0], g.children[1];
    assert g.children[1..] == [b] && [b][1..] == [];
    assert SeqLang(Exact, rules, [b]) == Cat(Lang(Exact, rules, b), SeqLang(Exact, rules, [b][1..]));
    CatUnit(Lang(Exact, rules, b));
  }

  /** element (separator element)* trailing. */
  ghost function BodyLang(spec: ListSpec): Language {
    Cat(Cat(Single(spec.element), Star(PairLang(spec))), TrailLang(spec))
  }

  lemma ListGrammarMeans(rules: Rules, id: Label, spec: ListSpec)
    ensures Lang(Exact, rules, ListGrammar(id, spec)) ==
            Cat(Single(spec.open), Cat(if spec.allowEmpty then Epsilon + BodyLang(spec) else BodyLang(spec), Single(spec.close)))
  {
    var elem, sep := GToken(Node(id), spec.element), GToken(Node(id), spec.separator);
    var pairs := GRepeat(Node(id), GConcat(Node(id), [sep, elem]), 0, None);
    var baseBody := GConcat(Node(id), [elem, pairs]);
    PairsMean(rules, id, spec);
    LangToken(Exact, rules, elem);
    LangToken(Exact, rules, sep);
    ConcatOfTwo(rules, baseBody);
    var g := ListGrammar(id, spec);
    LangNest(Exact, rules, g);
    var body := if spec.allowEmpty then g.body.body else g.body;
    assert Lang(Exact, rules, body) == BodyLang(spec) by {
      match spec.mode
      case TrailingForbidden =>
        CatUnit(Lang(Exact, rules, baseBody));
      case TrailingOptional =>
        LangOptional(Exact, rules, GOptional(Node(id), sep));
        ConcatOfTwo(rules, body);
      case TrailingRequired =>
        ConcatOfTwo(rules, body);
    }
    if spec.allowEmpty {
      LangOptional(Exact, rules, g.body);
    }
  }

  lemma BodyThenClose(spec: ListSpec)
    ensures Cat(BodyLang(spec), Single(spec.close)) == Cat(Single(spec.element), TailLang(spec))
  {
    var e, p, t, c := Single(spec.element), Star(PairLang(spec)), TrailLang(spec), Single(spec.close);
    CatAssoc(Cat(e, p), t, c);
    CatAssoc(e, p, Cat(t, c));
  }

  /** The words of the published grammar, for every trailing mode and empty-list setting. */
  lemma GrammarWords(rules: Rules, id: Label, spec: ListSpec, w: Word)
    ensures w in Lang(Exact, rules, ListGrammar(id, spec)) <==> IsList(spec, w)
  {
    ListGrammarMeans(rules, id, spec);
    BodyThenClose(spec);
    var o, c, full := Single(spec.open), Single(spec.close), Cat(Single(spec.element), TailLang(spec));
    var inner := if spec.allowEmpty then Epsilon + BodyLang(spec) else BodyLang(spec);
    assert Cat(inner, c) == if spec.allowEmpty then c + full else full by {
      CatUnionLeft(Epsilon, BodyLang(spec), c);
      CatUnit(c);
    }
    if w in Cat(o, Cat(inner, c)) {
      var u, v := CatElim(o, Cat(inner, c), w);
      OpenedIsList(spec, v);
    }
    if IsList(spec, w) {
      ListDerivable(spec, w);
      assert w == [spec.open] + w[1..];
      CatIntro(o, Cat(inner, c), [spec.open], w[1..]);
    }
  }

  lemma OpenedIsList(spec: ListSpec, v: Word)
    requires (spec.allowEmpty && v in Single(spec.close)) || v in Cat(Single(spec.element), TailLang(spec))
    ensures IsList(spec, [spec.open] + v)
  {
    if spec.allowEmpty && v in Single(spec.close) {
      assert [spec.open] + v == [spec.open, spec.close];
    } else {
      NonEmptyIsList(spec, v);
    }
  }

  lemma NonEmptyIsList(spec: ListSpec, v: Word)
    requires v in Cat(Single(spec.element), TailLang(spec))
    ensures IsList(spec, [spec.open] + v)
  {
    var t := SingleElim(spec.element, TailLang(spec), v);
    TailIsTail(spec, t);
    ListShape(spec, t);
  }

  lemma {:induction false} ListShape(spec: ListSpec, t: Word)
    requires IsTail(spec, t)
    ensures IsList(spec, [spec.open] + ([spec.element] + t))
  {
    assert ([spec.open] + ([spec.element] + t))[2..] == t;
  }

  lemma {:induction false} ElementThenTail(spec: ListSpec, w: Word)
    requires |w| >= 2 && w[1] == spec.element && IsTail(spec, w[2..])
    ensures w[1..] in Cat(Single(spec.element), TailLang(spec))
  {
    TailDerivable(spec, w[2..]);
    CatIntro(Single(spec.element), TailLang(spec), [spec.element], w[2..]);
    assert w[1..] == [spec.element] + w[2..];
  }

  lemma ListDerivable(spec: ListSpec, w: Word)
    requires IsList(spec, w)
    ensures (spec.allowEmpty && w[1..] in Single(spec.close)) || w[1..] in Cat(Single(spec.element), TailLang(spec))
  {
    if w == [spec.open, spec.close] && spec.allowEmpty {
      assert w[1..] == [spec.close];
    } else {
      ElementThenTail(spec, w);
    }
  }

  // ---------------------------------------------- the automaton against the grammar

  ghost predicate Distinct(spec: ListSpec) {
    spec.element != spec.separator && spec.element != spec.close && spec.separator != spec.close
  }

  ghost predicate NoEof(spec: ListSpec, eof: Token) {
    spec.open != eof && spec.element != eof && spec.separator != eof && spec.close != eof
  }

  /** The element lexemes met while reading w from c, in order. */
  function ElementsRead(src: Source, c: Position, w: Word, spec: ListSpec): seq<Lexeme>
    requires Within(src, c)
    decreases |w|
  {
    if w == [] then []
    else (if w[0] == spec.element then [PeekAt(src, c, 0)] else []) + ElementsRead(src, Advance(src, c), w[1..], spec)
  }

  /** A separator and an element ahead of v. */
  lemma {:induction false} PairRead(src: Source, c: Position, spec: ListSpec, v: Word)
    requires Within(src, c) && spec.separator != spec.element
    ensures var d := Advance(src, c);
            ElementsRead(src, c, [spec.separator, spec.element] + v, spec) == [PeekAt(src, d, 0)] + ElementsRead(src, Advance(src, d), v, spec)
  {
    var w := [spec.separator, spec.element] + v;
    assert w[1..] == [spec.element] + v && w[1..][1..] == v;
    assert [] + ElementsRead(src, Advance(src, c), w[1..], spec) == ElementsRead(src, Advance(src, c), w[1..], spec);
  }

  /** w is a tail, it is what the loop has read when it accepts, and its element lexemes are what the loop adds. */
  ghost predicate TailRead(src: Source, c: Position, spec: ListSpec, elements: seq<Lexeme>, w: Word)
    requires Within(src, c)
  {
    var run := RunTail(src, c, spec, elements);
    && run.Accepted? && IsTail(spec, w) && Reads(src, c, w, run.at)
    && run.elements == elements + ElementsRead(src, c, w, spec)
  }

  lemma TailCloses(src: Source, c: Position, spec: ListSpec, elements: seq<Lexeme>) returns (w: Word)
    requires Within(src, c) && Distinct(spec) && NoEof(spec, src.eof) && RunTail(src, c, spec, elements).Accepted?
    requires PeekAt(src, c, 0).token == spec.close || PeekAt(src, Advance(src, c), 0).token == spec.close
    ensures TailRead(src, c, spec, elements, w)
  {
    var d := Advance(src, c);
    assert elements + [] == elements;
    if PeekAt(src, c, 0).token == spec.close {
      w := [spec.close];
      assert w[1..] == [];
    } else {
      w := [spec.separator, spec.close];
      assert w[1..] == [spec.close] && w[1..][1..] == [];
      assert ElementsRead(src, d, w[1..], spec) == [];
    }
  }

  lemma {:induction false} RunGoesOn(src: Source, c: Position, spec: ListSpec, elements: seq<Lexeme>)
    requires Within(src, c) && Distinct(spec)
    requires PeekAt(src, c, 0).token == spec.separator && PeekAt(src, Advance(src, c), 0).token == spec.element
    ensures var d := Advance(src, c);
            RunTail(src, c, spec, elements) == RunTail(src, Advance(src, d), spec, elements + [PeekAt(src, d, 0)])
  {
  }

  lemma {:induction false} ReadsGoesOn(src: Source, c: Position, spec: ListSpec, v: Word, to: Position)
    requires Within(src, c) && Distinct(spec) && NoEof(spec, src.eof) && IsTail(spec, v)
    requires PeekAt(src, c, 0).token == spec.separator && PeekAt(src, Advance(src, c), 0).token == spec.element
    requires Reads(src, Advance(src, Advance(src, c)), v, to)
    ensures var w := [spec.separator, spec.element] + v;
            IsTail(spec, w) && Reads(src, c, w, to)
  {
    var w := [spec.separator, spec.element] + v;
    assert w[2..] == v && w[1..] == [spec.element] + v && w[1..][1..] == v;
    assert Reads(src, Advance(src, c), w[1..], to);
  }

  /** A separator and an element ahead of the tail v. */
  lemma TailGoesOn(src: Source, c: Position, spec: ListSpec, elements: seq<Lexeme>, v: Word)
    requires Within(src, c) && Distinct(spec) && NoEof(spec, src.eof)
    requires PeekAt(src, c, 0).token == spec.separator && PeekAt(src, Advance(src, c), 0).token == spec.element
    requires var d := Advance(src, c); TailRead(src, Advance(src, d), spec, elements + [PeekAt(src, d, 0)], v)
    ensures TailRead(src, c, spec, elements, [spec.separator, spec.element] + v)
  {
    var d := Advance(src, c);
    var next, e := PeekAt(src, d, 0), Advance(src, d);
    var w := [spec.separator, spec.element] + v;
    RunGoesOn(src, c, spec, elements);
    assert IsTail(spec, w) && Reads(src, c, w, RunTail(src, c, spec, elements).at) by {
      ReadsGoesOn(src, c, spec, v, RunTail(src, c, spec, elements).at);
    }
    assert elements + ElementsRead(src, c, w, spec) == (elements + [next]) + ElementsRead(src, e, v, spec) by {
      PairRead(src, c, spec, v);
      Regroup(elements, [next], ElementsRead(src, e, v, spec));
    }
  }

  lemma Regroup(a: seq<Lexeme>, b: seq<Lexeme>, c: seq<Lexeme>)
    ensures a + (b + c) == (a + b) + c
  {
  }

  lemma {:induction false} AcceptedGoesOn(src: Source, c: Position, spec: ListSpec, elements: seq<Lexeme>)
    requires Within(src, c) && Distinct(spec) && RunTail(src, c, spec, elements).Accepted?
    requires PeekAt(src, c, 0).token != spec.close && PeekAt(src, Advance(src, c), 0).token != spec.close
    ensures PeekAt(src, c, 0).token == spec.separator && PeekAt(src, Advance(src, c), 0).token == spec.element
    ensures var d := Advance(src, c);
            c < Advance(src, d) && RunTail(src, Advance(src, d), spec, elements + [PeekAt(src, d, 0)]).Accepted?
  {
    SeparatedMoves(src, c, spec);
  }

  /** What the loop has read when it accepts. */
  lemma {:induction false} TailAccepts(src: Source, c: Position, spec: ListSpec, elements: seq<Lexeme>) returns (w: Word)
    requires Within(src, c) && Distinct(spec) && NoEof(spec, src.eof) && RunTail(src, c, spec, elements).Accepted?
    ensures TailRead(src, c, spec, elements, w)
    decreases |src.lexemes| - c
  {
    var d := Advance(src, c);
    if PeekAt(src, c, 0).token == spec.close || PeekAt(src, d, 0).token == spec.close {
      w := TailCloses(src, c, spec, elements);
    } else {
      AcceptedGoesOn(src, c, spec, elements);
      var v := TailAccepts(src, Advance(src, d), spec, elements + [PeekAt(src, d, 0)]);
      TailGoesOn(src, c, spec, elements, v);
      w := [spec.separator, spec.element] + v;
    }
  }

  /** And a tail read to its end is accepted there. */
  lemma {:induction false} TailRuns(src: Source, c: Position, spec: ListSpec, elements: seq<Lexeme>, w: Word, to: Position)
    requires Within(src, c) && Distinct(spec) && NoEof(spec, src.eof) && IsTail(spec, w) && Reads(src, c, w, to)
    ensures RunTail(src, c, spec, elements).Accepted? && RunTail(src, c, spec, elements).at == to
    decreases |w|
  {
    var d := Advance(src, c);
    if |w| > 1 {
      assert Reads(src, d, w[1..], to) && w[1..][0] == w[1];
      if w != [spec.separator, spec.close] {
        assert w[1..][1..] == w[2..];
        SeparatedMoves(src, c, spec);
        TailRuns(src, Advance(src, d), spec, elements + [PeekAt(src, d, 0)], w[2..], to);
      } else {
        assert w[1..][1..] == [] && Reads(src, Advance(src, d), [], to);
      }
    } else {
      assert w[1..] == [] && Reads(src, d, [], to);
    }
  }

  lemma ListAccepts(src: Source, c: Position, spec: ListSpec) returns (w: Word)
    requires Within(src, c) && Distinct(spec) && NoEof(spec, src.eof) && spec.open != spec.element
    requires RunList(src, c, spec).Accepted?
    ensures IsList(spec, w) && Reads(src, c, w, RunList(src, c, spec).at)
    ensures RunList(src, c, spec).elements == ElementsRead(src, c, w, spec)
  {
    var d := Advance(src, c);
    if PeekAt(src, d, 0).token == spec.close {
      w := [spec.open, spec.close];
      assert w[1..] == [spec.close] && w[1..][1..] == [];
      assert ElementsRead(src, d, w[1..], spec) == [];
    } else {
      var e := Advance(src, d);
      var v := TailAccepts(src, e, spec, [PeekAt(src, d, 0)]);
      w := [spec.open, spec.element] + v;
      assert w[2..] == v && w[1..][1..] == v;
      assert ElementsRead(src, d, w[1..], spec) == [PeekAt(src, d, 0)] + ElementsRead(src, e, v, spec);
    }
  }

  lemma {:induction false} ListRuns(src: Source, c: Position, spec: ListSpec, w: Word, to: Position)
    requires Within(src, c) && Distinct(spec) && NoEof(spec, src.eof) && IsList(spec, w) && Reads(src, c, w, to)
    ensures RunList(src, c, spec).Accepted? && RunList(src, c, spec).at == to
  {
    var d := Advance(src, c);
    assert Reads(src, d, w[1..], to) && w[1..][0] == w[1];
    assert w[1..][1..] == w[2..];
    if w[1] == spec.element && w != [spec.open, spec.close] {
      TailRuns(src, Advance(src, d), spec, [PeekAt(src, d, 0)], w[2..], to);
    } else {
      assert w[2..] == [] && Reads(src, Advance(src, d), [], to);
    }
  }

  /**
   With distinct tokens the automaton accepts exactly the words of the grammar it
   publishes, for all trailing modes and both empty-list settings, and returns one lexeme
   for each element token, in order.
   */
  lemma {:induction false} ListExact(rules: Rules, id: Label, src: Source, c: Position, spec: ListSpec, to: Position)
    requires Within(src, c) && c <= to && Within(src, to)
    requires Distinct(spec) && NoEof(spec, src.eof) && spec.open != spec.element
    ensures (RunList(src, c, spec).Accepted? && RunList(src, c, spec).at == to) <==>
            (Reads(src, c, Taken(src, c, to), to) && Taken(src, c, to) in Lang(Exact, rules, ListGrammar(id, spec)))
    ensures RunList(src, c, spec).Accepted? && RunList(src, c, spec).at == to ==>
              RunList(src, c, spec).elements == ElementsRead(src, c, Taken(src, c, to), spec)
  {
    var w := Taken(src, c, to);
    GrammarWords(rules, id, spec, w);
    if RunList(src, c, spec).Accepted? && RunList(src, c, spec).at == to {
      var v := ListAccepts(src, c, spec);
      ReadsTakes(src, c, v, to);
    }
    if Reads(src, c, w, to) && IsList(spec, w) {
      ListRuns(src, c, spec, w, to);
    }
  }

  // -------------------------------------------------------------- where a list goes wrong

  /** Some list goes on like this. */
  ghost predicate Begun(spec: ListSpec, u: Word) {
    exists v :: IsList(spec, u + v)
  }

  ghost predicate TailBegun(spec: ListSpec, u: Word) {
    exists v :: IsTail(spec, u + v)
  }

  function SomeTail(spec: ListSpec): (w: Word)
    ensures IsTail(spec, w)
  {
    if spec.mode.TrailingRequired? then [spec.separator, spec.close] else [spec.close]
  }

  lemma {:induction false} TailBegunBy(spec: ListSpec, u: Word, v: Word)
    requires IsTail(spec, u + v)
    ensures TailBegun(spec, u)
  {
  }

  /** The tail read so far can be completed, and with the next token it cannot. */
  ghost predicate TailStuck(src: Source, c: Position, spec: ListSpec, elements: seq<Lexeme>, u: Word)
    requires Within(src, c)
  {
    var run := RunTail(src, c, spec, elements);
    && run.Rejected? && run.blame == PeekAt(src, run.at, 0) && Reads(src, c, u, run.at)
    && TailBegun(spec, u) && !TailBegun(spec, u + [run.blame.token])
    && run.made == 1 + |elements| + |ElementsRead(src, c, u, spec)|
  }

  lemma {:induction false} TailStuckHere(src: Source, c: Position, spec: ListSpec, elements: seq<Lexeme>)
    requires Within(src, c) && Distinct(spec) && RunTail(src, c, spec, elements).Rejected? && PeekAt(src, c, 0).token != spec.separator
    ensures TailStuck(src, c, spec, elements, [])
  {
    var t := PeekAt(src, c, 0).token;
    assert [] + SomeTail(spec) == SomeTail(spec);
    TailBegunBy(spec, [], SomeTail(spec));
    forall v ensures !IsTail(spec, [] + [t] + v) {
      var w := [] + [t] + v;
      assert w[0] == t;
    }
  }

  lemma {:induction false} TailStuckBehind(src: Source, c: Position, spec: ListSpec, elements: seq<Lexeme>)
    requires Within(src, c) && Distinct(spec) && NoEof(spec, src.eof) && RunTail(src, c, spec, elements).Rejected?
    requires PeekAt(src, c, 0).token == spec.separator && PeekAt(src, Advance(src, c), 0).token != spec.element
    ensures TailStuck(src, c, spec, elements, [spec.separator])
  {
    var u, t := [spec.separator], PeekAt(src, Advance(src, c), 0).token;
    ReadsOne(src, c);
    var w := u + ([spec.element] + SomeTail(spec));
    assert w[0] == spec.separator && w[1] == spec.element && w[2..] == SomeTail(spec);
    TailBegunBy(spec, u, [spec.element] + SomeTail(spec));
    assert u[1..] == [];
    forall v ensures !IsTail(spec, u + [t] + v) {
      var x := u + [t] + v;
      assert x[0] == spec.separator && x[1] == t;
    }
  }

  /** A separator and an element in front of a tail make no difference to what can go on. */
  lemma {:induction false} TailBegunMore(spec: ListSpec, u: Word)
    requires Distinct(spec)
    ensures TailBegun(spec, [spec.separator, spec.element] + u) <==> TailBegun(spec, u)
  {
    var p := [spec.separator, spec.element];
    forall v ensures IsTail(spec, p + u + v) <==> IsTail(spec, u + v) {
      var w := p + u + v;
      assert w[0] == spec.separator && w[1] == spec.element && w[2..] == u + v;
    }
  }

  lemma {:induction false} ReadsTwo(src: Source, c: Position, a: Token, b: Token, u: Word, to: Position)
    requires Within(src, c) && PeekAt(src, c, 0).token == a != src.eof && PeekAt(src, Advance(src, c), 0).token == b != src.eof
    requires Reads(src, Advance(src, Advance(src, c)), u, to)
    ensures Reads(src, c, [a, b] + u, to)
  {
    var w := [a, b] + u;
    assert w[1..] == [b] + u && w[1..][1..] == u;
    assert Reads(src, Advance(src, c), w[1..], to);
  }

  /** A separator and an element more in front. */
  lemma {:induction false} TailStuckMore(src: Source, c: Position, spec: ListSpec, elements: seq<Lexeme>, u: Word)
    requires Within(src, c) && Distinct(spec) && NoEof(spec, src.eof)
    requires PeekAt(src, c, 0).token == spec.separator && PeekAt(src, Advance(src, c), 0).token == spec.element
    requires var d := Advance(src, c); TailStuck(src, Advance(src, d), spec, elements + [PeekAt(src, d, 0)], u)
    ensures TailStuck(src, c, spec, elements, [spec.separator, spec.element] + u)
  {
    var p := [spec.separator, spec.element];
    RunGoesOn(src, c, spec, elements);
    var run := RunTail(src, c, spec, elements);
    ReadsTwo(src, c, spec.separator, spec.element, u, run.at);
    PairRead(src, c, spec, u);
    TailBegunMore(spec, u);
    TailBegunMore(spec, u + [run.blame.token]);
    assert p + u + [run.blame.token] == p + (u + [run.blame.token]);
  }

  lemma {:induction false} TailGetsStuck(src: Source, c: Position, spec: ListSpec, elements: seq<Lexeme>) returns (u: Word)
    requires Within(src, c) && Distinct(spec) && NoEof(spec, src.eof) && RunTail(src, c, spec, elements).Rejected?
    ensures TailStuck(src, c, spec, elements, u)
    decreases |src.lexemes| - c
  {
    var d := Advance(src, c);
    if PeekAt(src, c, 0).token != spec.separator {
      TailStuckHere(src, c, spec, elements);
      u := [];
    } else if PeekAt(src, d, 0).token != spec.element {
      TailStuckBehind(src, c, spec, elements);
      u := [spec.separator];
    } else {
      SeparatedMoves(src, c, spec);
      RunGoesOn(src, c, spec, elements);
      var v := TailGetsStuck(src, Advance(src, d), spec, elements + [PeekAt(src, d, 0)]);
      TailStuckMore(src, c, spec, elements, v);
      u := [spec.separator, spec.element] + v;
    }
  }

  /** An opening token and an element in front of a tail make it a list. */
  lemma {:induction false} BegunTail(spec: ListSpec, u: Word)
    requires Distinct(spec)
    ensures Begun(spec, [spec.open, spec.element] + u) <==> TailBegun(spec, u)
  {
    var p := [spec.open, spec.element];
    forall v ensures IsList(spec, p + u + v) <==> IsTail(spec, u + v) {
      var w := p + u + v;
      assert w[0] == spec.open && w[1] == spec.element && w[2..] == u + v;
    }
  }

  lemma {:induction false} BegunOpen(spec: ListSpec)
    ensures Begun(spec, []) && Begun(spec, [spec.open])
  {
    var w := [spec.open, spec.element] + SomeTail(spec);
    assert w[2..] == SomeTail(spec);
    assert IsList(spec, [] + w) by {
      assert [] + w == w;
    }
    assert IsList(spec, [spec.open] + w[1..]) by {
      assert [spec.open] + w[1..] == w;
    }
  }

  /** Behind nothing only the opening token goes on, and behind that an element or the end of a list that may be empty. */
  lemma {:induction false} NotBegun(spec: ListSpec, t: Token)
    ensures t != spec.open ==> !Begun(spec, [t])
    ensures t != spec.element && !(t == spec.close && spec.allowEmpty) ==> !Begun(spec, [spec.open, t])
  {
    forall v ensures t != spec.open ==> !IsList(spec, [t] + v) {
      assert ([t] + v)[0] == t;
    }
    forall v ensures t != spec.element && !(t == spec.close && spec.allowEmpty) ==> !IsList(spec, [spec.open, t] + v) {
      assert ([spec.open, t] + v)[1] == t;
    }
  }

  /**
   A rejected list is blamed on the first lexeme no list can go on with: what stands before it can
   be completed to a list, with it that is impossible. One node was made for the list once it was
   opened, and one for every element before the blame.
   */
  lemma {:induction false} ListGetsStuck(src: Source, c: Position, spec: ListSpec) returns (u: Word)
    requires Within(src, c) && Distinct(spec) && NoEof(spec, src.eof) && spec.open != spec.element && RunList(src, c, spec).Rejected?
    ensures var run := RunList(src, c, spec);
            && run.blame == PeekAt(src, run.at, 0) && Reads(src, c, u, run.at) && Begun(spec, u) && !Begun(spec, u + [run.blame.token])
            && run.made == if u == [] then 0 else 1 + |ElementsRead(src, c, u, spec)|
  {
    var run, d := RunList(src, c, spec), Advance(src, c);
    BegunOpen(spec);
    NotBegun(spec, run.blame.token);
    if PeekAt(src, c, 0).token != spec.open {
      u := [];
      assert u + [run.blame.token] == [run.blame.token];
    } else if PeekAt(src, d, 0).token == spec.close || PeekAt(src, d, 0).token != spec.element {
      ReadsOne(src, c);
      u := [spec.open];
      assert u[1..] == [] && u + [run.blame.token] == [spec.open, run.blame.token];
    } else {
      var v := TailGetsStuck(src, Advance(src, d), spec, [PeekAt(src, d, 0)]);
      u := [spec.open, spec.element] + v;
      OpenedStuck(src, c, spec, v);
    }
  }

  lemma {:induction false} OpenedStuck(src: Source, c: Position, spec: ListSpec, v: Word)
    requires Within(src, c) && Distinct(spec) && NoEof(spec, src.eof) && spec.open != spec.element
    requires PeekAt(src, c, 0).token == spec.open && PeekAt(src, Advance(src, c), 0).token == spec.element
    requires var d := Advance(src, c); TailStuck(src, Advance(src, d), spec, [PeekAt(src, d, 0)], v)
    ensures var run, u := RunList(src, c, spec), [spec.open, spec.element] + v;
            && run.Rejected? && run.blame == PeekAt(src, run.at, 0) && Reads(src, c, u, run.at) && Begun(spec, u) && !Begun(spec, u + [run.blame.token])
            && run.made == 1 + |ElementsRead(src, c, u, spec)|
  {
    var run, u, d := RunList(src, c, spec), [spec.open, spec.element] + v, Advance(src, c);
    ReadsTwo(src, c, spec.open, spec.element, v, run.at);
    BegunTail(spec, v);
    BegunTail(spec, v + [run.blame.token]);
    assert u + [run.blame.token] == [spec.open, spec.element] + (v + [run.blame.token]);
    assert u[1..] == [spec.element] + v && u[1..][1..] == v;
    assert ElementsRead(src, d, u[1..], spec) == [PeekAt(src, d, 0)] + ElementsRead(src, Advance(src, d), v, spec);
  }
}
