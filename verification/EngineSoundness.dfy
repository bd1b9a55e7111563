/**
 Rules against their grammars. When a rule succeeds and no error is left anywhere, the
 tokens it consumed are a word of the grammar it publishes; and a syntax error never goes
 by unrecorded.
 */
module EngineSoundness {
  import opened Languages
  import opened Grammars
  import opened Semantics
  import opened Guards
  import opened TokenStreams
  import opened Sources
  import opened ErrorScopes
  import opened Rules
  import opened Engine
  import opened EngineTransaction
  import ErrorBuffer
  import ListRule
  import ChoiceDispatch

  // -------------------------------------------------------------------- clean states

  ghost predicate CleanEntry(e: Entry) {
    e.errs == [] && (e.Scope? ==> e.best.None?)
  }

  /** No error is published, committed or held. */
  ghost predicate Clean(n: Nested) {
    n.errors == [] && forall i :: 0 <= i < |n.entries| ==> CleanEntry(n.entries[i])
  }

  lemma CleanAppend(n: Nested, e: Entry)
    ensures Clean(n.(entries := n.entries + [e])) <==> Clean(n) && CleanEntry(e)
  {
    var r := n.(entries := n.entries + [e]);
    assert r.entries[|n.entries|] == e;
    forall i | 0 <= i < |n.entries| ensures r.entries[i] == n.entries[i] {
    }
  }

  lemma CleanAddErrs(n: Nested, errs: seq<SyntaxError>)
    requires n.entries != []
    ensures Clean(n.(entries := AddErrs(n.entries, errs))) <==> Clean(n) && errs == []
  {
    var k := |n.entries| - 1;
    var below, e := n.(entries := n.entries[..k]), n.entries[k];
    assert n.entries == n.entries[..k] + [e];
    CleanAppend(below, e);
    CleanAppend(below, e.(errs := e.errs + errs));
  }

  lemma {:induction false} CleanSetBest(n: Nested, best: Option<SyntaxError>)
    requires HasScope(n.entries)
    ensures Clean(n.(entries := SetBest(n.entries, best))) ==> best.None?
    ensures BestOf(n.entries).Some? ==> !Clean(n)
    decreases |n.entries|
  {
    var k := |n.entries| - 1;
    var below, e := n.(entries := n.entries[..k]), n.entries[k];
    assert n.entries == n.entries[..k] + [e];
    Appended(below.entries, e, best);
    CleanAppend(below, e);
    if e.Scope? {
      CleanAppend(below, e.(best := best));
    } else {
      CleanSetBest(below, best);
      CleanAppend(below.(entries := SetBest(below.entries, best)), e);
    }
  }

  lemma {:induction false} FurthestKeeps(best: Option<SyntaxError>, reports: seq<SyntaxError>)
    ensures Furthest(best, reports).None? ==> best.None? && reports == []
    decreases |reports|
  {
    if reports != [] {
      FurthestKeeps(Improve(best, reports[0]), reports[1..]);
    }
  }

  /** Errors do not go away: what ends clean has not changed at all. */
  lemma GrowsClean(n: Nested, n': Nested)
    requires HasScope(n.entries) && Grows(n, n') && Clean(n')
    ensures n' == n
  {
    var errs, reports :| n' == Effect(n, errs, reports);
    var best := Furthest(BestOf(n.entries), reports);
    var set' := n.(entries := SetBest(n.entries, best));
    SetBestShape(n.entries, best);
    CleanAddErrs(set', errs);
    CleanSetBest(n, best);
    FurthestKeeps(BestOf(n.entries), reports);
    SetSameBest(n.entries);
    AddNone(n.entries);
  }

  lemma ReportUnclean(m: Setup, s: State, rule: Rule, position: nat)
    requires HasScope(s.errors.entries)
    ensures !Clean(ReportPosition(s, rule, position).errors)
  {
    CleanSetBest(s.errors, Improve(BestOf(s.errors.entries), SyntaxError(false, position, rule.grammarLabel)));
  }

  lemma ExpectedUnclean(m: Setup, s: State, rule: Rule)
    requires HasScope(s.errors.entries) && Ready(m, s)
    ensures !Clean(ReportExpected(m, s, rule).errors)
  {
    if 0 < s.cursor {
      ReportUnclean(m, s, rule, m.src.lexemes[s.cursor - 1].end);
    } else {
      ReportUnclean(m, s, rule, Peek(m, s).start);
    }
  }

  // ------------------------------------------------------------------- reading words

  ghost predicate ReadsWord(src: Source, c: Position, w: Word, d: Position, l: Language)
    requires Within(src, c)
  {
    w in l && Reads(src, c, w, d)
  }

  /** Going from c to d consumes a word of l. */
  ghost predicate ReadIn(src: Source, c: Position, d: Position, l: Language) {
    Within(src, c) && exists w :: ReadsWord(src, c, w, d, l)
  }

  lemma ReadNothing(src: Source, c: Position, l: Language)
    requires Within(src, c) && [] in l
    ensures ReadIn(src, c, c, l)
  {
    assert ReadsWord(src, c, [], c, l);
  }

  lemma ReadOne(src: Source, c: Position)
    requires Within(src, c) && PeekAt(src, c, 0).token != src.eof
    ensures ReadIn(src, c, Advance(src, c), Single(PeekAt(src, c, 0).token))
  {
    ReadsOne(src, c);
    assert ReadsWord(src, c, [PeekAt(src, c, 0).token], Advance(src, c), Single(PeekAt(src, c, 0).token));
  }

  lemma ReadMore(src: Source, c: Position, d: Position, a: Language, b: Language)
    requires ReadIn(src, c, d, a) && a <= b
    ensures ReadIn(src, c, d, b)
  {
    var w :| ReadsWord(src, c, w, d, a);
    assert ReadsWord(src, c, w, d, b);
  }

  lemma ReadCat(src: Source, c: Position, d: Position, e: Position, a: Language, b: Language)
    requires ReadIn(src, c, d, a) && ReadIn(src, d, e, b)
    ensures ReadIn(src, c, e, Cat(a, b))
  {
    var u :| ReadsWord(src, c, u, d, a);
    var v :| ReadsWord(src, d, v, e, b);
    CatIntro(a, b, u, v);
    ReadsAppend(src, c, u, d, v, e);
    assert ReadsWord(src, c, u + v, e, Cat(a, b));
  }

  /** The tokens between the two positions are the word read. */
  lemma ReadTaken(src: Source, c: Position, d: Position, l: Language)
    requires ReadIn(src, c, d, l)
    ensures c <= d && Within(src, d) && Taken(src, c, d) in l
  {
    var w :| ReadsWord(src, c, w, d, l);
    ReadsTakes(src, c, w, d);
  }

  // ---------------------------------------------------------------- sound outcomes

  ghost function LangOf(m: Setup, rule: Rule): Language {
    Lang(Exact, GrammarMap(m.registry), GrammarOf(rule))
  }

  ghost function SeqLangOf(m: Setup, rules: seq<Rule>): Language {
    SeqLang(Exact, GrammarMap(m.registry), GrammarsOf(rules))
  }

  /** A clean success has read a word of l, and a syntax error has left its mark. */
  ghost predicate OutcomeSound(m: Setup, s: State, l: Language, o: Outcome) {
    o.Done? ==>
      && (o.result.Success? && Clean(o.state.errors) ==> ReadIn(m.src, s.cursor, o.state.cursor, l))
      && (o.result.Failure? && o.result.kind.FailureError? ==> !Clean(o.state.errors))
  }

  /** A probe's failures are undone, marks and all. */
  ghost predicate RunSound(m: Setup, exec: Exec, rule: Rule, mode: Mode, s: State) {
    var o := exec(rule, mode, s);
    Ready(m, s) && o.Done? && (o.result.Success? || mode.Normal?) ==> OutcomeSound(m, s, LangOf(m, rule), o)
  }

  ghost predicate SoundExec(m: Setup, exec: Exec) {
    forall rule, mode, s :: WithoutEof(rule, m.src.eof) ==> RunSound(m, exec, rule, mode, s)
  }

  /** The ground rules bodies run under. */
  ghost predicate Inside(m: Setup, exec: Exec, s: State) {
    Transactional(m, exec) && SoundExec(m, exec) && Ready(m, s) && HasScope(s.errors.entries)
  }

  lemma {:induction false} ChildSound(m: Setup, exec: Exec, rule: Rule, s: State)
    requires Inside(m, exec, s) && WithoutEof(rule, m.src.eof)
    ensures OutcomeSound(m, s, LangOf(m, rule), exec(rule, Normal, s)) && OutcomeMoves(m, s, exec(rule, Normal, s))
    ensures var o := exec(rule, Normal, s);
            o.Done? && o.result.Failure? && o.result.kind.FailureNoMatch? ==> o.state.cursor == s.cursor
  {
    assert RunSound(m, exec, rule, Normal, s);
    ChildMoves(m, exec, rule, Normal, s);
    assert RunsOk(m, exec, rule, Normal, s);
  }

  lemma SoundMore(m: Setup, s: State, a: Language, b: Language, o: Outcome)
    requires OutcomeSound(m, s, a, o) && a <= b
    ensures OutcomeSound(m, s, b, o)
  {
    if o.Done? && o.result.Success? && Clean(o.state.errors) {
      ReadMore(m.src, s.cursor, o.state.cursor, a, b);
    }
  }

  /** A step that reads a word of a when it is clean, and a sound outcome after it. */
  lemma SoundAfter(m: Setup, s: State, a: Language, t: State, b: Language, o: Outcome)
    requires HasScope(t.errors.entries) && (Clean(t.errors) ==> ReadIn(m.src, s.cursor, t.cursor, a))
    requires OutcomeMoves(m, t, o) && OutcomeSound(m, t, b, o)
    ensures OutcomeSound(m, s, Cat(a, b), o)
  {
    if o.Done? && o.result.Success? && Clean(o.state.errors) {
      GrowsClean(t.errors, o.state.errors);
      ReadCat(m.src, s.cursor, t.cursor, o.state.cursor, a, b);
    }
  }

  lemma NoMatchSound(m: Setup, s: State, l: Language, t: State)
    ensures OutcomeSound(m, s, l, Done(NoMatch(), t))
  {
  }

  // ----------------------------------------------------------------- the rule bodies

  lemma {:induction false} AltHas(rules: Grammars.Rules, gs: seq<Grammar>, i: nat)
    requires i < |gs|
    ensures Lang(Exact, rules, gs[i]) <= AltLang(Exact, rules, gs)
    decreases i
  {
    if i > 0 {
      AltHas(rules, gs[1..], i - 1);
    }
  }

  lemma ExpectSound(m: Setup, rule: Rule, tokens: seq<Token>, kind: Option<Kind>, s: State)
    requires Ready(m, s) && rule.body == Expect(tokens, kind) && m.src.eof !in tokens
    ensures OutcomeSound(m, s, LangOf(m, rule), RunExpect(m, tokens, kind, s))
  {
    var l := Peek(m, s);
    if l.token in tokens {
      var i: nat :| i < |tokens| && tokens[i] == l.token;
      ReadOne(m.src, s.cursor);
      var rules := GrammarMap(m.registry);
      LangToken(Exact, rules, TokenOf(rule, l.token));
      if |tokens| != 1 {
        LangChoice(Exact, rules, GrammarOf(rule));
        AltHas(rules, GrammarOf(rule).children, i);
      }
      ReadMore(m.src, s.cursor, Advance(m.src, s.cursor), Single(l.token), LangOf(m, rule));
    }
  }

  lemma {:induction false} NewNodesKeep(s: State, n: nat)
    ensures NewNodes(s, n).errors == s.errors && NewNodes(s, n).cursor == s.cursor
    decreases n
  {
    if n > 0 {
      NewNodesKeep(s, n - 1);
    }
  }

  lemma {:induction false} ListSound(m: Setup, rule: Rule, spec: ListRule.ListSpec, lk: Kind, ek: Kind, s: State)
    requires Ready(m, s) && HasScope(s.errors.entries) && rule.body == ListOf(spec, lk, ek) && WithoutEof(rule, m.src.eof)
    ensures OutcomeSound(m, s, LangOf(m, rule), RunListOf(m, rule, spec, lk, ek, s))
  {
    match ListRule.RunList(m.src, s.cursor, spec)
    case Accepted(at, elements) =>
      ListRule.ListExact(GrammarMap(m.registry), rule.grammarLabel, m.src, s.cursor, spec, at);
      NewNodesKeep(s.(cursor := at), 1 + |elements|);
      assert ReadsWord(m.src, s.cursor, Taken(m.src, s.cursor, at), at, LangOf(m, rule));
    case Rejected(at, blame, made) =>
      NewNodesKeep(s.(cursor := at), made);
      ReportUnclean(m, NewNodes(s.(cursor := at), made), rule, blame.start);
  }

  lemma JudgeSound(m: Setup, s: State, owner: Rule, element: Rule, marker: nat, r: Result, t: State)
    requires Ready(m, t) && HasScope(t.errors.entries) && OutcomeSound(m, s, LangOf(m, element), Done(r, t))
    ensures var v := Judge(m, owner, element, marker, r, t);
            if v.Keep? then Clean(v.state.errors) ==> ReadIn(m.src, s.cursor, v.state.cursor, LangOf(m, element))
            else v.result.kind.FailureError? ==> !Clean(v.state.errors)
  {
    ExpectedUnclean(m, t, owner);
  }

  lemma {:induction false} SequenceSound(m: Setup, exec: Exec, owner: Rule, kind: Option<Kind>, rules: seq<Rule>, marker: nat,
                                         children: seq<Tree>, s: State)
    requires Inside(m, exec, s) && AllWithoutEof(rules, m.src.eof)
    ensures OutcomeSound(m, s, SeqLangOf(m, rules), RunSequence(m, exec, owner, kind, rules, marker, children, s))
    decreases |rules|
  {
    if rules == [] {
      ReadNothing(m.src, s.cursor, Epsilon);
    } else {
      ChildSound(m, exec, rules[0], s);
      var c := exec(rules[0], Normal, s);
      if c.Done? {
        JudgeMoves(m, s, owner, rules[0], marker, c.result, c.state);
        JudgeSound(m, s, owner, rules[0], marker, c.result, c.state);
        var v := Judge(m, owner, rules[0], marker, c.result, c.state);
        if v.Keep? {
          var more := Attached(children, v.result);
          SequenceSound(m, exec, owner, kind, rules[1..], marker, more, v.state);
          SequenceMoves(m, exec, owner, kind, rules[1..], marker, more, v.state);
          SoundAfter(m, s, LangOf(m, rules[0]), v.state, SeqLangOf(m, rules[1..]),
                     RunSequence(m, exec, owner, kind, rules[1..], marker, more, v.state));
        }
      }
    }
  }

  /** An empty flight is part of being clean. */
  lemma {:induction false} FlightUnclean(n: Nested)
    requires |ErrorBuffer.Flight(n.entries)| > 0
    ensures !Clean(n)
    decreases |n.entries|
  {
    var k := |n.entries| - 1;
    var below := n.(entries := n.entries[..k]);
    if n.entries[k].errs == [] {
      FlightUnclean(below);
      assert n.entries == n.entries[..k] + [n.entries[k]];
      CleanAppend(below, n.entries[k]);
    } else {
      assert !CleanEntry(n.entries[k]);
    }
  }

  lemma RootFailureSound(m: Setup, owner: Rule, committed: bool, r: Result, s: State, l: Language, t: State)
    requires Ready(m, t) && HasScope(t.errors.entries) && r.Failure? && OutcomeSound(m, s, l, Done(r, t))
    ensures forall l' :: OutcomeSound(m, s, l', RootFailure(m, owner, committed, r, t))
  {
    ExpectedUnclean(m, t, owner);
    if |ErrorBuffer.Flight(t.errors.entries)| > t.baseline {
      FlightUnclean(t.errors);
    }
  }

  lemma {:induction false} RootSound(m: Setup, exec: Exec, owner: Rule, kind: Kind, id: nat, rules: seq<Rule>, committed: bool,
                                     children: seq<Tree>, s: State)
    requires Inside(m, exec, s) && AllWithoutEof(rules, m.src.eof)
    ensures OutcomeSound(m, s, SeqLangOf(m, rules), RunRoot(m, exec, owner, kind, id, rules, committed, children, s))
    decreases |rules|
  {
    if rules == [] {
      ReadNothing(m.src, s.cursor, Epsilon);
    } else {
      ChildSound(m, exec, rules[0], s);
      var c := exec(rules[0], Normal, s);
      if c.Done? {
        if c.result.Success? {
          var more := Attached(children, c.result);
          RootSound(m, exec, owner, kind, id, rules[1..], true, more, c.state);
          RootMoves(m, exec, owner, kind, id, rules[1..], true, more, c.state);
          SoundAfter(m, s, LangOf(m, rules[0]), c.state, SeqLangOf(m, rules[1..]),
                     RunRoot(m, exec, owner, kind, id, rules[1..], true, more, c.state));
        } else {
          RootFailureSound(m, owner, committed, c.result, s, LangOf(m, rules[0]), c.state);
        }
      }
    }
  }

  // -------------------------------------------------------------------- repetitions

  /** A loop that ends clean has read as many words as it counted; one that fails has left its mark. */
  ghost predicate LoopSound(m: Setup, s: State, l: Language, count: nat, max: Option<nat>, o: LoopOutcome) {
    && (o.LoopDone? && Clean(o.state.errors) ==>
          && count <= o.count && (max.Some? && count <= max.value ==> o.count <= max.value)
          && ReadIn(m.src, s.cursor, o.state.cursor, Power(l, o.count - count)))
    && (o.LoopFailed? && o.result.Failure? && o.result.kind.FailureError? ==> !Clean(o.state.errors))
    && (o.LoopFailed? ==> o.result.Failure?)
  }

  lemma ReadPower(src: Source, c: Position, d: Position, e: Position, l: Language, n: nat)
    requires ReadIn(src, c, d, l) && ReadIn(src, d, e, Power(l, n))
    ensures ReadIn(src, c, e, Power(l, n + 1))
  {
    ReadCat(src, c, d, e, l, Power(l, n));
  }

  lemma {:induction false} LoopStopsHere(m: Setup, s: State, l: Language, count: nat, max: Option<nat>, children: seq<Tree>)
    requires Ready(m, s)
    ensures LoopSound(m, s, l, count, max, LoopDone(count, children, s))
  {
    ReadNothing(m.src, s.cursor, Epsilon);
  }

  lemma {:induction false} TurnSound(m: Setup, s: State, l: Language, count: nat, max: Option<nat>, retries: bool, children: seq<Tree>, r: Result, t: State)
    requires OutcomeSound(m, s, l, Done(r, t)) && OutcomeMoves(m, s, Done(r, t))
    requires r.Failure? && r.kind.FailureNoMatch? ==> t.cursor == s.cursor
    ensures var turn := NextTurn(m, retries, count, children, s, r, t);
            && (turn.Stop? ==> LoopSound(m, s, l, count, max, turn.outcome))
            && (turn.Again? ==> if r.Success? then turn.count == count + 1 else r.kind.FailureError? && turn.count == count)
  {
    ReadNothing(m.src, s.cursor, Epsilon);
  }

  lemma {:induction false} LoopReads(m: Setup, exec: Exec, inner: Rule, max: Option<nat>, retries: bool, count: nat, children: seq<Tree>,
                                     s: State, turns: nat)
    requires Inside(m, exec, s) && WithoutEof(inner, m.src.eof)
    ensures LoopSound(m, s, LangOf(m, inner), count, max, RunLoop(m, exec, inner, max, retries, count, children, s, turns))
    decreases turns
  {
    if max.Some? && count >= max.value {
      LoopStopsHere(m, s, LangOf(m, inner), count, max, children);
    } else if turns > 0 {
      ChildSound(m, exec, inner, s);
      var c := exec(inner, Normal, s);
      if c.Done? {
        TurnSound(m, s, LangOf(m, inner), count, max, retries, children, c.result, c.state);
        var turn := NextTurn(m, retries, count, children, s, c.result, c.state);
        if turn.Again? {
          LoopReads(m, exec, inner, max, retries, turn.count, turn.children, c.state, turns - 1);
          LoopReadsOn(m, exec, inner, max, retries, count, s, c.result, c.state, turn.count, turn.children, turns - 1);
        }
      }
    }
  }

  lemma {:induction false} LoopReadsOn(m: Setup, exec: Exec, inner: Rule, max: Option<nat>, retries: bool, count: nat, s: State,
                                       r: Result, t: State, n: nat, children: seq<Tree>, turns: nat)
    requires Inside(m, exec, s) && Inside(m, exec, t) && OutcomeSound(m, s, LangOf(m, inner), Done(r, t))
    requires !(max.Some? && count >= max.value) && (if r.Success? then n == count + 1 else r.kind.FailureError? && n == count)
    requires LoopSound(m, t, LangOf(m, inner), n, max, RunLoop(m, exec, inner, max, retries, n, children, t, turns))
    ensures LoopSound(m, s, LangOf(m, inner), count, max, RunLoop(m, exec, inner, max, retries, n, children, t, turns))
  {
    LoopMoves(m, exec, inner, max, retries, n, children, t, turns);
    LoopAgain(m, s, LangOf(m, inner), count, max, r, t, n, RunLoop(m, exec, inner, max, retries, n, children, t, turns));
  }

  lemma LoopAgain(m: Setup, s: State, l: Language, count: nat, max: Option<nat>, r: Result, t: State, n: nat, o: LoopOutcome)
    requires HasScope(t.errors.entries) && OutcomeSound(m, s, l, Done(r, t)) && !(max.Some? && count >= max.value)
    requires if r.Success? then n == count + 1 else r.kind.FailureError? && n == count
    requires LoopMoved(m, t, o) && LoopSound(m, t, l, n, max, o)
    ensures LoopSound(m, s, l, count, max, o)
  {
    if o.LoopDone? && Clean(o.state.errors) {
      GrowsClean(t.errors, o.state.errors);
      ReadPower(m.src, s.cursor, t.cursor, o.state.cursor, l, o.count - n);
    }
  }

  lemma {:induction false} PowerInIterate(l: Language, n: nat, min: nat, max: int)
    requires min <= n && (max < 0 || n <= max)
    ensures Power(l, n) <= Iterate(l, min, max)
  {
    forall w | w in Power(l, n) ensures w in Iterate(l, min, max) {
      assert Rounds(l, n, w);
    }
  }

  lemma {:induction false} CloseLoopSound(m: Setup, s: State, rule: Rule, kind: Option<Kind>, id: nat, min: nat, max: Option<nat>, inner: Rule, o: LoopOutcome)
    requires GrammarOf(rule) == GRepeat(InfoOf(rule), GrammarOf(inner), min, max)
    requires LoopSound(m, s, LangOf(m, inner), 0, max, o)
    ensures OutcomeSound(m, s, LangOf(m, rule), CloseLoop(kind, id, min, o))
  {
    LangRepeat(Exact, GrammarMap(m.registry), GrammarOf(rule));
    if o.LoopDone? && o.count >= min && Clean(o.state.errors) {
      PowerInIterate(LangOf(m, inner), o.count, min, if max.Some? then max.value else -1);
      ReadMore(m.src, s.cursor, o.state.cursor, Power(LangOf(m, inner), o.count), LangOf(m, rule));
    }
  }

  lemma {:induction false} RepetitionSound(m: Setup, exec: Exec, rule: Rule, kind: Option<Kind>, min: nat, max: Option<nat>, retries: bool, inner: Rule, s: State, turns: nat)
    requires Inside(m, exec, s) && WithoutEof(inner, m.src.eof)
    requires GrammarOf(rule) == GRepeat(InfoOf(rule), GrammarOf(inner), min, max)
    ensures OutcomeSound(m, s, LangOf(m, rule), RunRepetition(m, exec, kind, min, max, retries, inner, s, turns))
  {
    var e := if kind.Some? then NewNode(s) else s;
    LoopReads(m, exec, inner, max, retries, 0, [], e, turns);
    CloseLoopSound(m, s, rule, kind, s.nextID + 1, min, max, inner, RunLoop(m, exec, inner, max, retries, 0, [], e, turns));
  }

  // ------------------------------------------------------------------ one inner rule

  lemma SeqOne(m: Setup, g: Grammar)
    ensures SeqLang(Exact, GrammarMap(m.registry), [g]) == Lang(Exact, GrammarMap(m.registry), g)
  {
    var rules := GrammarMap(m.registry);
    assert [g][1..] == [];
    assert SeqLang(Exact, rules, [g]) == Cat(Lang(Exact, rules, g), SeqLang(Exact, rules, [g][1..]));
    CatUnit(Lang(Exact, rules, g));
  }

  lemma ConcatTwo(m: Setup, g: Grammar, a: Grammar, b: Grammar)
    requires g.GConcat? && g.children == [a, b]
    ensures Lang(Exact, GrammarMap(m.registry), g) == Cat(Lang(Exact, GrammarMap(m.registry), a), Lang(Exact, GrammarMap(m.registry), b))
  {
    LangConcat(Exact, GrammarMap(m.registry), g);
    assert g.children[1..] == [b];
    SeqOne(m, b);
  }

  lemma {:induction false} OptionalLang(m: Setup, rule: Rule, inner: Rule)
    requires GrammarOf(rule) == GOptional(InfoOf(rule), GrammarOf(inner))
    ensures [] in LangOf(m, rule) && LangOf(m, inner) <= LangOf(m, rule)
  {
    LangOptional(Exact, GrammarMap(m.registry), GrammarOf(rule));
  }

  lemma {:induction false} OptionalSound(m: Setup, exec: Exec, rule: Rule, inner: Rule, s: State)
    requires Inside(m, exec, s) && WithoutEof(inner, m.src.eof) && rule.body == Optional(inner)
    ensures OutcomeSound(m, s, LangOf(m, rule), RunOptional(exec, inner, s))
  {
    OptionalLang(m, rule, inner);
    ReadNothing(m.src, s.cursor, LangOf(m, rule));
    var c := exec(inner, Probe, s);
    assert RunSound(m, exec, inner, Probe, s) && RunsOk(m, exec, inner, Probe, s);
    if c.Done? && c.result.Success? {
      SoundMore(m, s, LangOf(m, inner), LangOf(m, rule), c);
    }
  }

  lemma {:induction false} WhenSound(m: Setup, exec: Exec, rule: Rule, start: Guard, inner: Rule, s: State, turns: nat)
    requires Inside(m, exec, s) && WithoutEof(inner, m.src.eof) && rule.body == OptionalWhen(start, inner)
    ensures OutcomeSound(m, s, LangOf(m, rule), RunBody(m, exec, rule, s, turns))
  {
    OptionalLang(m, rule, inner);
    ReadNothing(m.src, s.cursor, LangOf(m, rule));
    ChildSound(m, exec, inner, s);
    SoundMore(m, s, LangOf(m, inner), LangOf(m, rule), exec(inner, Normal, s));
  }

  lemma TokenLang(m: Setup, rule: Rule, t: Token)
    ensures Lang(Exact, GrammarMap(m.registry), TokenOf(rule, t)) == Single(t)
  {
    LangToken(Exact, GrammarMap(m.registry), TokenOf(rule, t));
  }

  lemma TakenToken(m: Setup, s: State, t: Token)
    requires Ready(m, s) && Peek(m, s).token == t != m.src.eof
    ensures ReadIn(m.src, s.cursor, Take(m, s).cursor, Single(t))
  {
    ReadOne(m.src, s.cursor);
  }

  lemma {:induction false} SuffixSound(m: Setup, exec: Exec, rule: Rule, kind: Kind, inner: Rule, suffix: Token, s: State)
    requires Inside(m, exec, s) && rule.body == OptionalSuffix(kind, inner, suffix) && WithoutEof(rule, m.src.eof)
    ensures OutcomeSound(m, s, LangOf(m, rule), RunSuffix(m, exec, kind, inner, suffix, s))
  {
    var tail := GOptional(InfoOf(rule), TokenOf(rule, suffix));
    var tl := Lang(Exact, GrammarMap(m.registry), tail);
    ConcatTwo(m, GrammarOf(rule), GrammarOf(inner), tail);
    LangOptional(Exact, GrammarMap(m.registry), tail);
    TokenLang(m, rule, suffix);
    ChildSound(m, exec, inner, s);
    var c := exec(inner, Normal, s);
    if c.Done? && c.result.Success? && Clean(c.state.errors) {
      ReadNothing(m.src, c.state.cursor, tl);
      ReadCat(m.src, s.cursor, c.state.cursor, c.state.cursor, LangOf(m, inner), tl);
      if Peek(m, c.state).token == suffix {
        TakenToken(m, c.state, suffix);
        ReadMore(m.src, c.state.cursor, Take(m, c.state).cursor, Single(suffix), tl);
        ReadCat(m.src, s.cursor, c.state.cursor, Take(m, c.state).cursor, LangOf(m, inner), tl);
      }
    }
  }

  lemma {:induction false} RequiredSound(m: Setup, exec: Exec, owner: Rule, inner: Rule, s: State)
    requires Inside(m, exec, s) && WithoutEof(inner, m.src.eof)
    ensures OutcomeSound(m, s, LangOf(m, inner), RunRequired(m, exec, owner, inner, s))
  {
    ChildSound(m, exec, inner, s);
    var c := exec(inner, Normal, s);
    if c.Done? {
      ExpectedUnclean(m, c.state, owner);
    }
  }

  /** A committed inner rule fails with an error only when it left a mark: "no match" puts the cursor back. */
  lemma {:induction false} CommittedSound(m: Setup, exec: Exec, inner: Rule, s: State)
    requires Inside(m, exec, s) && WithoutEof(inner, m.src.eof)
    ensures OutcomeSound(m, s, LangOf(m, inner), RunCommitted(m, exec, inner, s))
  {
    ChildSound(m, exec, inner, s);
  }

  lemma {:induction false} PrefixedSound(m: Setup, exec: Exec, rule: Rule, prefix: Token, inner: Rule, s: State, turns: nat)
    requires Inside(m, exec, s) && rule.body == Prefixed(prefix, inner) && WithoutEof(rule, m.src.eof)
    ensures OutcomeSound(m, s, LangOf(m, rule), RunBody(m, exec, rule, s, turns))
  {
    NoMatchSound(m, s, LangOf(m, rule), s);
    if Peek(m, s).token == prefix {
      var t := Take(m, s);
      TakenToken(m, s, prefix);
      TokenLang(m, rule, prefix);
      ConcatTwo(m, GrammarOf(rule), TokenOf(rule, prefix), GrammarOf(inner));
      CommittedSound(m, exec, inner, t);
      CommittedMoves(m, exec, inner, t);
      SoundAfter(m, s, Single(prefix), t, LangOf(m, inner), RunCommitted(m, exec, inner, t));
    }
  }

  // --------------------------------------------------------------------------- nests

  lemma PopRegionClean(s: State)
    requires |s.errors.entries| > 1
    ensures Clean(PopRegionOf(s).errors) <==> Clean(s.errors)
  {
    var es := s.errors.entries;
    var k := |es| - 1;
    if es[k].Region? {
      var below := s.errors.(entries := es[..k]);
      assert es == es[..k] + [es[k]];
      CleanAppend(below, es[k]);
      CleanAddErrs(below, es[k].errs);
    }
  }

  lemma {:induction false} SinceRegionUnclean(n: Nested)
    requires |ErrorBuffer.SinceRegion(n.entries)| > 0
    ensures !Clean(n)
    decreases |n.entries|
  {
    var k := |n.entries| - 1;
    if n.entries[k].errs == [] {
      SinceRegionUnclean(n.(entries := n.entries[..k]));
      assert n.entries == n.entries[..k] + [n.entries[k]];
      CleanAppend(n.(entries := n.entries[..k]), n.entries[k]);
    } else {
      assert !CleanEntry(n.entries[k]);
    }
  }

  /** An error that silences the missing-delimiter message is itself on record. */
  lemma ErrorInsideUnclean(n: Nested)
    requires ErrorBuffer.ErrorInsideRegion(n.entries)
    ensures !Clean(n)
  {
    var start := ErrorBuffer.InnermostRegion(n.entries).value;
    if ErrorBuffer.ReachesInto(ErrorBuffer.SinceRegion(n.entries), start) {
      SinceRegionUnclean(n);
    } else {
      var i :| 0 <= i < |n.entries| && n.entries[i].Scope? && n.entries[i].best.Some? && n.entries[i].best.value.position >= start;
      assert !CleanEntry(n.entries[i]);
    }
  }

  lemma CloseMissingUnclean(m: Setup, owner: Rule, s: State)
    requires HasScope(s.errors.entries)
    ensures !Clean(CloseMissing(m, owner, s).errors)
  {
    if ErrorBuffer.ErrorInsideRegion(s.errors.entries) {
      ErrorInsideUnclean(s.errors);
    } else {
      ReportUnclean(m, s, owner, Peek(m, s).start);
    }
  }

  lemma {:induction false} NestLang(m: Setup, rule: Rule, open: Token, close: Token, inner: Rule)
    requires GrammarOf(rule) == GNest(InfoOf(rule), open, close, GrammarOf(inner))
    ensures LangOf(m, rule) == Cat(Single(open), Cat(LangOf(m, inner), Single(close)))
  {
    LangNest(Exact, GrammarMap(m.registry), GrammarOf(rule));
  }

  /** Closing a nest whose opening delimiter was read in s and whose inner rule ended in t. */
  lemma {:induction false} CloseNestSound(m: Setup, rule: Rule, kind: Option<Kind>, open: Token, close: Token, inner: Rule, s: State, d: Position, r: Result, t: State)
    requires GrammarOf(rule) == GNest(InfoOf(rule), open, close, GrammarOf(inner)) && close != m.src.eof
    requires Ready(m, t) && HasScope(t.errors.entries) && |t.errors.entries| > 1
    requires ReadIn(m.src, s.cursor, d, Single(open))
    requires r.Success? && Clean(t.errors) ==> ReadIn(m.src, d, t.cursor, LangOf(m, inner))
    requires r.Failure? && r.kind.FailureError? ==> !Clean(t.errors)
    ensures OutcomeSound(m, s, LangOf(m, rule), CloseNest(m, rule, kind, close, r, t))
  {
    PopRegionClean(t);
    if r.Success? {
      if Peek(m, t).token != close {
        CloseMissingUnclean(m, rule, t);
        CloseMissingShape(m, rule, t);
        PopRegionClean(CloseMissing(m, rule, t));
      } else {
        var u := if kind.None? then Take(m, t) else NewNode(Take(m, t));
        PopRegionClean(u);
        if Clean(t.errors) {
          TakenToken(m, t, close);
          NestLang(m, rule, open, close, inner);
          ReadCat(m.src, d, t.cursor, u.cursor, LangOf(m, inner), Single(close));
          ReadCat(m.src, s.cursor, d, u.cursor, Single(open), Cat(LangOf(m, inner), Single(close)));
        }
      }
    }
  }

  lemma CloseMissingShape(m: Setup, owner: Rule, s: State)
    ensures |CloseMissing(m, owner, s).errors.entries| == |s.errors.entries|
  {
    SetBestShape(s.errors.entries, Improve(BestOf(s.errors.entries), SyntaxError(false, Peek(m, s).start, owner.grammarLabel)));
  }

  lemma {:induction false} NestSound(m: Setup, exec: Exec, rule: Rule, kind: Option<Kind>, open: Token, close: Token, inner: Rule, s: State)
    requires Inside(m, exec, s) && rule.body == Nest(kind, open, close, inner) && WithoutEof(rule, m.src.eof)
    ensures OutcomeSound(m, s, LangOf(m, rule), RunNest(m, exec, rule, kind, open, close, inner, s))
  {
    NoMatchSound(m, s, LangOf(m, rule), s);
    if Peek(m, s).token == open {
      var o := Opened(m, s);
      OpenedInRegion(m, s);
      TakenToken(m, s, open);
      CommittedSound(m, exec, inner, o);
      CommittedMoves(m, exec, inner, o);
      var c := RunCommitted(m, exec, inner, o);
      if c.Done? {
        MovesDepth(m, o, c.state);
        NestDepth(s);
        CloseNestSound(m, rule, kind, open, close, inner, s, o.cursor, c.result, c.state);
      }
    }
  }

  lemma NestDepth(s: State)
    requires HasScope(s.errors.entries)
    ensures |s.errors.entries| > 0
  {
  }

  lemma MovesDepth(m: Setup, s: State, t: State)
    requires Moves(m, s, t)
    ensures |t.errors.entries| == |s.errors.entries|
  {
    var errs, reports :| t.errors == Effect(s.errors, errs, reports);
    SetBestShape(s.errors.entries, Furthest(BestOf(s.errors.entries), reports));
  }

  // ------------------------------------------------------------------------- choices

  lemma {:induction false} ArmsSound(m: Setup, exec: Exec, rules: seq<Rule>, s: State, l: Language)
    requires Inside(m, exec, s) && AllWithoutEof(rules, m.src.eof)
    requires forall i :: 0 <= i < |rules| ==> LangOf(m, rules[i]) <= l
    ensures OutcomeSound(m, s, l, RunArms(exec, rules, s))
    decreases |rules|
  {
    if rules != [] {
      ChildSound(m, exec, rules[0], s);
      SoundMore(m, s, LangOf(m, rules[0]), l, exec(rules[0], Normal, s));
      var c := exec(rules[0], Normal, s);
      if c.Done? && c.result.Failure? && c.result.kind.FailureNoMatch? {
        assert forall i :: 0 <= i < |rules[1..]| ==> rules[1..][i] == rules[i + 1];
        ArmsSound(m, exec, rules[1..], c.state, l);
      }
    }
  }

  lemma ArmLangs(m: Setup, rule: Rule, rules: seq<Rule>)
    requires rule.body == Choice(rules)
    ensures forall i :: 0 <= i < |rules| ==> LangOf(m, rules[i]) <= LangOf(m, rule)
  {
    LangChoice(Exact, GrammarMap(m.registry), GrammarOf(rule));
    forall i | 0 <= i < |rules| ensures LangOf(m, rules[i]) <= LangOf(m, rule) {
      AltHas(GrammarMap(m.registry), GrammarsOf(rules), i);
    }
  }

  lemma {:induction false} SelectedFrom(rules: seq<Rule>, indices: seq<nat>, eof: Token)
    requires AllWithoutEof(rules, eof)
    ensures forall r :: r in Selected(rules, indices) ==> r in rules
    ensures AllWithoutEof(Selected(rules, indices), eof)
    decreases |indices|
  {
    if indices != [] {
      SelectedFrom(rules, indices[1..], eof);
      if indices[0] < |rules| {
        EachWithoutEof(rules, eof, indices[0]);
        assert Selected(rules, indices) == [rules[indices[0]]] + Selected(rules, indices[1..]);
        assert Selected(rules, indices)[1..] == Selected(rules, indices[1..]);
      } else {
        assert Selected(rules, indices) == Selected(rules, indices[1..]);
      }
    }
  }

  lemma {:induction false} EachWithoutEof(rules: seq<Rule>, eof: Token, i: nat)
    requires i < |rules| && AllWithoutEof(rules, eof)
    ensures WithoutEof(rules[i], eof)
    decreases i
  {
    if i > 0 {
      EachWithoutEof(rules[1..], eof, i - 1);
    }
  }

  lemma {:induction false} ChoiceSound(m: Setup, exec: Exec, rule: Rule, rules: seq<Rule>, s: State)
    requires Inside(m, exec, s) && rule.body == Choice(rules) && AllWithoutEof(rules, m.src.eof)
    ensures OutcomeSound(m, s, LangOf(m, rule), RunChoice(m, exec, rules, s))
  {
    ArmLangs(m, rule, rules);
    var d := ChoiceDispatch.DispatchOf(m.analysis, Arms(rules), Ahead(m, s));
    match d
    case NoArm => NoMatchSound(m, s, LangOf(m, rule), s);
    case Fallback => ArmsSound(m, exec, rules, s, LangOf(m, rule));
    case Candidates(indices) =>
      SelectedFrom(rules, indices, m.src.eof);
      var chosen := Selected(rules, indices);
      forall i | 0 <= i < |chosen| ensures LangOf(m, chosen[i]) <= LangOf(m, rule) {
        assert chosen[i] in rules;
        var j :| 0 <= j < |rules| && rules[j] == chosen[i];
        assert LangOf(m, rules[j]) <= LangOf(m, rule);
      }
      ArmsSound(m, exec, chosen, s, LangOf(m, rule));
  }

  // --------------------------------------------------------------------- all bodies

  lemma ReferenceLang(m: Setup, rule: Rule, target: Label)
    requires rule.body == Reference(target) && target in m.registry
    ensures LangOf(m, rule) == LangOf(m, m.registry[target])
  {
    LangReference(Exact, GrammarMap(m.registry), GrammarOf(rule));
    assert GrammarMap(m.registry)[target] == GrammarOf(m.registry[target]);
  }

  lemma {:induction false} ReferenceSound(m: Setup, exec: Exec, rule: Rule, target: Label, s: State, turns: nat)
    requires Inside(m, exec, s) && RegistryWithoutEof(m.registry, m.src.eof) && rule.body == Reference(target)
    ensures OutcomeSound(m, s, LangOf(m, rule), RunReference(m, exec, target, s, turns))
    decreases turns, 0
  {
    if target in m.registry && turns > 0 {
      ReferenceLang(m, rule, target);
      BodySound(m, exec, m.registry[target], WithRecovery(m.registry[target], s), turns - 1);
    }
  }

  lemma {:induction false} SequenceBodySound(m: Setup, exec: Exec, rule: Rule, s: State, turns: nat)
    requires Inside(m, exec, s) && WithoutEof(rule, m.src.eof) && (rule.body.Sequence? || rule.body.Wrap? || rule.body.Root?)
    ensures OutcomeSound(m, s, LangOf(m, rule), RunBody(m, exec, rule, s, turns))
  {
    LangConcat(Exact, GrammarMap(m.registry), GrammarOf(rule));
    match rule.body
    case Sequence(kind, rules) => SequenceSound(m, exec, rule, kind, rules, Marker(m, s), [], s);
    case Wrap(kind, inner) =>
      assert [inner][1..] == [] && GrammarsOf([inner]) == [GrammarOf(inner)];
      SequenceSound(m, exec, rule, Some(kind), [inner], Marker(m, s), [], s);
    case Root(kind, rules) =>
      RootSound(m, exec, rule, kind, s.nextID + 1, rules, false, [], NewNode(s));
    case _ =>
  }

  lemma {:induction false} OneRuleSound(m: Setup, exec: Exec, rule: Rule, s: State, turns: nat)
    requires Inside(m, exec, s) && WithoutEof(rule, m.src.eof) && RunsOneRule(rule.body)
    ensures OutcomeSound(m, s, LangOf(m, rule), RunBody(m, exec, rule, s, turns))
  {
    match rule.body
    case Optional(inner) => OptionalSound(m, exec, rule, inner, s);
    case OptionalWhen(start, inner) => WhenSound(m, exec, rule, start, inner, s, turns);
    case Predict(_, inner) =>
      NoMatchSound(m, s, LangOf(m, rule), s);
      ChildSound(m, exec, inner, s);
    case OptionalSuffix(kind, inner, suffix) => SuffixSound(m, exec, rule, kind, inner, suffix, s);
    case Required(inner) => RequiredSound(m, exec, rule, inner, s);
    case RecoverSync(inner) => ChildSound(m, exec, inner, s);
    case Prefixed(prefix, inner) => PrefixedSound(m, exec, rule, prefix, inner, s, turns);
    case _ =>
  }

  lemma {:induction false} BodySound(m: Setup, exec: Exec, rule: Rule, s: State, turns: nat)
    requires Inside(m, exec, s) && RegistryWithoutEof(m.registry, m.src.eof) && WithoutEof(rule, m.src.eof)
    ensures OutcomeSound(m, s, LangOf(m, rule), RunBody(m, exec, rule, s, turns))
    decreases turns, 1
  {
    if RunsOneRule(rule.body) {
      OneRuleSound(m, exec, rule, s, turns);
    } else {
      match rule.body
      case Expect(tokens, kind) => ExpectSound(m, rule, tokens, kind, s);
      case ListOf(spec, lk, ek) => ListSound(m, rule, spec, lk, ek, s);
      case Repetition(kind, min, inner) => RepetitionSound(m, exec, rule, kind, min, None, true, inner, s, turns);
      case BoundedRepetition(kind, min, max, inner) => RepetitionSound(m, exec, rule, kind, min, max, false, inner, s, turns);
      case Nest(kind, open, close, inner) => NestSound(m, exec, rule, kind, open, close, inner, s);
      case Reference(target) => ReferenceSound(m, exec, rule, target, s, turns);
      case Choice(rules) => ChoiceSound(m, exec, rule, rules, s);
      case _ => SequenceBodySound(m, exec, rule, s, turns);
    }
  }

  // -------------------------------------------------------------------- the envelope

  /** Popping a rule's own scope with commit keeps its errors on record. */
  lemma PopCommitClean(s: State, n: Nested)
    requires OwnScope(n, s.errors)
    ensures Clean(Pop(s, true).errors) ==> Clean(s.errors)
  {
    var best, errs :| s.errors == n.(entries := n.entries + [Scope(best, errs)]);
    LastOf(n.entries, Scope(best, errs));
    CleanAppend(n, Scope(best, errs));
    assert n.errors + errs + AsList(best) == n.errors + (errs + AsList(best));
    if HasScope(n.entries) {
      CleanAddErrs(n, errs + AsList(best));
    }
  }

  lemma NoteUnclean(m: Setup, rule: Rule, start: State, pre: Lexeme, s: State)
    requires !Clean(s.errors)
    ensures !Clean(NoteUnexpected(m, rule, start, pre, s).errors)
  {
    var t := NoteUnexpected(m, rule, start, pre, s);
    if t != s {
      var found := if s.cursor != start.cursor then Peek(m, s) else pre;
      CleanSetBest(s.errors, Some(SyntaxError(false, found.start, rule.grammarLabel)));
    }
  }

  lemma RecoveredErrors(m: Setup, rule: Rule, start: State, r: Result, s: State)
    ensures Recovered(m, rule, start, r, s).1.errors == s.errors
  {
  }

  /** A failure the engine handles in normal mode: whatever comes out, the mark stays. */
  lemma HandledUnclean(m: Setup, rule: Rule, s: State, r: Result, t: State)
    requires r.Failure? && r.kind.FailureError? && OwnScope(s.errors, t.errors) && !Clean(t.errors)
    ensures !Clean(HandleFailure(m, rule, Normal, s, Peek(m, s), r, t).1.errors)
  {
    PopCommitClean(t, s.errors);
    var noted := NoteUnexpected(m, rule, s, Peek(m, s), t);
    NoteKeepsOwnScope(m, rule, s, Peek(m, s), t, s.errors);
    NoteUnclean(m, rule, s, Peek(m, s), t);
    PopCommitClean(noted, s.errors);
    RecoveredErrors(m, rule, s, r, Pop(noted, true));
  }

  lemma {:induction false} EnvelopeSound(m: Setup, exec: Exec, rule: Rule, mode: Mode, s: State, turns: nat)
    requires Transactional(m, exec) && SoundExec(m, exec) && Ready(m, s)
    requires RegistryWithoutEof(m.registry, m.src.eof) && WithoutEof(rule, m.src.eof)
    ensures var o := RunEnvelope(m, exec, rule, mode, s, turns);
            o.Done? && (o.result.Success? || mode.Normal?) ==> OutcomeSound(m, s, LangOf(m, rule), o)
  {
    var e := Enter(m, rule, mode, s);
    EnterInScope(m, rule, mode, s);
    BodyMoves(m, exec, rule, e, turns);
    BodySound(m, exec, rule, e, turns);
    var o := RunBody(m, exec, rule, e, turns);
    if o.Done? {
      BodyInside(m, rule, mode, s, o.state);
      if o.result.Success? {
        PopCommitClean(o.state, s.errors);
      } else if mode.Normal? && o.result.kind.FailureError? {
        HandledUnclean(m, rule, s, o.result, Truncated(o.state, |s.created|));
      }
    }
  }

  lemma {:induction false} SoundIsKept(m: Setup, exec: Exec, p: (Rule, Mode, State, Outcome) -> bool)
    requires RegistryWithoutEof(m.registry, m.src.eof)
    requires forall rule, mode, s, o ::
               p(rule, mode, s, o) <==> (WithoutEof(rule, m.src.eof) && Ready(m, s) && o.Done? && (o.result.Success? || mode.Normal?) ==>
                                           OutcomeSound(m, s, LangOf(m, rule), o))
    ensures EnvelopeKeeps(m, exec, p)
  {
    if Transactional(m, exec) && AllRuns(exec, p) {
      forall rule, mode, s | WithoutEof(rule, m.src.eof) ensures RunSound(m, exec, rule, mode, s) {
        assert p(rule, mode, s, exec(rule, mode, s));
      }
      forall rule, mode, s, turns ensures p(rule, mode, s, RunEnvelope(m, exec, rule, mode, s, turns)) {
        if Ready(m, s) && WithoutEof(rule, m.src.eof) {
          EnvelopeSound(m, exec, rule, mode, s, turns);
        }
      }
    }
  }

  lemma {:induction false} EngineSoundAt(m: Setup, fuel: nat)
    requires RegistryWithoutEof(m.registry, m.src.eof)
    ensures SoundExec(m, EngineAt(m, fuel))
  {
    var p := (r: Rule, md: Mode, st: State, o: Outcome) =>
      WithoutEof(r, m.src.eof) && Ready(m, st) && o.Done? && (o.result.Success? || md.Normal?) ==> OutcomeSound(m, st, LangOf(m, r), o);
    forall exec {
      SoundIsKept(m, exec, p);
    }
    forall rule, mode, s ensures p(rule, mode, s, OutOfFuel) {
    }
    EngineInduction(m, p, fuel);
    forall rule, mode, s | WithoutEof(rule, m.src.eof) ensures RunSound(m, EngineAt(m, fuel), rule, mode, s) {
      assert p(rule, mode, s, EngineAt(m, fuel)(rule, mode, s));
    }
  }

  /**
   Soundness against the grammar: a rule that succeeds and leaves no error anywhere has
   consumed a word of the grammar it publishes, references resolved through the registry.
   A syntax error in normal mode is always on record afterwards.
   */
  lemma {:induction false} CleanSuccessReadsWord(m: Setup, rule: Rule, mode: Mode, s: State, fuel: nat)
    requires Ready(m, s) && RegistryWithoutEof(m.registry, m.src.eof) && WithoutEof(rule, m.src.eof)
    ensures var o := ExecuteRule(m, rule, mode, s, fuel);
            o.Done? && o.result.Success? && Clean(o.state.errors) ==>
              s.cursor <= o.state.cursor <= |m.src.lexemes| && Taken(m.src, s.cursor, o.state.cursor) in LangOf(m, rule)
    ensures var o := ExecuteRule(m, rule, mode, s, fuel);
            o.Done? && o.result.Failure? && o.result.kind.FailureError? && mode.Normal? ==> !Clean(o.state.errors)
  {
    EngineSoundAt(m, fuel);
    assert RunSound(m, EngineAt(m, fuel), rule, mode, s);
    var o := ExecuteRule(m, rule, mode, s, fuel);
    if o.Done? && o.result.Success? && Clean(o.state.errors) {
      ReadTaken(m.src, s.cursor, o.state.cursor, LangOf(m, rule));
    }
  }
}
