/**
 Predictive rules where a word of their grammar is due. Given that the rules inside them
 succeed at the end of every word due to them and decline where they have none, each combinator
 leads through the whole word and leaves no error.
 */
module DueBodies {
  import opened Languages
  import opened Grammars
  import opened Guards
  import opened Sources
  import opened ErrorScopes
  import opened Rules
  import opened Engine
  import opened EngineTransaction
  import opened EngineIdle
  import opened Determinacy
  import opened Predictability
  import EngineSoundness
  import EngineChoice
  import ListRule
  import ChoiceDispatch

  // ------------------------------------------------------------------------- outcomes

  /** If it is any, the outcome is a success at d, with the errors of s. */
  ghost predicate Through(s: State, d: Position, o: Outcome) {
    o == OutOfFuel || (o.Done? && o.result.Success? && o.state.cursor == d && o.state.errors == s.errors)
  }

  /** If it is any, the outcome is "no match". */
  ghost predicate Refuses(o: Outcome) {
    o == OutOfFuel || (o.Done? && o.result == NoMatch())
  }

  ghost predicate Fails(o: Outcome) {
    o == OutOfFuel || (o.Done? && o.result.Failure?)
  }

  /** A list is asked for where it cannot start. */
  ghost predicate ListBarred(m: Setup, rule: Rule, s: State)
    requires Ready(m, s)
  {
    Listing(m, rule) && !Starts(LangOf(m, rule), Peek(m, s).token)
  }

  ghost predicate RunComplete(m: Setup, k: Classes, rule: Rule, mode: Mode, s: State, o: Outcome)
    requires Ready(m, s)
  {
    && (forall w, d :: Due(m.src, LangOf(m, rule), s.cursor, w, d) ==> Through(s, d, o))
    && (Declining(m, k, rule, Ahead(m, s)) ==> Refuses(o))
    && (mode.Probe? && ListBarred(m, rule, s) ==> Fails(o))
  }

  ghost predicate HasNode(k: Classes, rule: Rule, o: Outcome) {
    Noded(k.noded, rule) && o.Done? && o.result.Success? ==> o.result.node.Some?
  }

  /** What holds of every run; once inside, the entry rule counts as entered. */
  ghost predicate Complete(m: Setup, k: Classes, rule: Rule, mode: Mode, s: State, o: Outcome) {
    HasNode(k, rule, o) && (InEntry(m, Enter(m, rule, mode, s)) && Predictive(m, k, rule) ==> RunComplete(m, k, rule, mode, s, o))
  }

  ghost predicate CompleteExec(m: Setup, k: Classes, exec: Exec) {
    forall rule, mode, s :: Complete(m, k, rule, mode, s, exec(rule, mode, s))
  }

  /** The ground rules bodies run under. */
  ghost predicate Able(m: Setup, k: Classes, exec: Exec, s: State) {
    Transactional(m, exec) && CompleteExec(m, k, exec) && Classified(m, k) && InEntry(m, s)
  }

  lemma {:induction false} ChildThrough(m: Setup, k: Classes, exec: Exec, rule: Rule, mode: Mode, s: State, w: Word, d: Position)
    requires Able(m, k, exec, s) && Predictive(m, k, rule) && Due(m.src, LangOf(m, rule), s.cursor, w, d)
    ensures Through(s, d, exec(rule, mode, s)) && (exec(rule, mode, s).Done? ==> Able(m, k, exec, exec(rule, mode, s).state))
  {
    EnterInEntry(m, rule, mode, s);
    assert Complete(m, k, rule, mode, s, exec(rule, mode, s));
    assert RunsOk(m, exec, rule, mode, s);
  }

  /** A refused run leaves everything but ids as it was. */
  lemma {:induction false} ChildRefuses(m: Setup, k: Classes, exec: Exec, rule: Rule, mode: Mode, s: State)
    requires Able(m, k, exec, s) && Predictive(m, k, rule) && Declining(m, k, rule, Ahead(m, s))
    ensures Refuses(exec(rule, mode, s)) && (exec(rule, mode, s).Done? ==> Again(m, k, exec, s, exec(rule, mode, s).state))
  {
    EnterInEntry(m, rule, mode, s);
    assert Complete(m, k, rule, mode, s, exec(rule, mode, s));
    assert RunsOk(m, exec, rule, mode, s);
  }

  /** The same place in the input, with the same errors. */
  ghost predicate Again(m: Setup, k: Classes, exec: Exec, s: State, t: State) {
    Able(m, k, exec, t) && t.cursor == s.cursor && t.errors == s.errors && Peek(m, t) == Peek(m, s) && Ahead(m, t) == Ahead(m, s)
  }

  /** Where the empty word is due, the rule succeeds in place. */
  lemma {:induction false} ChildInPlace(m: Setup, k: Classes, exec: Exec, rule: Rule, mode: Mode, s: State)
    requires Able(m, k, exec, s) && Predictive(m, k, rule) && Nullable(LangOf(m, rule)) && !Starts(LangOf(m, rule), Peek(m, s).token)
    ensures var o := exec(rule, mode, s); o == OutOfFuel || (o.Done? && o.result.Success? && Again(m, k, exec, s, o.state))
  {
    DueNothing(m.src, LangOf(m, rule), s.cursor);
    ChildThrough(m, k, exec, rule, mode, s, [], s.cursor);
  }

  // ----------------------------------------------------------------------- due bodies

  lemma {:induction false} ExpectThrough(m: Setup, rule: Rule, tokens: seq<Token>, kind: Option<Kind>, s: State, w: Word, d: Position)
    requires Ready(m, s) && rule.body == Expect(tokens, kind) && Due(m.src, LangOf(m, rule), s.cursor, w, d)
    ensures Through(s, d, RunExpect(m, tokens, kind, s))
  {
    ExpectWord(m, rule, w);
    assert w[1..] == [] && Reads(m.src, Advance(m.src, s.cursor), w[1..], d);
  }

  lemma {:induction false} ListThrough(m: Setup, rule: Rule, spec: ListRule.ListSpec, lk: Kind, ek: Kind, s: State, w: Word, d: Position)
    requires Ready(m, s) && rule.body == ListOf(spec, lk, ek) && ListRule.Distinct(spec) && ListRule.NoEof(spec, m.src.eof)
    requires Due(m.src, LangOf(m, rule), s.cursor, w, d)
    ensures Through(s, d, RunListOf(m, rule, spec, lk, ek, s))
  {
    ListRule.GrammarWords(GrammarMap(m.registry), rule.grammarLabel, spec, w);
    ListRule.ListRuns(m.src, s.cursor, spec, w, d);
    var run := ListRule.RunList(m.src, s.cursor, spec);
    EngineSoundness.NewNodesKeep(s.(cursor := run.at), 1 + |run.elements|);
  }

  lemma {:induction false} SequenceThrough(m: Setup, k: Classes, exec: Exec, owner: Rule, kind: Option<Kind>, rules: seq<Rule>, marker: nat,
                                           children: seq<Tree>, s: State, w: Word, d: Position)
    requires Able(m, k, exec, s) && InRow(m, k, rules) && Due(m.src, SeqLangOf(m, rules), s.cursor, w, d)
    ensures Through(s, d, RunSequence(m, exec, owner, kind, rules, marker, children, s))
    decreases |rules|
  {
    if rules == [] {
      assert w == [];
    } else {
      var u, e, x := DueSplits(m.src, LangOf(m, rules[0]), SeqLangOf(m, rules[1..]), s.cursor, w, d);
      ChildThrough(m, k, exec, rules[0], Normal, s, u, e);
      var c := exec(rules[0], Normal, s);
      if c.Done? {
        SequenceThrough(m, k, exec, owner, kind, rules[1..], marker, Attached(children, c.result), c.state, x, d);
      }
    }
  }

  lemma {:induction false} RootThrough(m: Setup, k: Classes, exec: Exec, owner: Rule, kind: Kind, id: nat, rules: seq<Rule>, committed: bool,
                                       children: seq<Tree>, s: State, w: Word, d: Position)
    requires Able(m, k, exec, s) && InRow(m, k, rules) && Due(m.src, SeqLangOf(m, rules), s.cursor, w, d)
    ensures Through(s, d, RunRoot(m, exec, owner, kind, id, rules, committed, children, s))
    decreases |rules|
  {
    if rules == [] {
      assert w == [];
    } else {
      var u, e, x := DueSplits(m.src, LangOf(m, rules[0]), SeqLangOf(m, rules[1..]), s.cursor, w, d);
      ChildThrough(m, k, exec, rules[0], Normal, s, u, e);
      var c := exec(rules[0], Normal, s);
      if c.Done? {
        RootThrough(m, k, exec, owner, kind, id, rules[1..], true, Attached(children, c.result), c.state, x, d);
      }
    }
  }

  /** A single rule stands in a row of its own. */
  lemma {:induction false} RowOfOne(m: Setup, k: Classes, inner: Rule)
    requires Predictive(m, k, inner)
    ensures InRow(m, k, [inner]) && SeqLangOf(m, [inner]) == LangOf(m, inner)
  {
    assert [inner][1..] == [];
    OneAsSequence(m, k.calm, inner);
    assert SeqLangOf(m, []) == Epsilon;
    forall t ensures !Starts(Epsilon, t) {
      assert Deriv(t, Epsilon) == Empty;
    }
  }

  lemma {:induction false} WrapThrough(m: Setup, k: Classes, exec: Exec, rule: Rule, kind: Kind, inner: Rule, s: State, w: Word, d: Position)
    requires Able(m, k, exec, s) && rule.body == Wrap(kind, inner) && Predictive(m, k, rule) && Due(m.src, LangOf(m, rule), s.cursor, w, d)
    ensures Through(s, d, RunSequence(m, exec, rule, Some(kind), [inner], Marker(m, s), [], s))
  {
    RowOfOne(m, k, inner);
    assert GrammarsOf([inner]) == [GrammarOf(inner)];
    SequenceLang(m, rule, [inner]);
    SequenceThrough(m, k, exec, rule, Some(kind), [inner], Marker(m, s), [], s, w, d);
  }

  lemma {:induction false} SequenceBodyThrough(m: Setup, k: Classes, exec: Exec, rule: Rule, kind: Option<Kind>, rules: seq<Rule>, s: State, w: Word, d: Position)
    requires Able(m, k, exec, s) && rule.body == Sequence(kind, rules) && InRow(m, k, rules) && Due(m.src, LangOf(m, rule), s.cursor, w, d)
    ensures Through(s, d, RunSequence(m, exec, rule, kind, rules, Marker(m, s), [], s))
  {
    SequenceLang(m, rule, rules);
    SequenceThrough(m, k, exec, rule, kind, rules, Marker(m, s), [], s, w, d);
  }

  lemma {:induction false} RootBodyThrough(m: Setup, k: Classes, exec: Exec, rule: Rule, kind: Kind, rules: seq<Rule>, s: State, w: Word, d: Position)
    requires Able(m, k, exec, s) && rule.body == Root(kind, rules) && InRow(m, k, rules) && Due(m.src, LangOf(m, rule), s.cursor, w, d)
    ensures Through(s, d, RunRoot(m, exec, rule, kind, s.nextID + 1, rules, false, [], NewNode(s)))
  {
    SequenceLang(m, rule, rules);
    RootThrough(m, k, exec, rule, kind, s.nextID + 1, rules, false, [], NewNode(s), w, d);
  }

  /** Either the word is one of the inner rule's, or it is empty and the inner rule has no word here. */
  lemma {:induction false} OptionDue(m: Setup, rule: Rule, inner: Rule, c: Position, w: Word, d: Position)
    requires GrammarOf(rule) == GOptional(InfoOf(rule), GrammarOf(inner)) && Due(m.src, LangOf(m, rule), c, w, d)
    ensures w in LangOf(m, inner) ==> Due(m.src, LangOf(m, inner), c, w, d)
    ensures w !in LangOf(m, inner) ==> w == [] && c == d
    ensures w == [] ==> !Starts(LangOf(m, inner), PeekAt(m.src, c, 0).token)
  {
    OptionLang(m, rule, inner);
    if w in LangOf(m, inner) {
      DueLess(m.src, LangOf(m, inner), LangOf(m, rule), c, w, d);
    }
    if w == [] {
      DueNothing(m.src, LangOf(m, rule), c);
      if Starts(LangOf(m, inner), PeekAt(m.src, c, 0).token) {
        StartsMore(LangOf(m, inner), LangOf(m, rule), PeekAt(m.src, c, 0).token);
      }
    }
  }

  lemma {:induction false} OptionalThrough(m: Setup, k: Classes, exec: Exec, rule: Rule, inner: Rule, s: State, w: Word, d: Position)
    requires Able(m, k, exec, s) && rule.body == Optional(inner) && Predictive(m, k, rule) && Due(m.src, LangOf(m, rule), s.cursor, w, d)
    ensures Through(s, d, RunOptional(exec, inner, s))
  {
    OptionDue(m, rule, inner, s.cursor, w, d);
    if w in LangOf(m, inner) {
      ChildThrough(m, k, exec, inner, Probe, s, w, d);
    } else {
      EnterInEntry(m, inner, Probe, s);
      assert Complete(m, k, inner, Probe, s, exec(inner, Probe, s));
      assert RunsOk(m, exec, inner, Probe, s);
      assert Declining(m, k, inner, Ahead(m, s)) || ListBarred(m, inner, s);
    }
  }

  lemma {:induction false} WhenThrough(m: Setup, k: Classes, exec: Exec, rule: Rule, start: Guard, inner: Rule, s: State, turns: nat, w: Word, d: Position)
    requires Able(m, k, exec, s) && rule.body == OptionalWhen(start, inner) && Predictive(m, k, rule) && Due(m.src, LangOf(m, rule), s.cursor, w, d)
    ensures Through(s, d, RunBody(m, exec, rule, s, turns))
  {
    OptionDue(m, rule, inner, s.cursor, w, d);
    ReadsBegins(m.src, s.cursor, w, d);
    if w in LangOf(m, inner) {
      ChildThrough(m, k, exec, inner, Normal, s, w, d);
    }
    if w != [] {
      assert w in LangOf(m, inner) - Epsilon && Matches(Ahead(m, s), start);
    }
  }

  /** A guard in front, a demand, or nothing at all around the inner rule. */
  lemma {:induction false} AsInnerThrough(m: Setup, k: Classes, exec: Exec, rule: Rule, s: State, turns: nat, w: Word, d: Position)
    requires Able(m, k, exec, s) && Predictive(m, k, rule) && Due(m.src, LangOf(m, rule), s.cursor, w, d)
    requires rule.body.Predict? || rule.body.Required? || rule.body.RecoverSync?
    ensures Through(s, d, RunBody(m, exec, rule, s, turns))
  {
    ReadsBegins(m.src, s.cursor, w, d);
    assert LangOf(m, rule) == LangOf(m, rule.body.inner);
    ChildThrough(m, k, exec, rule.body.inner, Normal, s, w, d);
  }

  lemma {:induction false} SuffixThrough(m: Setup, k: Classes, exec: Exec, rule: Rule, kind: Kind, inner: Rule, suffix: Token, s: State, w: Word, d: Position)
    requires Able(m, k, exec, s) && rule.body == OptionalSuffix(kind, inner, suffix) && Predictive(m, k, rule)
    requires Due(m.src, LangOf(m, rule), s.cursor, w, d)
    ensures Through(s, d, RunSuffix(m, exec, kind, inner, suffix, s))
  {
    var tail := Epsilon + Single(suffix);
    SuffixLang(m, rule);
    SuffixSeparated(LangOf(m, inner), suffix);
    var u, e, x := DueSplits(m.src, LangOf(m, inner), tail, s.cursor, w, d);
    ChildThrough(m, k, exec, inner, Normal, s, u, e);
    SuffixDue(m.src, suffix, e, x, d);
  }

  lemma SuffixSeparated(l: Language, suffix: Token)
    requires !Extends(l, suffix)
    ensures Separated(l, Epsilon + Single(suffix)) && Separated(l, Single(suffix))
  {
    forall t | Starts(Epsilon + Single(suffix), t) ensures !Extends(l, t) {
      StartsOption(suffix, t);
    }
    forall t | Starts(Single(suffix), t) ensures !Extends(l, t) {
      StartsOnly(suffix, t);
    }
  }

  /** A due optional token is there if and only if it is next. */
  lemma SuffixDue(src: Source, suffix: Token, c: Position, x: Word, d: Position)
    requires Due(src, Epsilon + Single(suffix), c, x, d)
    ensures d == if PeekAt(src, c, 0).token == suffix then Advance(src, c) else c
  {
    if x == [] {
      DueNothing(src, Epsilon + Single(suffix), c);
      StartsSingle(suffix);
      StartsMore(Single(suffix), Epsilon + Single(suffix), suffix);
    } else {
      assert x == [suffix] && x[1..] == [] && Reads(src, Advance(src, c), x[1..], d);
    }
  }

  lemma {:induction false} PrefixedThrough(m: Setup, k: Classes, exec: Exec, rule: Rule, prefix: Token, inner: Rule, s: State, turns: nat, w: Word, d: Position)
    requires Able(m, k, exec, s) && rule.body == Prefixed(prefix, inner) && Predictive(m, k, rule)
    requires Due(m.src, LangOf(m, rule), s.cursor, w, d)
    ensures Through(s, d, RunBody(m, exec, rule, s, turns))
  {
    PrefixedLang(m, rule);
    SingleSeparated(prefix, LangOf(m, inner));
    var u, e, x := DueSplits(m.src, Single(prefix), LangOf(m, inner), s.cursor, w, d);
    DueSingle(m.src, prefix, s.cursor, u, e);
    ChildThrough(m, k, exec, inner, Normal, Take(m, s), x, d);
  }

  /** A region in which nothing was committed closes without a trace. */
  lemma RegionUntouched(s: State, n: Nested, start: nat)
    requires s.errors == PushRegion(n, start)
    ensures PopRegionOf(s) == s.(errors := n)
  {
    LastOf(n.entries, Region(start, []));
    AddNone(n.entries);
  }

  lemma {:induction false} NestThrough(m: Setup, k: Classes, exec: Exec, rule: Rule, kind: Option<Kind>, open: Token, close: Token, inner: Rule,
                                       s: State, w: Word, d: Position)
    requires Able(m, k, exec, s) && rule.body == Nest(kind, open, close, inner) && Predictive(m, k, rule)
    requires Due(m.src, LangOf(m, rule), s.cursor, w, d)
    ensures Through(s, d, RunNest(m, exec, rule, kind, open, close, inner, s))
  {
    var l := LangOf(m, inner);
    EngineSoundness.NestLang(m, rule, open, close, inner);
    SuffixSeparated(l, close);
    var y, f := DueNest(m.src, open, l, close, s.cursor, w, d);
    var inside := Opened(m, s);
    ChildThrough(m, k, exec, inner, Normal, inside, y, f);
    var c := exec(inner, Normal, inside);
    if c.Done? {
      NestClosesClean(m, rule, kind, close, c.result, c.state, s.errors, Peek(m, s).start);
    }
  }

  lemma NestClosesClean(m: Setup, owner: Rule, kind: Option<Kind>, close: Token, r: Result, t: State, n: Nested, start: nat)
    requires r.Success? && Ready(m, t) && Peek(m, t).token == close && t.errors == PushRegion(n, start)
    ensures var o := CloseNest(m, owner, kind, close, r, t);
            o.Done? && o.result.Success? && o.state.cursor == Advance(m.src, t.cursor) && o.state.errors == n
  {
    RegionUntouched(if kind.None? then Take(m, t) else NewNode(Take(m, t)), n, start);
  }

  // ---------------------------------------------------------------------- repetitions

  ghost predicate LoopThrough(s: State, count: nat, d: Position, o: LoopOutcome) {
    o.LoopOutOfFuel? || (o.LoopDone? && o.count == count && o.state.cursor == d && o.state.errors == s.errors)
  }

  /** n rounds are due, and behind them the bound is reached or no round starts. */
  ghost predicate RoundsDue(m: Setup, inner: Rule, max: Option<nat>, count: nat, n: nat, c: Position, w: Word, d: Position) {
    && Due(m.src, Power(LangOf(m, inner), n), c, w, d)
    && (max.Some? ==> count + n <= max.value)
    && (max == Some(count + n) || !Starts(LangOf(m, inner), PeekAt(m.src, d, 0).token))
  }

  /** Where a loop stands: rounds done, rounds due, state. */
  type Standing = (nat, nat, State) -> bool

  /** From such a standing a loop goes one round on and stands well again, or ends at d. */
  ghost predicate GoesRound(exec: Exec, inner: Rule, max: Option<nat>, q: Standing, count: nat, n: nat, s: State, d: Position) {
    var o := exec(inner, Normal, s);
    if n > 0 then
      (max.Some? ==> count < max.value) &&
      (o == OutOfFuel || (o.Done? && o.result.Success? && o.state.errors == s.errors && q(count + 1, n - 1, o.state)))
    else
      && s.cursor == d && (max.Some? ==> count <= max.value)
      && (max == Some(count) || o == OutOfFuel || (o.Done? && o.result == NoMatch() && o.state.cursor == d && o.state.errors == s.errors))
  }

  lemma {:induction false} LoopGoes(m: Setup, exec: Exec, inner: Rule, max: Option<nat>, retries: bool, count: nat, children: seq<Tree>,
                                    s: State, turns: nat, n: nat, d: Position, q: Standing)
    requires q(count, n, s) && forall c, i, t :: q(c, i, t) ==> GoesRound(exec, inner, max, q, c, i, t, d)
    ensures LoopThrough(s, count + n, d, RunLoop(m, exec, inner, max, retries, count, children, s, turns))
    decreases turns
  {
    assert GoesRound(exec, inner, max, q, count, n, s, d);
    var c := exec(inner, Normal, s);
    if n > 0 && turns > 0 && c.Done? {
      LoopGoes(m, exec, inner, max, retries, count + 1, Attached(children, c.result), c.state, turns - 1, n - 1, d, q);
    }
  }

  /** With n rounds due, the loop stands well. */
  ghost predicate StandsBefore(m: Setup, k: Classes, exec: Exec, inner: Rule, max: Option<nat>, count: nat, n: nat, s: State, d: Position) {
    Able(m, k, exec, s) && exists w :: RoundsDue(m, inner, max, count, n, s.cursor, w, d)
  }

  lemma {:induction false} RoundGoes(m: Setup, k: Classes, exec: Exec, inner: Rule, max: Option<nat>, count: nat, n: nat, s: State, d: Position, q: Standing)
    requires Predictive(m, k, inner) && Repeats(m, k, inner) && StandsBefore(m, k, exec, inner, max, count, n, s, d)
    requires forall c, i, t :: q(c, i, t) <==> StandsBefore(m, k, exec, inner, max, c, i, t, d)
    ensures GoesRound(exec, inner, max, q, count, n, s, d)
  {
    var w :| RoundsDue(m, inner, max, count, n, s.cursor, w, d);
    if n > 0 {
      var u, e, x := DueFirstRound(m.src, LangOf(m, inner), n, s.cursor, w, d);
      ChildThrough(m, k, exec, inner, Normal, s, u, e);
      var c := exec(inner, Normal, s);
      if c.Done? {
        assert RoundsDue(m, inner, max, count + 1, n - 1, c.state.cursor, x, d);
        assert q(count + 1, n - 1, c.state);
      }
    } else {
      assert w == [] && d == s.cursor;
      if max != Some(count) {
        ChildRefuses(m, k, exec, inner, Normal, s);
      }
    }
  }

  lemma {:induction false} LoopsThrough(m: Setup, k: Classes, exec: Exec, inner: Rule, max: Option<nat>, retries: bool, s: State, turns: nat,
                                        n: nat, w: Word, d: Position)
    requires Predictive(m, k, inner) && Repeats(m, k, inner) && Able(m, k, exec, s) && RoundsDue(m, inner, max, 0, n, s.cursor, w, d)
    ensures LoopThrough(s, n, d, RunLoop(m, exec, inner, max, retries, 0, [], s, turns))
  {
    var q: Standing := (c: nat, i: nat, t: State) => StandsBefore(m, k, exec, inner, max, c, i, t, d);
    forall c, i, t | q(c, i, t) ensures GoesRound(exec, inner, max, q, c, i, t, d) {
      RoundGoes(m, k, exec, inner, max, c, i, t, d, q);
    }
    LoopGoes(m, exec, inner, max, retries, 0, [], s, turns, n, d, q);
  }

  lemma {:induction false} RepetitionThrough(m: Setup, k: Classes, exec: Exec, rule: Rule, kind: Option<Kind>, min: nat, max: Option<nat>, retries: bool,
                                             inner: Rule, s: State, turns: nat, w: Word, d: Position)
    requires Able(m, k, exec, s) && Predictive(m, k, rule) && Due(m.src, LangOf(m, rule), s.cursor, w, d)
    requires rule.body == if retries then Repetition(kind, min, inner) else BoundedRepetition(kind, min, max, inner)
    requires retries ==> max.None?
    ensures Through(s, d, RunRepetition(m, exec, kind, min, max, retries, inner, s, turns))
  {
    RepeatLanguage(m, rule);
    var n := DueRounds(m.src, LangOf(m, inner), min, max, s.cursor, w, d);
    var e := if kind.Some? then NewNode(s) else s;
    LoopsThrough(m, k, exec, inner, max, retries, e, turns, n, w, d);
  }

  // -------------------------------------------------------------------------- choices

  /** The arm at i is tried and due, and those before it that are tried decline. */
  ghost predicate ArmDue(m: Setup, k: Classes, rules: seq<Rule>, from: nat, tried: set<nat>, i: nat, s: State, w: Word, d: Position)
    requires Ready(m, s)
  {
    && from <= i < |rules| && i in tried && Due(m.src, LangOf(m, rules[i]), s.cursor, w, d)
    && forall j :: from <= j < i && j in tried ==> Declining(m, k, rules[j], Ahead(m, s))
  }

  lemma {:induction false} EachPredictive(m: Setup, k: Classes, rules: seq<Rule>, i: nat)
    requires AllPredictive(m, k, rules) && i < |rules|
    ensures Predictive(m, k, rules[i])
    decreases i
  {
    if i > 0 {
      EachPredictive(m, k, rules[1..], i - 1);
    }
  }

  /** An arm that is tried before the due one declines, and the due one is still due. */
  lemma {:induction false} ArmPassed(m: Setup, k: Classes, exec: Exec, rules: seq<Rule>, from: nat, tried: set<nat>, i: nat, s: State, w: Word, d: Position)
    requires Able(m, k, exec, s) && ArmDue(m, k, rules, from, tried, i, s, w, d) && from < i && from in tried && Predictive(m, k, rules[from])
    ensures var c := exec(rules[from], Normal, s);
            Refuses(c) && (c.Done? ==> Able(m, k, exec, c.state) && c.state.errors == s.errors && ArmDue(m, k, rules, from + 1, tried, i, c.state, w, d))
  {
    ChildRefuses(m, k, exec, rules[from], Normal, s);
  }

  lemma {:induction false} ArmsThrough(m: Setup, k: Classes, exec: Exec, rules: seq<Rule>, from: nat, tried: set<nat>, i: nat, s: State, w: Word, d: Position)
    requires Able(m, k, exec, s) && AllPredictive(m, k, rules) && ArmDue(m, k, rules, from, tried, i, s, w, d)
    ensures Through(s, d, RunArms(exec, EngineChoice.Listed(rules, from, tried), s))
    decreases |rules| - from
  {
    if from !in tried {
      ArmsThrough(m, k, exec, rules, from + 1, tried, i, s, w, d);
      assert EngineChoice.Listed(rules, from, tried) == EngineChoice.Listed(rules, from + 1, tried);
    } else {
      EngineChoice.ListedHere(rules, from, tried);
      EachPredictive(m, k, rules, from);
      if from == i {
        ChildThrough(m, k, exec, rules[i], Normal, s, w, d);
      } else {
        ArmPassed(m, k, exec, rules, from, tried, i, s, w, d);
        var c := exec(rules[from], Normal, s);
        if c.Done? {
          ArmsThrough(m, k, exec, rules, from + 1, tried, i, c.state, w, d);
        }
      }
    }
  }

  function Below(n: nat): (r: set<nat>)
    ensures forall i :: i in r <==> 0 <= i < n
  {
    if n == 0 then {} else Below(n - 1) + {n - 1}
  }

  lemma {:induction false} ListedAll(rules: seq<Rule>, from: nat)
    requires from <= |rules|
    ensures EngineChoice.Listed(rules, from, Below(|rules|)) == rules[from..]
    decreases |rules| - from
  {
    if from < |rules| {
      ListedAll(rules, from + 1);
    }
  }

  /** The arms a choice runs, with or without an analysis. */
  function TriedSet(m: Setup, rules: seq<Rule>, s: State): set<nat> {
    if m.analysis.None? then Below(|rules|) else EngineChoice.ViableSet(m.analysis.value, Arms(rules), Ahead(m, s))
  }

  lemma {:induction false} ChoiceRunsTried(m: Setup, exec: Exec, rules: seq<Rule>, s: State)
    ensures RunChoice(m, exec, rules, s) == RunArms(exec, EngineChoice.Listed(rules, 0, TriedSet(m, rules, s)), s)
    ensures forall i: nat :: i < |rules| ==> (i in TriedSet(m, rules, s) <==> Tried(m, rules, i, Ahead(m, s)))
  {
    if m.analysis.None? {
      ListedAll(rules, 0);
    } else {
      EngineChoice.ChoiceTriesCandidates(m, exec, rules, s);
      ChoiceDispatch.CandidatesAreViable(m.analysis.value, Arms(rules), Ahead(m, s), 0);
      forall i: nat | i < |rules| ensures i in TriedSet(m, rules, s) <==> Tried(m, rules, i, Ahead(m, s)) {
        ChoiceDispatch.CandidatesExact(m.analysis.value, Arms(rules), Ahead(m, s), i);
      }
    }
  }

  /** Where a word of arm i is due in the choice, the arms before it stand aside. */
  lemma {:induction false} ArmIsDue(m: Setup, k: Classes, rule: Rule, rules: seq<Rule>, i: nat, s: State, w: Word, d: Position)
    requires InEntry(m, s) && rule.body == Choice(rules) && Decided(m, k, rules) && Due(m.src, LangOf(m, rule), s.cursor, w, d)
    requires i < |rules| && w in LangOf(m, rules[i]) && forall j :: 0 <= j < |rules| ==> LangOf(m, rules[j]) <= LangOf(m, rule)
    requires forall j: nat :: j < |rules| ==> (j in TriedSet(m, rules, s) <==> Tried(m, rules, j, Ahead(m, s)))
    ensures ArmDue(m, k, rules, 0, TriedSet(m, rules, s), i, s, w, d)
  {
    ReadsBegins(m.src, s.cursor, w, d);
    DueLess(m.src, LangOf(m, rules[i]), LangOf(m, rule), s.cursor, w, d);
    assert Kept(m, rules, i);
    forall j: nat | j < i && j in TriedSet(m, rules, s) ensures Declining(m, k, rules[j], Ahead(m, s)) {
      assert Yields(m, k, rules, j, i);
      if w == [] {
        DueNothing(m.src, LangOf(m, rule), s.cursor);
        if Starts(LangOf(m, rules[j]), Peek(m, s).token) {
          StartsMore(LangOf(m, rules[j]), LangOf(m, rule), Peek(m, s).token);
        }
      }
    }
  }

  lemma {:induction false} ChoiceThrough(m: Setup, k: Classes, exec: Exec, rule: Rule, rules: seq<Rule>, s: State, w: Word, d: Position)
    requires Able(m, k, exec, s) && rule.body == Choice(rules) && Predictive(m, k, rule) && Due(m.src, LangOf(m, rule), s.cursor, w, d)
    ensures Through(s, d, RunChoice(m, exec, rules, s))
  {
    ChoiceRunsTried(m, exec, rules, s);
    var i := ArmWord(m, rule, w);
    EngineSoundness.ArmLangs(m, rule, rules);
    ArmIsDue(m, k, rule, rules, i, s, w, d);
    ArmsThrough(m, k, exec, rules, 0, TriedSet(m, rules, s), i, s, w, d);
  }
}
