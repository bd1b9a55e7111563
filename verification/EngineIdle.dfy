/**
 Rules at a token they cannot start with. When no word of a rule's published grammar starts
 with the token ahead, the rule answers "no match" or, if its grammar derives the empty word,
 may succeed on the spot; either way it leaves nothing behind but id numbers and the nodes of
 an empty match. This holds of rules that demand nothing before their first token: a list or
 a required rule in front reports an error instead.
 */
module EngineIdle {
  import opened Languages
  import opened Grammars
  import opened Semantics
  import opened Guards
  import opened ErrorScopes
  import opened Rules
  import opened Engine
  import opened EngineTransaction
  import EngineSoundness
  import ChoiceDispatch

  // ----------------------------------------------------------- languages and first tokens

  ghost function LangOf(m: Setup, rule: Rule): Language {
    EngineSoundness.LangOf(m, rule)
  }

  ghost function SeqLangOf(m: Setup, rules: seq<Rule>): Language {
    EngineSoundness.SeqLangOf(m, rules)
  }

  /** Some word of l starts with t. */
  ghost predicate Starts(l: Language, t: Token) {
    Deriv(t, l) != Empty
  }

  ghost predicate Nullable(l: Language) {
    [] in l
  }

  lemma StartsIn(l: Language, t: Token, w: Word)
    requires [t] + w in l
    ensures Starts(l, t)
  {
    assert w in Deriv(t, l);
  }

  lemma StartsMore(a: Language, b: Language, t: Token)
    requires a <= b && Starts(a, t)
    ensures Starts(b, t)
  {
    var w :| w in Deriv(t, a);
    StartsIn(b, t, w);
  }

  lemma StartsCat(a: Language, b: Language, t: Token)
    requires b != Empty
    ensures Starts(a, t) ==> Starts(Cat(a, b), t)
    ensures Nullable(a) && Starts(b, t) ==> Starts(Cat(a, b), t)
  {
    DerivCat(t, a, b);
    CatInhabited(Deriv(t, a), b);
  }

  lemma StartsSingle(t: Token)
    ensures Starts(Single(t), t)
  {
    assert [t] + [] == [t];
    StartsIn(Single(t), t, []);
  }

  lemma {:induction false} PowerInhabited(a: Language, n: nat)
    requires a != Empty
    ensures Power(a, n) != Empty
  {
    if n == 0 {
      assert [] in Epsilon;
    } else {
      PowerInhabited(a, n - 1);
      CatInhabited(a, Power(a, n - 1));
    }
  }

  lemma {:induction false} PowerNullable(a: Language, n: nat)
    requires n == 0 || Nullable(a)
    ensures Nullable(Power(a, n))
  {
    if n > 0 {
      PowerNullable(a, n - 1);
      CatIntro(a, Power(a, n - 1), [], []);
    }
  }

  /** Bounds that allow at least one round. */
  predicate AllowsOne(min: nat, max: Option<nat>) {
    max.Some? ==> 0 < max.value && min <= max.value
  }

  function Upper(max: Option<nat>): int {
    if max.Some? then max.value else -1
  }

  lemma {:induction false} RoundsIn(a: Language, n: nat, min: nat, max: Option<nat>)
    requires min <= n && (max.Some? ==> n <= max.value)
    ensures Power(a, n) <= Iterate(a, min, Upper(max))
  {
    forall w | w in Power(a, n) ensures w in Iterate(a, min, Upper(max)) {
      assert Rounds(a, n, w);
    }
  }

  lemma StartsIterate(a: Language, min: nat, max: Option<nat>, t: Token)
    requires Starts(a, t) && AllowsOne(min, max)
    ensures Starts(Iterate(a, min, Upper(max)), t)
  {
    var n := if min == 0 then 1 else min;
    var w :| w in Deriv(t, a);
    PowerInhabited(a, n - 1);
    StartsCat(a, Power(a, n - 1), t);
    RoundsIn(a, n, min, max);
    StartsMore(Power(a, n), Iterate(a, min, Upper(max)), t);
  }

  // ------------------------------------------------------------------- tentative rules

  /**
   The rule demands nothing before its first token: no list and no required rule where it can
   begin, no root that can go past an empty first part, and nothing behind that derives no word.
   */
  ghost predicate Tentative(m: Setup, calm: set<Label>, rule: Rule)
    decreases rule, 1
  {
    match rule.body
    case Expect(_, _) => true
    case ListOf(_, _, _) => false
    case Required(_) => false
    case Reference(target) => target in calm
    case Nest(_, _, _, inner) => LangOf(m, inner) != Empty
    case Prefixed(_, inner) => LangOf(m, inner) != Empty
    case Sequence(_, rules) => TentativeInOrder(m, calm, rules)
    case Root(_, rules) => TentativeInOrder(m, calm, rules) && (|rules| > 1 ==> !Nullable(LangOf(m, rules[0])))
    case Choice(rules) => TentativeAll(m, calm, rules)
    case Repetition(_, _, inner) => Tentative(m, calm, inner) && LangOf(m, inner) != Empty
    case BoundedRepetition(_, min, max, inner) =>
      Tentative(m, calm, inner) && LangOf(m, inner) != Empty && (max == Some(0) || AllowsOne(min, max))
    case Wrap(_, inner) => Tentative(m, calm, inner)
    case Optional(inner) => Tentative(m, calm, inner)
    case OptionalWhen(_, inner) => Tentative(m, calm, inner)
    case Predict(_, inner) => Tentative(m, calm, inner)
    case OptionalSuffix(_, inner, _) => Tentative(m, calm, inner)
    case RecoverSync(inner) => Tentative(m, calm, inner)
  }

  ghost predicate TentativeInOrder(m: Setup, calm: set<Label>, rules: seq<Rule>)
    decreases rules, 0
  {
    rules == [] ||
    (Tentative(m, calm, rules[0]) && SeqLangOf(m, rules[1..]) != Empty && (Nullable(LangOf(m, rules[0])) ==> TentativeInOrder(m, calm, rules[1..])))
  }

  ghost predicate TentativeAll(m: Setup, calm: set<Label>, rules: seq<Rule>)
    decreases rules, 0
  {
    rules == [] || (Tentative(m, calm, rules[0]) && TentativeAll(m, calm, rules[1..]))
  }

  /** The calm productions are tentative, given that references go to calm ones. */
  ghost predicate CalmOnly(m: Setup, calm: set<Label>) {
    forall l :: l in calm && l in m.registry ==> Tentative(m, calm, m.registry[l])
  }

  // -------------------------------------------------------------------- idle outcomes

  /** Only ids have been handed out. */
  ghost predicate InPlace(s: State, t: State) {
    t == s.(nextID := t.nextID, created := t.created) && s.created <= t.created && s.nextID <= t.nextID
  }

  /** A body's outcome on the spot. */
  ghost predicate IdleBody(s: State, nullable: bool, o: Outcome) {
    o.Done? ==> InPlace(s, o.state) && (if o.result.Success? then nullable else o.result == NoMatch())
  }

  /** A rule's outcome on the spot; after "no match" the ledger is as before. */
  ghost predicate Idle(s: State, nullable: bool, o: Outcome) {
    IdleBody(s, nullable, o) && (o.Done? && o.result.Failure? ==> o.state.created == s.created)
  }

  ghost predicate InEntry(m: Setup, s: State) {
    Ready(m, s) && s.entryDepth > 0
  }

  /** Inside the entry rule, a tentative rule that cannot start with the token ahead is idle, in either mode. */
  ghost predicate RunsIdle(m: Setup, calm: set<Label>, exec: Exec, rule: Rule, mode: Mode, s: State) {
    InEntry(m, s) && Tentative(m, calm, rule) && !Starts(LangOf(m, rule), Peek(m, s).token) ==>
      Idle(s, Nullable(LangOf(m, rule)), exec(rule, mode, s))
  }

  ghost predicate IdleExec(m: Setup, calm: set<Label>, exec: Exec) {
    forall rule, mode, s :: RunsIdle(m, calm, exec, rule, mode, s)
  }

  lemma InPlaceView(m: Setup, s: State, t: State)
    requires InPlace(s, t)
    ensures Peek(m, t) == Peek(m, s) && Marker(m, t) == Marker(m, s) && Ahead(m, t) == Ahead(m, s)
    ensures InEntry(m, s) ==> InEntry(m, t)
  {
  }

  lemma InPlaceTrans(s: State, t: State, u: State)
    requires InPlace(s, t) && InPlace(t, u)
    ensures InPlace(s, u)
  {
  }

  lemma IdleFrom(s: State, t: State, nullable: bool, o: Outcome)
    requires InPlace(s, t) && IdleBody(t, nullable, o)
    ensures IdleBody(s, nullable, o)
  {
    if o.Done? {
      InPlaceTrans(s, t, o.state);
    }
  }

  lemma NewNodeInPlace(s: State)
    ensures InPlace(s, NewNode(s))
  {
  }

  lemma {:induction false} ChildIdle(m: Setup, calm: set<Label>, exec: Exec, rule: Rule, mode: Mode, s: State)
    requires IdleExec(m, calm, exec) && InEntry(m, s) && Tentative(m, calm, rule) && !Starts(LangOf(m, rule), Peek(m, s).token)
    ensures Idle(s, Nullable(LangOf(m, rule)), exec(rule, mode, s))
    ensures var o := exec(rule, mode, s);
            o.Done? ==> InEntry(m, o.state) && Peek(m, o.state) == Peek(m, s) && Marker(m, o.state) == Marker(m, s)
  {
    assert RunsIdle(m, calm, exec, rule, mode, s);
    var o := exec(rule, mode, s);
    if o.Done? {
      InPlaceView(m, s, o.state);
    }
  }

  // ------------------------------------------------------------------------- the bodies

  lemma ExpectIdle(m: Setup, rule: Rule, tokens: seq<Token>, kind: Option<Kind>, s: State)
    requires rule.body == Expect(tokens, kind) && !Starts(LangOf(m, rule), Peek(m, s).token)
    ensures RunExpect(m, tokens, kind, s) == Done(NoMatch(), s)
  {
    var t := Peek(m, s).token;
    if t in tokens {
      var i: nat :| i < |tokens| && tokens[i] == t;
      var rules := GrammarMap(m.registry);
      LangToken(Exact, rules, TokenOf(rule, t));
      if |tokens| != 1 {
        LangChoice(Exact, rules, GrammarOf(rule));
        EngineSoundness.AltHas(rules, GrammarOf(rule).children, i);
      }
      StartsSingle(t);
      StartsMore(Single(t), LangOf(m, rule), t);
    }
  }

  lemma {:induction false} SequenceIdle(m: Setup, calm: set<Label>, exec: Exec, owner: Rule, kind: Option<Kind>, rules: seq<Rule>, children: seq<Tree>, s: State)
    requires IdleExec(m, calm, exec) && InEntry(m, s) && TentativeInOrder(m, calm, rules) && !Starts(SeqLangOf(m, rules), Peek(m, s).token)
    ensures IdleBody(s, Nullable(SeqLangOf(m, rules)), RunSequence(m, exec, owner, kind, rules, Marker(m, s), children, s))
    decreases |rules|
  {
    if rules == [] {
      NewNodeInPlace(s);
    } else {
      var first, rest := LangOf(m, rules[0]), SeqLangOf(m, rules[1..]);
      StartsCat(first, rest, Peek(m, s).token);
      ChildIdle(m, calm, exec, rules[0], Normal, s);
      var c := exec(rules[0], Normal, s);
      if c.Done? && c.result.Success? {
        var more := Attached(children, c.result);
        CatNullable(first, rest);
        SequenceIdle(m, calm, exec, owner, kind, rules[1..], more, c.state);
        IdleFrom(s, c.state, Nullable(rest), RunSequence(m, exec, owner, kind, rules[1..], Marker(m, s), more, c.state));
      }
    }
  }

  lemma {:induction false} RootIdle(m: Setup, calm: set<Label>, exec: Exec, owner: Rule, kind: Kind, id: nat, rules: seq<Rule>, s: State)
    requires IdleExec(m, calm, exec) && InEntry(m, s) && TentativeInOrder(m, calm, rules) && !Starts(SeqLangOf(m, rules), Peek(m, s).token)
    requires |rules| > 1 ==> !Nullable(LangOf(m, rules[0]))
    ensures IdleBody(s, Nullable(SeqLangOf(m, rules)), RunRoot(m, exec, owner, kind, id, rules, false, [], s))
  {
    if rules != [] {
      var first, rest := LangOf(m, rules[0]), SeqLangOf(m, rules[1..]);
      StartsCat(first, rest, Peek(m, s).token);
      ChildIdle(m, calm, exec, rules[0], Normal, s);
      CatNullable(first, rest);
    }
  }

  lemma {:induction false} SequenceLang(m: Setup, rule: Rule, rules: seq<Rule>)
    requires GrammarOf(rule) == GConcat(InfoOf(rule), GrammarsOf(rules))
    ensures LangOf(m, rule) == SeqLangOf(m, rules)
  {
    LangConcat(Exact, GrammarMap(m.registry), GrammarOf(rule));
  }

  lemma {:induction false} SequenceBodyIdle(m: Setup, calm: set<Label>, exec: Exec, rule: Rule, s: State, turns: nat)
    requires IdleExec(m, calm, exec) && InEntry(m, s) && Tentative(m, calm, rule) && !Starts(LangOf(m, rule), Peek(m, s).token)
    requires rule.body.Sequence? || rule.body.Root?
    ensures IdleBody(s, Nullable(LangOf(m, rule)), RunBody(m, exec, rule, s, turns))
  {
    match rule.body
    case Sequence(kind, rules) =>
      SequenceLang(m, rule, rules);
      SequenceIdle(m, calm, exec, rule, kind, rules, [], s);
    case Root(kind, rules) =>
      SequenceLang(m, rule, rules);
      NewNodeInPlace(s);
      InPlaceView(m, s, NewNode(s));
      RootIdle(m, calm, exec, rule, kind, s.nextID + 1, rules, NewNode(s));
      IdleFrom(s, NewNode(s), Nullable(LangOf(m, rule)), RunRoot(m, exec, rule, kind, s.nextID + 1, rules, false, [], NewNode(s)));
  }

  lemma {:induction false} OneAsSequence(m: Setup, calm: set<Label>, inner: Rule)
    ensures SeqLangOf(m, [inner]) == LangOf(m, inner)
    ensures Tentative(m, calm, inner) ==> TentativeInOrder(m, calm, [inner])
  {
    assert GrammarsOf([inner]) == [GrammarOf(inner)];
    EngineSoundness.SeqOne(m, GrammarOf(inner));
    assert [inner][1..] == [];
    assert [] in SeqLangOf(m, []);
  }

  lemma {:induction false} WrapIdle(m: Setup, calm: set<Label>, exec: Exec, rule: Rule, kind: Kind, inner: Rule, s: State)
    requires IdleExec(m, calm, exec) && InEntry(m, s) && Tentative(m, calm, inner) && !Starts(LangOf(m, rule), Peek(m, s).token)
    requires rule.body == Wrap(kind, inner)
    ensures IdleBody(s, Nullable(LangOf(m, rule)), RunSequence(m, exec, rule, Some(kind), [inner], Marker(m, s), [], s))
  {
    assert GrammarsOf([inner]) == [GrammarOf(inner)];
    SequenceLang(m, rule, [inner]);
    OneAsSequence(m, calm, inner);
    SequenceIdle(m, calm, exec, rule, Some(kind), [inner], [], s);
  }

  lemma {:induction false} OptionLang(m: Setup, rule: Rule, inner: Rule)
    requires GrammarOf(rule) == GOptional(InfoOf(rule), GrammarOf(inner))
    ensures LangOf(m, rule) == Epsilon + LangOf(m, inner)
  {
    LangOptional(Exact, GrammarMap(m.registry), GrammarOf(rule));
  }

  lemma {:induction false} OptionIdle(m: Setup, calm: set<Label>, exec: Exec, rule: Rule, inner: Rule, mode: Mode, s: State)
    requires IdleExec(m, calm, exec) && InEntry(m, s) && Tentative(m, calm, inner) && !Starts(LangOf(m, rule), Peek(m, s).token)
    requires GrammarOf(rule) == GOptional(InfoOf(rule), GrammarOf(inner))
    ensures Nullable(LangOf(m, rule)) && IdleBody(s, true, exec(inner, mode, s))
  {
    OptionLang(m, rule, inner);
    if Starts(LangOf(m, inner), Peek(m, s).token) {
      StartsMore(LangOf(m, inner), LangOf(m, rule), Peek(m, s).token);
    }
    ChildIdle(m, calm, exec, inner, mode, s);
  }

  lemma {:induction false} SuffixIdle(m: Setup, calm: set<Label>, exec: Exec, rule: Rule, kind: Kind, inner: Rule, suffix: Token, s: State)
    requires IdleExec(m, calm, exec) && InEntry(m, s) && Tentative(m, calm, inner) && !Starts(LangOf(m, rule), Peek(m, s).token)
    requires rule.body == OptionalSuffix(kind, inner, suffix)
    ensures IdleBody(s, Nullable(LangOf(m, rule)), RunSuffix(m, exec, kind, inner, suffix, s))
  {
    var t := Peek(m, s).token;
    var tail := GOptional(InfoOf(rule), TokenOf(rule, suffix));
    var tl := Lang(Exact, GrammarMap(m.registry), tail);
    EngineSoundness.ConcatTwo(m, GrammarOf(rule), GrammarOf(inner), tail);
    LangOptional(Exact, GrammarMap(m.registry), tail);
    EngineSoundness.TokenLang(m, rule, suffix);
    assert [] in tl;
    StartsCat(LangOf(m, inner), tl, t);
    CatNullable(LangOf(m, inner), tl);
    ChildIdle(m, calm, exec, inner, Normal, s);
    if t == suffix && Nullable(LangOf(m, inner)) {
      StartsSingle(t);
      StartsMore(Single(t), tl, t);
    }
  }

  /** A loop on the spot counts only empty rounds. */
  ghost predicate IdleLoop(s: State, nullable: bool, count: nat, max: Option<nat>, o: LoopOutcome) {
    && !o.LoopFailed?
    && (o.LoopDone? ==> InPlace(s, o.state) && count <= o.count && (o.count > count ==> nullable && (max.Some? ==> count < max.value)))
  }

  lemma {:induction false} LoopIdle(m: Setup, calm: set<Label>, exec: Exec, inner: Rule, max: Option<nat>, retries: bool, count: nat, children: seq<Tree>,
                                    s: State, turns: nat)
    requires IdleExec(m, calm, exec) && InEntry(m, s) && Tentative(m, calm, inner)
    requires max != Some(0) ==> !Starts(LangOf(m, inner), Peek(m, s).token)
    ensures IdleLoop(s, Nullable(LangOf(m, inner)), count, max, RunLoop(m, exec, inner, max, retries, count, children, s, turns))
    decreases turns
  {
    if !(max.Some? && count >= max.value) && turns > 0 {
      ChildIdle(m, calm, exec, inner, Normal, s);
      var c := exec(inner, Normal, s);
      if c.Done? && c.result.Success? {
        var more := Attached(children, c.result);
        LoopIdle(m, calm, exec, inner, max, retries, count + 1, more, c.state, turns - 1);
        var o := RunLoop(m, exec, inner, max, retries, count + 1, more, c.state, turns - 1);
        if o.LoopDone? {
          InPlaceTrans(s, c.state, o.state);
        }
      }
    }
  }

  lemma CloseLoopIdle(m: Setup, kind: Option<Kind>, id: nat, min: nat, max: Option<nat>, l: Language, s: State, o: LoopOutcome)
    requires IdleLoop(s, Nullable(l), 0, max, o) && (max == Some(0) || AllowsOne(min, max))
    ensures IdleBody(s, Nullable(Iterate(l, min, Upper(max))), CloseLoop(kind, id, min, o))
  {
    if o.LoopDone? && o.count >= min {
      PowerNullable(l, min);
      RoundsIn(l, min, min, max);
    }
  }

  lemma {:induction false} RepetitionIdle(m: Setup, calm: set<Label>, exec: Exec, rule: Rule, kind: Option<Kind>, min: nat, max: Option<nat>, retries: bool, inner: Rule,
                       s: State, turns: nat)
    requires IdleExec(m, calm, exec) && InEntry(m, s) && Tentative(m, calm, inner) && LangOf(m, inner) != Empty
    requires GrammarOf(rule) == GRepeat(InfoOf(rule), GrammarOf(inner), min, max) && !Starts(LangOf(m, rule), Peek(m, s).token)
    requires max == Some(0) || AllowsOne(min, max)
    ensures IdleBody(s, Nullable(LangOf(m, rule)), RunRepetition(m, exec, kind, min, max, retries, inner, s, turns))
  {
    var e := if kind.Some? then NewNode(s) else s;
    var l := LangOf(m, inner);
    LangRepeat(Exact, GrammarMap(m.registry), GrammarOf(rule));
    assert LangOf(m, rule) == Iterate(l, min, Upper(max));
    if max != Some(0) && Starts(l, Peek(m, s).token) {
      StartsIterate(l, min, max, Peek(m, s).token);
    }
    NewNodeInPlace(s);
    assert InPlace(s, e);
    InPlaceView(m, s, e);
    LoopIdle(m, calm, exec, inner, max, retries, 0, [], e, turns);
    var o := RunLoop(m, exec, inner, max, retries, 0, [], e, turns);
    CloseLoopIdle(m, kind, s.nextID + 1, min, max, l, e, o);
    IdleFrom(s, e, Nullable(LangOf(m, rule)), CloseLoop(kind, s.nextID + 1, min, o));
  }

  lemma {:induction false} BracketIdle(m: Setup, calm: set<Label>, exec: Exec, rule: Rule, s: State, turns: nat)
    requires Tentative(m, calm, rule) && !Starts(LangOf(m, rule), Peek(m, s).token)
    requires rule.body.Nest? || rule.body.Prefixed?
    ensures RunBody(m, exec, rule, s, turns) == Done(NoMatch(), s)
  {
    var t, l := Peek(m, s).token, LangOf(m, rule.body.inner);
    StartsSingle(t);
    match rule.body
    case Nest(_, open, close, inner) =>
      EngineSoundness.NestLang(m, rule, open, close, inner);
      assert [close] in Single(close);
      CatInhabited(l, Single(close));
      StartsCat(Single(open), Cat(l, Single(close)), t);
    case Prefixed(prefix, inner) =>
      EngineSoundness.TokenLang(m, rule, prefix);
      EngineSoundness.ConcatTwo(m, GrammarOf(rule), TokenOf(rule, prefix), GrammarOf(inner));
      StartsCat(Single(prefix), l, t);
  }

  // ------------------------------------------------------------------------ choices

  /** Every arm is tentative, cannot start with the token, and is nullable only if the choice is. */
  ghost predicate ArmsCannotStart(m: Setup, calm: set<Label>, rules: seq<Rule>, t: Token, nullable: bool) {
    forall r :: r in rules ==> Tentative(m, calm, r) && !Starts(LangOf(m, r), t) && (Nullable(LangOf(m, r)) ==> nullable)
  }

  lemma {:induction false} ArmsIdle(m: Setup, calm: set<Label>, exec: Exec, rules: seq<Rule>, s: State, nullable: bool)
    requires IdleExec(m, calm, exec) && InEntry(m, s) && ArmsCannotStart(m, calm, rules, Peek(m, s).token, nullable)
    ensures Idle(s, nullable, RunArms(exec, rules, s))
    decreases |rules|
  {
    if rules != [] {
      assert rules[0] in rules;
      ChildIdle(m, calm, exec, rules[0], Normal, s);
      var c := exec(rules[0], Normal, s);
      if c.Done? && c.result.Failure? {
        ArmsIdle(m, calm, exec, rules[1..], c.state, nullable);
        IdleFrom(s, c.state, nullable, RunArms(exec, rules[1..], c.state));
      }
    }
  }

  lemma {:induction false} TentativeEach(m: Setup, calm: set<Label>, rules: seq<Rule>)
    requires TentativeAll(m, calm, rules)
    ensures forall r :: r in rules ==> Tentative(m, calm, r)
    decreases |rules|
  {
    if rules != [] {
      TentativeEach(m, calm, rules[1..]);
      assert rules == [rules[0]] + rules[1..];
    }
  }

  lemma {:induction false} ChoiceArms(m: Setup, calm: set<Label>, rule: Rule, rules: seq<Rule>, t: Token)
    requires rule.body == Choice(rules) && Tentative(m, calm, rule) && !Starts(LangOf(m, rule), t)
    ensures ArmsCannotStart(m, calm, rules, t, Nullable(LangOf(m, rule)))
  {
    TentativeEach(m, calm, rules);
    var gs := GrammarMap(m.registry);
    LangChoice(Exact, gs, GrammarOf(rule));
    forall r | r in rules ensures !Starts(LangOf(m, r), t) && (Nullable(LangOf(m, r)) ==> Nullable(LangOf(m, rule))) {
      var i: nat :| i < |rules| && rules[i] == r;
      EngineSoundness.AltHas(gs, GrammarsOf(rules), i);
      if Starts(LangOf(m, r), t) {
        StartsMore(LangOf(m, r), LangOf(m, rule), t);
      }
    }
  }

  lemma {:induction false} SelectedIn(rules: seq<Rule>, indices: seq<nat>)
    ensures forall r :: r in Selected(rules, indices) ==> r in rules
    decreases |indices|
  {
    if indices != [] {
      SelectedIn(rules, indices[1..]);
    }
  }

  lemma {:induction false} ChoiceIdle(m: Setup, calm: set<Label>, exec: Exec, rule: Rule, rules: seq<Rule>, s: State)
    requires IdleExec(m, calm, exec) && InEntry(m, s) && rule.body == Choice(rules) && Tentative(m, calm, rule)
    requires !Starts(LangOf(m, rule), Peek(m, s).token)
    ensures Idle(s, Nullable(LangOf(m, rule)), RunChoice(m, exec, rules, s))
  {
    var nullable := Nullable(LangOf(m, rule));
    ChoiceArms(m, calm, rule, rules, Peek(m, s).token);
    match ChoiceDispatch.DispatchOf(m.analysis, Arms(rules), Ahead(m, s))
    case NoArm =>
    case Candidates(indices) =>
      SelectedIn(rules, indices);
      ArmsIdle(m, calm, exec, Selected(rules, indices), s, nullable);
    case Fallback => ArmsIdle(m, calm, exec, rules, s, nullable);
  }

  // ------------------------------------------------------------------- rules and engine

  predicate RunsOneRule(b: Body) {
    b.Wrap? || b.Optional? || b.OptionalWhen? || b.Predict? || b.OptionalSuffix? || b.RecoverSync?
  }

  lemma {:induction false} OneRuleIdle(m: Setup, calm: set<Label>, exec: Exec, rule: Rule, s: State, turns: nat)
    requires IdleExec(m, calm, exec) && InEntry(m, s) && Tentative(m, calm, rule) && !Starts(LangOf(m, rule), Peek(m, s).token)
    requires RunsOneRule(rule.body)
    ensures IdleBody(s, Nullable(LangOf(m, rule)), RunBody(m, exec, rule, s, turns))
  {
    match rule.body
    case Wrap(kind, inner) => WrapIdle(m, calm, exec, rule, kind, inner, s);
    case Optional(inner) => OptionIdle(m, calm, exec, rule, inner, Probe, s);
    case OptionalWhen(_, inner) => OptionIdle(m, calm, exec, rule, inner, Normal, s);
    case Predict(_, inner) => ChildIdle(m, calm, exec, inner, Normal, s);
    case OptionalSuffix(kind, inner, suffix) => SuffixIdle(m, calm, exec, rule, kind, inner, suffix, s);
    case RecoverSync(inner) => ChildIdle(m, calm, exec, inner, Normal, s);
  }

  lemma ReferenceLang(m: Setup, rule: Rule, target: Label)
    requires rule.body == Reference(target) && target in m.registry
    ensures LangOf(m, rule) == LangOf(m, m.registry[target])
  {
    LangReference(Exact, GrammarMap(m.registry), GrammarOf(rule));
  }

  lemma {:induction false} BodyIdle(m: Setup, calm: set<Label>, exec: Exec, rule: Rule, s: State, turns: nat)
    requires CalmOnly(m, calm)
    requires IdleExec(m, calm, exec) && InEntry(m, s) && Tentative(m, calm, rule) && !Starts(LangOf(m, rule), Peek(m, s).token)
    ensures IdleBody(s, Nullable(LangOf(m, rule)), RunBody(m, exec, rule, s, turns))
    decreases turns
  {
    if RunsOneRule(rule.body) {
      OneRuleIdle(m, calm, exec, rule, s, turns);
    } else if rule.body.Nest? || rule.body.Prefixed? {
      BracketIdle(m, calm, exec, rule, s, turns);
    } else if rule.body.Sequence? || rule.body.Root? {
      SequenceBodyIdle(m, calm, exec, rule, s, turns);
    } else {
      match rule.body
      case Expect(tokens, kind) => ExpectIdle(m, rule, tokens, kind, s);
      case Repetition(kind, min, inner) => RepetitionIdle(m, calm, exec, rule, kind, min, None, true, inner, s, turns);
      case BoundedRepetition(kind, min, max, inner) => RepetitionIdle(m, calm, exec, rule, kind, min, max, false, inner, s, turns);
      case Choice(rules) => ChoiceIdle(m, calm, exec, rule, rules, s);
      case Reference(target) =>
        if target in m.registry && turns > 0 {
          var inside := WithRecovery(m.registry[target], s);
          ReferenceLang(m, rule, target);
          BodyIdle(m, calm, exec, m.registry[target], inside, turns - 1);
          assert inside.recovery[..|inside.recovery| - 1] == s.recovery;
        }
    }
  }

  lemma EnterInEntry(m: Setup, rule: Rule, mode: Mode, s: State)
    requires InEntry(m, s)
    ensures var e := Enter(m, rule, mode, s);
            InEntry(m, e) && Peek(m, e) == Peek(m, s) && Ahead(m, e) == Ahead(m, s) && e.created == s.created && e.nextID == s.nextID
  {
  }

  /** A body that left everything in place leaves no trace of its envelope, whether it is kept or undone. */
  lemma LeaveInPlace(m: Setup, rule: Rule, mode: Mode, s: State, t: State, commit: bool)
    requires InEntry(m, s) && InPlace(Enter(m, rule, mode, s), t)
    ensures Leave(m, rule, mode, Pop(t, commit)) == s.(nextID := t.nextID, created := t.created)
  {
    var e := Enter(m, rule, mode, s);
    LastOf(s.errors.entries, Scope(None, []));
    AddNone(s.errors.entries);
    assert s.errors.errors + [] + [] == s.errors.errors;
    assert [] + AsList(None) == [];
    assert Pop(t, commit).errors == s.errors;
    if mode.Normal? {
      assert e.recovery[..|e.recovery| - 1] == s.recovery;
    }
  }

  lemma {:induction false} EnvelopeIdle(m: Setup, exec: Exec, rule: Rule, mode: Mode, s: State, turns: nat, nullable: bool)
    requires InEntry(m, s) && IdleBody(Enter(m, rule, mode, s), nullable, RunBody(m, exec, rule, Enter(m, rule, mode, s), turns))
    ensures Idle(s, nullable, RunEnvelope(m, exec, rule, mode, s, turns))
  {
    EnterInEntry(m, rule, mode, s);
    var c := RunBody(m, exec, rule, Enter(m, rule, mode, s), turns);
    if c.Done? {
      if c.result.Success? {
        LeaveInPlace(m, rule, mode, s, c.state, true);
      } else {
        var cut := Truncated(c.state, |s.created|);
        assert cut.created == s.created;
        assert cut.(cursor := s.cursor) == cut;
        LeaveInPlace(m, rule, mode, s, cut, false);
      }
    }
  }

  lemma {:induction false} RuleIdle(m: Setup, calm: set<Label>, exec: Exec, rule: Rule, mode: Mode, s: State, turns: nat, o: Outcome)
    requires CalmOnly(m, calm) && IdleExec(m, calm, exec) && o == RunEnvelope(m, exec, rule, mode, s, turns)
    ensures InEntry(m, s) && Tentative(m, calm, rule) && !Starts(LangOf(m, rule), Peek(m, s).token) ==> Idle(s, Nullable(LangOf(m, rule)), o)
  {
    if InEntry(m, s) && Tentative(m, calm, rule) && !Starts(LangOf(m, rule), Peek(m, s).token) {
      EnterInEntry(m, rule, mode, s);
      BodyIdle(m, calm, exec, rule, Enter(m, rule, mode, s), turns);
      EnvelopeIdle(m, exec, rule, mode, s, turns, Nullable(LangOf(m, rule)));
    }
  }

  lemma EngineRunsIdle(m: Setup, calm: set<Label>, rule: Rule, mode: Mode, s: State, fuel: nat)
    requires CalmOnly(m, calm) && (fuel > 0 ==> IdleExec(m, calm, EngineAt(m, fuel - 1)))
    ensures RunsIdle(m, calm, EngineAt(m, fuel), rule, mode, s)
  {
    EngineUnfolds(m, rule, mode, s, fuel);
    if fuel > 0 {
      RuleIdle(m, calm, EngineAt(m, fuel - 1), rule, mode, s, fuel - 1, EngineAt(m, fuel)(rule, mode, s));
    }
  }

  /**
   Where no word of its grammar can start, a rule is idle: it does not match, or it matches the
   empty word if its grammar has it, and in neither case does it touch the input, the errors or
   any stack.
   */
  lemma {:induction false} EngineIdles(m: Setup, calm: set<Label>, fuel: nat)
    requires CalmOnly(m, calm)
    ensures IdleExec(m, calm, EngineAt(m, fuel))
    decreases fuel
  {
    if fuel > 0 {
      EngineIdles(m, calm, fuel - 1);
    }
    forall rule, mode, s ensures RunsIdle(m, calm, EngineAt(m, fuel), rule, mode, s) {
      EngineRunsIdle(m, calm, rule, mode, s, fuel);
    }
  }

  // ----------------------------------------------------------------- guarded rules

  /** A rule whose own lookahead guard fails does not match, whatever its grammar. */
  lemma {:induction false} GuardedIdle(m: Setup, calm: set<Label>, rule: Rule, s: State, fuel: nat)
    requires InEntry(m, s) && Tentative(m, calm, rule) && !Matches(Ahead(m, s), LookaheadsOf(rule))
    ensures Idle(s, false, EngineAt(m, fuel)(rule, Normal, s))
    decreases fuel, 1
  {
    EngineUnfolds(m, rule, Normal, s, fuel);
    if fuel > 0 {
      var e := Enter(m, rule, Normal, s);
      EnterInEntry(m, rule, Normal, s);
      GuardedBody(m, calm, rule, e, fuel);
      EnvelopeIdle(m, EngineAt(m, fuel - 1), rule, Normal, s, fuel - 1, false);
    }
  }

  lemma {:induction false} GuardedBody(m: Setup, calm: set<Label>, rule: Rule, s: State, fuel: nat)
    requires fuel > 0 && InEntry(m, s) && Tentative(m, calm, rule) && !Matches(Ahead(m, s), LookaheadsOf(rule))
    ensures IdleBody(s, false, RunBody(m, EngineAt(m, fuel - 1), rule, s, fuel - 1))
    decreases fuel, 0
  {
    match rule.body
    case Predict(when, inner) =>
      if |when| == 0 {
        GuardedIdle(m, calm, inner, s, fuel - 1);
      }
    case RecoverSync(inner) => GuardedIdle(m, calm, inner, s, fuel - 1);
    case _ =>
  }
}
