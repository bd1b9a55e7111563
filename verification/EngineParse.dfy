/**
 A whole parse, from the entry rule to the end of the input, and its agreement with the
 lowered forms of the same grammar.
 */
module EngineParse {
  import opened Languages
  import opened Grammars
  import opened Semantics
  import opened TokenStreams
  import opened Sources
  import opened ErrorScopes
  import opened Rules
  import opened Engine
  import opened EngineTransaction
  import opened EngineSoundness
  import Terminals
  import Lookaheads
  import StateGraph
  import PatternGrammar
  import EngineTrees
  import EngineBuilds
  import Readings

  datatype ParseOutcome = Finished(ok: bool, node: Option<Tree>, errors: seq<SyntaxError>) | ParsePanicked | ParseOutOfFuel

  const INITIAL := State(0, Nested([], []), [], [], 0, 0, 0)

  /** Errors reported outside every rule are final at once. */
  function PublishedAt(s: State, label': Label, position: nat): State {
    s.(errors := Report(s.errors, SyntaxError(false, position, label')))
  }

  /** parseWithContext, after the entry rule: upgrade "no match", insist on the end of the input unless errors explain it. */
  function Conclude(m: Setup, rule: Rule, r: Result, t: State): ParseOutcome {
    var l := Peek(m, t);
    var u := if r.Failure? then (if r.kind.FailureNoMatch? then PublishedAt(t, rule.grammarLabel, l.start) else t)
             else if l.token != m.src.eof && t.errors.errors == [] then PublishedAt(t, rule.grammarLabel, l.start)
             else t;
    var trailing := r.Success? && l.token != m.src.eof && t.errors.errors == [];
    Finished(r.Success? && !trailing && u.errors.errors == [], if r.Success? then r.node else None, u.errors.errors)
  }

  ghost function Parse(m: Setup, rule: Rule, fuel: nat): ParseOutcome {
    match ExecuteRule(m, rule, Normal, INITIAL, fuel)
    case Done(r, t) => Conclude(m, rule, r, t)
    case Panicked => ParsePanicked
    case OutOfFuel => ParseOutOfFuel
  }

  /** The visible tokens of the input, up to its end of file. */
  function InputTokens(src: Source): Word {
    TokenKinds(Visible(src.lexemes, src.eof, src.skip))
  }

  function TokenKinds(ls: seq<Lexeme>): Word {
    seq(|ls|, i requires 0 <= i < |ls| => ls[i].token)
  }

  /** Reading w from c leaves the rest of the visible tokens. */
  lemma {:induction false} ReadsVisible(src: Source, c: Position, w: Word, d: Position)
    requires Within(src, c) && Reads(src, c, w, d)
    ensures Within(src, d)
    ensures TokenKinds(Visible(src.lexemes[c..], src.eof, src.skip)) == w + TokenKinds(Visible(src.lexemes[d..], src.eof, src.skip))
    decreases |w|
  {
    if w != [] {
      FirstVisible(src, c);
      ReadsVisible(src, Advance(src, c), w[1..], d);
      assert w + TokenKinds(Visible(src.lexemes[d..], src.eof, src.skip)) ==
             [w[0]] + (w[1..] + TokenKinds(Visible(src.lexemes[d..], src.eof, src.skip)));
    }
  }

  /** Short of the end of file the visible tokens are the one peeked at and those after it. */
  lemma FirstVisible(src: Source, c: Position)
    requires Within(src, c) && PeekAt(src, c, 0).token != src.eof
    ensures Within(src, Advance(src, c))
    ensures TokenKinds(Visible(src.lexemes[c..], src.eof, src.skip)) ==
            [PeekAt(src, c, 0).token] + TokenKinds(Visible(src.lexemes[Advance(src, c)..], src.eof, src.skip))
  {
    var rest := src.lexemes[c..];
    var n := HiddenRun(rest, src.eof, src.skip);
    FirstShown(rest, src.eof, src.skip);
    assert Advance(src, c) == c + n + 1;
    assert src.lexemes[c + n + 1..] == rest[n + 1..];
    var v := Visible(rest, src.eof, src.skip);
    FirstKind(v);
    assert v[0] == PeekAt(src, c, 0);
  }

  lemma FirstKind(ls: seq<Lexeme>)
    requires ls != []
    ensures TokenKinds(ls) == [ls[0].token] + TokenKinds(ls[1..])
  {
  }

  lemma {:induction false} ParseEnds(m: Setup, rule: Rule, fuel: nat)
    ensures var o := ExecuteRule(m, rule, Normal, INITIAL, fuel);
            o.Done? ==> o.state.errors.entries == [] && Ready(m, o.state)
  {
    Transaction(m, rule, Normal, INITIAL, fuel);
  }

  /** A parse is reported as failed exactly when it leaves an error behind. */
  lemma {:induction false} FailureIsReported(m: Setup, rule: Rule, fuel: nat)
    requires RegistryWithoutEof(m.registry, m.src.eof) && WithoutEof(rule, m.src.eof)
    ensures var o := Parse(m, rule, fuel); o.Finished? ==> (o.ok <==> o.errors == [])
  {
    ParseEnds(m, rule, fuel);
    CleanSuccessReadsWord(m, rule, Normal, INITIAL, fuel);
  }

  /** A successful parse has read the whole visible input, and it is a word of the entry rule's grammar. */
  lemma {:induction false} ParseSound(m: Setup, rule: Rule, fuel: nat)
    requires RegistryWithoutEof(m.registry, m.src.eof) && WithoutEof(rule, m.src.eof)
    ensures Parse(m, rule, fuel).Finished? && Parse(m, rule, fuel).ok ==> InputTokens(m.src) in LangOf(m, rule)
  {
    var o := ExecuteRule(m, rule, Normal, INITIAL, fuel);
    if Parse(m, rule, fuel).Finished? && Parse(m, rule, fuel).ok {
      ParseEnds(m, rule, fuel);
      EngineSoundAt(m, fuel);
      assert RunSound(m, EngineAt(m, fuel), rule, Normal, INITIAL);
      AllRead(m, LangOf(m, rule), o.state);
    }
  }

  lemma AllRead(m: Setup, l: Language, t: State)
    requires ReadIn(m.src, 0, t.cursor, l) && Ready(m, t) && Peek(m, t).token == m.src.eof
    ensures InputTokens(m.src) in l
  {
    var w :| ReadsWord(m.src, 0, w, t.cursor, l);
    ReadsVisible(m.src, 0, w, t.cursor);
    FirstShown(m.src.lexemes[t.cursor..], m.src.eof, m.src.skip);
    assert m.src.lexemes[0..] == m.src.lexemes;
    assert w + TokenKinds([]) == w;
  }

  // --------------------------------------------------------------- the tree returned

  /** A success that owes a node returns one; so does a rule that recovers. */
  lemma {:induction false} EnvelopeReturnsNode(m: Setup, exec: Exec, rule: Rule, mode: Mode, s: State, turns: nat)
    ensures var o := RunEnvelope(m, exec, rule, mode, s, turns);
            o.Done? && o.result.Success? && ContractOf(m, rule).mustReturnNode ==> o.result.node.Some?
  {
    var c := RunBody(m, exec, rule, Enter(m, rule, mode, s), turns);
    if c.Done? && c.result.Failure? {
      var cut := Truncated(c.state, |s.created|);
      var (r', u) := HandleFailure(m, rule, mode, s, Peek(m, s), c.result, cut);
      assert r'.Success? ==> r'.node.Some?;
    }
  }

  /** A rule held to return a node does so whenever it succeeds, whether or not it recovered. */
  lemma {:induction false} EngineReturnsNode(m: Setup, rule: Rule, mode: Mode, s: State, fuel: nat)
    ensures var o := ExecuteRule(m, rule, mode, s, fuel);
            o.Done? && o.result.Success? && ContractOf(m, rule).mustReturnNode ==> o.result.node.Some?
  {
    var p := (o: Outcome) => o.Done? && o.result.Success? && ContractOf(m, rule).mustReturnNode ==> o.result.node.Some?;
    forall exec, turns | Transactional(m, exec) ensures p(RunEnvelope(m, exec, rule, mode, s, turns)) {
      EnvelopeReturnsNode(m, exec, rule, mode, s, turns);
    }
    EngineInherits(m, rule, mode, s, fuel, p);
  }

  /** The tree holds what stands before d in the order of the input, is a reading of it by the rule, and nothing is shown behind it. */
  ghost predicate WholeTree(m: Setup, rule: Rule, node: Option<Tree>, fragment: bool, d: Position) {
    && Within(m.src, d) && PeekAt(m.src, d, 0).token == m.src.eof
    && (node.Some? ==> EngineTrees.InOrder(m.src, 0, d, node.value))
    && Readings.Built(m, rule, 0, d, Readings.YieldOf(Success(node, fragment)))
  }

  /**
   The tree of a parse is that of the entry rule's run, whatever the end-of-input check says of
   it; there is one on success if the entry rule is held to return one; and it is a reading of
   the whole input.
   */
  lemma {:induction false} ParseBuilds(m: Setup, rule: Rule, fuel: nat)
    ensures var run, o := ExecuteRule(m, rule, Normal, INITIAL, fuel), Parse(m, rule, fuel);
            (o.Finished? <==> run.Done?) && (o.Finished? ==> o.node == if run.result.Success? then run.result.node else None)
    ensures var o := Parse(m, rule, fuel); o.Finished? && o.ok && ContractOf(m, rule).mustReturnNode ==> o.node.Some?
    ensures var o := Parse(m, rule, fuel);
            RegistryWithoutEof(m.registry, m.src.eof) && WithoutEof(rule, m.src.eof) && o.Finished? && o.ok ==>
              exists fragment, d :: WholeTree(m, rule, o.node, fragment, d)
  {
    var o, run := Parse(m, rule, fuel), ExecuteRule(m, rule, Normal, INITIAL, fuel);
    EngineReturnsNode(m, rule, Normal, INITIAL, fuel);
    if RegistryWithoutEof(m.registry, m.src.eof) && WithoutEof(rule, m.src.eof) && o.Finished? && o.ok {
      ParseEnds(m, rule, fuel);
      EngineTrees.TreeFollowsInput(m, rule, Normal, INITIAL, fuel);
      EngineBuilds.CleanSuccessBuilds(m, rule, Normal, INITIAL, fuel);
      assert run.result == Success(o.node, run.result.isFragment);
      assert WholeTree(m, rule, o.node, run.result.isFragment, run.state.cursor);
    }
  }

  // ----------------------------------------------- addresses do not matter to words

  const BLANK := NodeInfo(None, "", [], false)

  /** A grammar without labels and addresses. */
  function Erase(g: Grammar): Grammar
    decreases g, 1
  {
    match g
    case GToken(_, token) => GToken(BLANK, token)
    case GConcat(_, children) => GConcat(BLANK, EraseAll(children))
    case GChoice(_, children) => GChoice(BLANK, EraseAll(children))
    case GRepeat(_, body, min, max) => GRepeat(BLANK, Erase(body), min, max)
    case GOptional(_, body) => GOptional(BLANK, Erase(body))
    case GEpsilon(_) => GEpsilon(BLANK)
    case GNest(_, open, close, body) => GNest(BLANK, open, close, Erase(body))
    case GReference(_, target) => GReference(BLANK, target)
  }

  function EraseAll(gs: seq<Grammar>): (es: seq<Grammar>)
    ensures |es| == |gs|
    decreases gs, 0
  {
    if gs == [] then [] else [Erase(gs[0])] + EraseAll(gs[1..])
  }

  function EraseRules(rules: Grammars.Rules): Grammars.Rules {
    map l | l in rules :: Erase(rules[l])
  }

  lemma {:induction false} EraseKeepsWords(rules: Grammars.Rules, g: Grammar, h: nat)
    ensures LangAt(Exact, EraseRules(rules), Erase(g), h) == LangAt(Exact, rules, g, h)
    decreases h, g
  {
    match g
    case GToken(_, _) =>
    case GConcat(_, children) => EraseKeepsSeq(rules, children, h);
    case GChoice(_, children) => EraseKeepsAlt(rules, children, h);
    case GRepeat(_, body, _, _) => EraseKeepsWords(rules, body, h);
    case GOptional(_, body) => EraseKeepsWords(rules, body, h);
    case GEpsilon(_) =>
    case GNest(_, _, _, body) => EraseKeepsWords(rules, body, h);
    case GReference(_, target) =>
      if h > 0 && target in rules {
        EraseKeepsWords(rules, rules[target], h - 1);
      }
  }

  lemma {:induction false} EraseKeepsSeq(rules: Grammars.Rules, gs: seq<Grammar>, h: nat)
    ensures SeqAt(Exact, EraseRules(rules), EraseAll(gs), h) == SeqAt(Exact, rules, gs, h)
    decreases h, gs
  {
    if gs != [] {
      EraseKeepsWords(rules, gs[0], h);
      EraseKeepsSeq(rules, gs[1..], h);
      assert EraseAll(gs)[1..] == EraseAll(gs[1..]);
    }
  }

  lemma {:induction false} EraseKeepsAlt(rules: Grammars.Rules, gs: seq<Grammar>, h: nat)
    ensures AltAt(Exact, EraseRules(rules), EraseAll(gs), h) == AltAt(Exact, rules, gs, h)
    decreases h, gs
  {
    if gs != [] {
      EraseKeepsWords(rules, gs[0], h);
      EraseKeepsAlt(rules, gs[1..], h);
      assert EraseAll(gs)[1..] == EraseAll(gs[1..]);
    }
  }

  lemma {:induction false} SameErasureSameWords(rules: Grammars.Rules, g: Grammar, rules': Grammars.Rules, g': Grammar, w: Word)
    requires EraseRules(rules) == EraseRules(rules') && Erase(g) == Erase(g') && w in Lang(Exact, rules, g)
    ensures w in Lang(Exact, rules', g')
  {
    var h := LangElim(Exact, rules, g, w);
    EraseKeepsWords(rules, g, h);
    EraseKeepsWords(rules', g', h);
    LangAtInLang(Exact, rules', g', h);
  }

  /**
   The engine agrees with both lowered forms of its own grammar: an input it parses without
   errors is accepted by the state graph run as a pushdown machine, and derived by the
   context-free grammar.
   */
  lemma {:induction false} ParsedIsAccepted(m: Setup, rule: Rule, fuel: nat, env: Terminals.Env, entry: Grammar, cfg: PatternGrammar.Cfg, nodes: set<Grammar>)
    requires RegistryWithoutEof(m.registry, m.src.eof) && WithoutEof(rule, m.src.eof)
    requires EraseRules(env.rules) == EraseRules(GrammarMap(m.registry)) && Erase(entry) == Erase(GrammarOf(rule))
    requires Parse(m, rule, fuel).Finished? && Parse(m, rule, fuel).ok
    ensures StateGraph.PackageOk(env) && Lookaheads.Analyzed(env, entry) ==>
              StateGraph.Accepts(env, [StateGraph.Root(env, entry)], InputTokens(m.src))
    ensures PatternGrammar.Covers(env.rules, cfg, nodes) && entry in nodes ==>
              InputTokens(m.src) in PatternGrammar.CfgLang(cfg, PatternGrammar.NameOf(entry))
  {
    ParseSound(m, rule, fuel);
    SameErasureSameWords(GrammarMap(m.registry), GrammarOf(rule), env.rules, entry, InputTokens(m.src));
    if StateGraph.PackageOk(env) && Lookaheads.Analyzed(env, entry) {
      StateGraph.StateGraphExact(env, entry, InputTokens(m.src));
    }
    if PatternGrammar.Covers(env.rules, cfg, nodes) && entry in nodes {
      PatternGrammar.RulesMeanNodes(env.rules, cfg, nodes, entry);
    }
  }
}
