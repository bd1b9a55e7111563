/**
 A choice of a list and a token, in front of that token. Dispatch passes over the list, as the
 analysis rightly tells it to, and takes the token; trying the arms in order stops at the list
 with a syntax error. Rules, addresses and analysis are those of a whole program of that choice.
 */
module ChoiceOrder {
  import opened Languages
  import opened Grammars
  import opened Semantics
  import opened TokenStreams
  import opened Sources
  import opened ErrorScopes
  import opened Rules
  import opened Engine
  import opened EngineTransaction
  import opened EngineIdle
  import opened EngineDemands
  import opened EngineChoice
  import ListRule
  import ChoiceDispatch

  const OPEN: Token := 1
  const WORD: Token := 2
  const CLOSE: Token := 5
  const SPEC: ListRule.ListSpec := ListRule.ListSpec(OPEN, 3, 4, CLOSE, true, ListRule.TrailingOptional)

  const LIST: Rule := Rule("list", Contract(true, true), [CLOSE], [], false, Some([0, 0]), ListOf(SPEC, 1, 2))
  const WORD_RULE: Rule := Rule("word", Contract(true, false), [], [], false, Some([0, 1]), Expect([WORD], None))
  const ARMS: seq<Rule> := [LIST, WORD_RULE]
  const PROGRAM: Rule := Rule("root", Contract(true, false), [], [], false, Some([0]), Choice(ARMS))

  const FACTS: Analysis := Analysis(
    map[[0] := false, [0, 0] := false, [0, 1] := false],
    map[[0] := {OPEN, WORD}, [0, 0] := {OPEN}, [0, 1] := {WORD}],
    map[[0, 0] := GuardedArm({OPEN}, []), [0, 1] := GuardedArm({WORD}, [])])
  const SETUP: Setup :=
    Setup(Source([Lexeme(WORD, 0, 0, 1)], 0, {}), map["root" := PROGRAM, "list" := LIST], "root", Some(FACTS), map[], 0)

  /** Where the body of the entry rule starts. */
  const START: State := Enter(SETUP, PROGRAM, Normal, State(0, Nested([], []), [], [], 0, 0, 0))

  /** The facts about the list are exact. */
  lemma ListFacts()
    ensures FactsSound(SETUP, LIST, Arms(ARMS)[0])
  {
    var l := LangOf(SETUP, LIST);
    forall w | w in l ensures w != [] && w[0] == OPEN {
      ListRule.GrammarWords(GrammarMap(SETUP.registry), "list", SPEC, w);
    }
    forall t | Starts(l, t) ensures t in {OPEN} {
      var w :| w in Deriv(t, l);
      assert ([t] + w)[0] == t;
    }
  }

  /** And so are those about the token. */
  lemma WordFacts()
    ensures FactsSound(SETUP, WORD_RULE, Arms(ARMS)[1])
  {
    var l := LangOf(SETUP, WORD_RULE);
    LangToken(Exact, GrammarMap(SETUP.registry), GrammarOf(WORD_RULE));
    forall t | Starts(l, t) ensures t in {WORD} {
      var w :| w in Deriv(t, l);
      assert ([t] + w)[0] == t;
    }
  }

  lemma SeesWord(s: State)
    requires s.cursor == 0
    ensures Peek(SETUP, s).token == WORD && Ahead(SETUP, s)(0) == WORD
  {
    var ls := SETUP.src.lexemes;
    assert ls[0..] == ls;
    FirstShown(ls, 0, {});
  }

  lemma {:induction false} SecondListed(a: Rule, b: Rule, indices: set<nat>)
    requires 0 !in indices && 1 in indices
    ensures Listed([a, b], 0, indices) == [b]
  {
    assert Listed([a, b], 2, indices) == [];
    assert Listed([a, b], 1, indices) == [b] + Listed([a, b], 2, indices);
    assert Listed([a, b], 0, indices) == Listed([a, b], 1, indices);
  }

  lemma Candidate()
    ensures Candidates(SETUP, ARMS, 0, START) == [WORD_RULE] && PassedOver(SETUP, ARMS, 0, START)
  {
    SeesWord(START);
    var arms := Arms(ARMS);
    assert arms[0].path == Some([0, 0]) && arms[1].path == Some([0, 1]);
    assert ChoiceDispatch.Viable(SETUP.analysis.value, arms[1], Ahead(SETUP, START));
    SecondListed(LIST, WORD_RULE, ViableSet(SETUP.analysis.value, arms, Ahead(SETUP, START)));
  }

  lemma TokenTaken(fuel: nat)
    requires fuel > 0
    ensures RunArms(EngineAt(SETUP, fuel), [WORD_RULE], START).Done?
    ensures RunArms(EngineAt(SETUP, fuel), [WORD_RULE], START).result == Success(None, false)
  {
    EngineUnfolds(SETUP, WORD_RULE, Normal, START, fuel);
    SeesWord(Enter(SETUP, WORD_RULE, Normal, START));
  }

  lemma ListFails(fuel: nat)
    requires fuel > 0
    ensures var o := EngineAt(SETUP, fuel)(LIST, Normal, START); Decides(o) && o.result.Failure?
  {
    EngineUnfolds(SETUP, LIST, Normal, START, fuel);
    SeesWord(Enter(SETUP, LIST, Normal, START));
  }

  lemma {:induction false} FirstAgainstSecond(m: Setup, exec: Exec, a: Rule, b: Rule, s: State)
    requires m.analysis.Some? && Candidates(m, [a, b], 0, s) == [b]
    requires var o := exec(a, Normal, s); Decides(o) && o.result.Failure?
    requires var o := RunArms(exec, [b], s); o.Done? && o.result.Success?
    ensures RunChoice(m, exec, [a, b], s).Done? && RunChoice(m, exec, [a, b], s).result.Success?
    ensures RunArms(exec, [a, b], s).Done? && RunArms(exec, [a, b], s).result.Failure?
  {
    ChoiceTriesCandidates(m, exec, [a, b], s);
    assert [a, b] == [a] + [b];
    OneArm(exec, a, [b], s);
  }

  /** Dispatch succeeds and ordered choice fails, with every fact of the analysis true. */
  lemma DispatchIsNotOrder(fuel: nat)
    requires fuel > 0
    ensures InEntry(SETUP, START) && LedgerBelow(START)
    ensures FactsSound(SETUP, LIST, Arms(ARMS)[0]) && FactsSound(SETUP, WORD_RULE, Arms(ARMS)[1])
    ensures var o := RunChoice(SETUP, EngineAt(SETUP, fuel), ARMS, START); o.Done? && o.result.Success?
    ensures var o := RunArms(EngineAt(SETUP, fuel), ARMS, START); o.Done? && o.result.Failure?
  {
    ListFacts();
    WordFacts();
    Candidate();
    TokenTaken(fuel);
    ListFails(fuel);
    FirstAgainstSecond(SETUP, EngineAt(SETUP, fuel), LIST, WORD_RULE, START);
  }
}
