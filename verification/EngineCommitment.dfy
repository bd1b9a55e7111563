/**
 How a sequence tells whether it has consumed anything: by the start offset of the next raw
 lexeme, which is zero at the end of the input.
 */
module EngineCommitment {
  import opened Languages
  import opened Grammars
  import opened TokenStreams
  import opened Sources
  import opened Rules
  import opened Engine
  import opened EngineTransaction

  /** Raw lexemes start further and further along. */
  predicate RisingStarts(src: Source) {
    forall i, j :: 0 <= i < j < |src.lexemes| ==> src.lexemes[i].start < src.lexemes[j].start
  }

  /**
   Progress goes unnoticed exactly when there was none, or when it led from a lexeme at
   offset zero to the end of the input.
   */
  lemma CommitmentExact(m: Setup, s: State, t: State)
    requires RisingStarts(m.src) && s.cursor <= t.cursor <= |m.src.lexemes|
    ensures CommitmentKind(Marker(m, s), Marker(m, t), FailureNoMatch) == FailureNoMatch <==>
            s.cursor == t.cursor || (Marker(m, s) == 0 && t.cursor == |m.src.lexemes|)
  {
    if s.cursor < t.cursor < |m.src.lexemes| {
      assert m.src.lexemes[s.cursor].start < m.src.lexemes[t.cursor].start;
    }
  }

  /** A sequence that began at offset zero and fails with nothing left declines, whatever it has consumed. */
  lemma {:induction false} DeclinesAtEnd(m: Setup, exec: Exec, owner: Rule, kind: Option<Kind>, rules: seq<Rule>, children: seq<Tree>, s: State)
    requires rules != [] && exec(rules[0], Normal, s).Done?
    requires var o := exec(rules[0], Normal, s);
             o.result.Failure? && o.result.kind.FailureNoMatch? && o.state.cursor >= |m.src.lexemes|
    ensures RunSequence(m, exec, owner, kind, rules, 0, children, s) == Done(NoMatch(), exec(rules[0], Normal, s).state)
  {
  }

  // ---------------------------------------------------------------- a missing element

  /** The analysis knows what may follow the rule, and the token ahead is one of them. */
  predicate FollowAhead(m: Setup, missing: Rule, s: State) {
    && m.analysis.Some? && missing.nodePath.Some? && missing.nodePath.value in m.follow
    && Peek(m, s).token in m.follow[missing.nodePath.value]
  }

  /** What stands for a missing element: an empty container if it promised a node. */
  function Placeholder(missing: Rule): seq<Tree> {
    if missing.contract.mustReturnNode then [Tree(TRANSIENT, NO_KIND, [], [])] else []
  }

  /**
   An element that declines. Without progress the sequence declines too; after progress it goes
   on behind the element, with an error on record, if and only if a token of the element's follow
   set is ahead, and fails with an error otherwise. The cursor stays in any case.
   */
  lemma {:induction false} MissingElement(m: Setup, exec: Exec, owner: Rule, kind: Option<Kind>, rules: seq<Rule>, marker: nat, children: seq<Tree>, s: State)
    requires rules != [] && exec(rules[0], Normal, s).Done?
    requires exec(rules[0], Normal, s).result.Failure? && exec(rules[0], Normal, s).result.kind.FailureNoMatch?
    ensures var t, o := exec(rules[0], Normal, s).state, RunSequence(m, exec, owner, kind, rules, marker, children, s);
            if Marker(m, t) == marker then o == Done(NoMatch(), t)
            else if FollowAhead(m, rules[0], t) then
              o == RunSequence(m, exec, owner, kind, rules[1..], marker, children + Placeholder(rules[0]), ReportExpected(m, t, owner))
            else o == Done(Error(), ReportExpected(m, t, owner))
  {
    assert children + [] == children;
  }

  /** So a sequence whose element declines can only succeed at a token that may follow the element. */
  lemma {:induction false} SucceedsPastMissing(m: Setup, exec: Exec, owner: Rule, kind: Option<Kind>, rules: seq<Rule>, marker: nat, children: seq<Tree>, s: State)
    requires rules != [] && exec(rules[0], Normal, s).Done?
    requires exec(rules[0], Normal, s).result.Failure? && exec(rules[0], Normal, s).result.kind.FailureNoMatch?
    ensures var o := RunSequence(m, exec, owner, kind, rules, marker, children, s);
            o.Done? && o.result.Success? ==> FollowAhead(m, rules[0], exec(rules[0], Normal, s).state)
  {
    MissingElement(m, exec, owner, kind, rules, marker, children, s);
  }

  // -------------------------------------------------------------------- an input

  predicate OneLexeme(src: Source, token: Token) {
    && |src.lexemes| == 1 && src.lexemes[0].token == token != src.eof
    && src.lexemes[0].start == 0 && src.lexemes[0].role !in src.skip
  }

  predicate PlainToken(rule: Rule, token: Token) {
    rule.body == Expect([token], None) && !rule.contract.mustReturnNode
  }

  lemma OnlyToken(m: Setup, token: Token, s: State)
    requires OneLexeme(m.src, token) && s.cursor <= 1
    ensures s.cursor == 0 ==> Peek(m, s).token == token && Take(m, s).cursor == 1
    ensures s.cursor == 1 ==> Peek(m, s).token == m.src.eof
    ensures Marker(m, s) == 0
  {
    var rest := m.src.lexemes[s.cursor..];
    if s.cursor == 0 {
      assert rest == m.src.lexemes;
    } else {
      assert rest == [];
    }
    FirstShown(rest, m.src.eof, m.src.skip);
  }

  lemma TokenTaken(m: Setup, rule: Rule, token: Token, s: State, fuel: nat)
    requires OneLexeme(m.src, token) && PlainToken(rule, token) && s.cursor == 0 && fuel > 0
    ensures var o := EngineAt(m, fuel)(rule, Normal, s); o.Done? && o.result.Success? && o.state.cursor == 1
  {
    EngineUnfolds(m, rule, Normal, s, fuel);
    var e := Enter(m, rule, Normal, s);
    OnlyToken(m, token, e);
  }

  lemma TokenMissing(m: Setup, rule: Rule, token: Token, other: Token, s: State, fuel: nat)
    requires OneLexeme(m.src, token) && PlainToken(rule, other) && other != m.src.eof && s.cursor == 1 && fuel > 0
    ensures var o := EngineAt(m, fuel)(rule, Normal, s);
            o.Done? && o.result.Failure? && o.result.kind.FailureNoMatch? && o.state.cursor == 1
  {
    EngineUnfolds(m, rule, Normal, s, fuel);
    var e := Enter(m, rule, Normal, s);
    OnlyToken(m, token, e);
  }

  lemma {:induction false} SequenceDeclines(m: Setup, exec: Exec, owner: Rule, first: Rule, second: Rule, s: State)
    requires |m.src.lexemes| == 1 && Marker(m, s) == 0
    requires exec(first, Normal, s).Done? && exec(first, Normal, s).result.Success?
    requires var o := exec(second, Normal, exec(first, Normal, s).state);
             o.Done? && o.result.Failure? && o.result.kind.FailureNoMatch? && o.state.cursor == 1
    ensures var o := RunSequence(m, exec, owner, None, [first, second], Marker(m, s), [], s);
            o.Done? && o.result == NoMatch()
  {
    var o := exec(first, Normal, s);
    assert [first, second][1..] == [second] && [second][0] == second;
    DeclinesAtEnd(m, exec, owner, None, [second], Attached([], o.result), o.state);
  }

  /**
   On an input of one lexeme at offset zero, a sequence of that token and another one
   consumes the input and then declines, so a choice around it goes on to its later arms.
   */
  lemma {:induction false} ConsumedButDeclined(m: Setup, pair: Rule, first: Rule, second: Rule, later: Rule, token: Token, other: Token, s: State, fuel: nat)
    requires OneLexeme(m.src, token) && other != m.src.eof && other != token && s.cursor == 0 && fuel > 1
    requires pair.body == Sequence(None, [first, second])
    requires PlainToken(first, token) && PlainToken(second, other) && PlainToken(later, token)
    ensures var o := EngineAt(m, fuel)(pair, Normal, s); o.Done? && o.result == NoMatch() && o.state.cursor == 0
    ensures var o := RunArms(EngineAt(m, fuel), [pair, later], s); o.Done? && o.result.Success? && o.state.cursor == 1
  {
    EngineUnfolds(m, pair, Normal, s, fuel);
    var e := Enter(m, pair, Normal, s);
    OnlyToken(m, token, e);
    TokenTaken(m, first, token, e, fuel - 1);
    TokenMissing(m, second, token, other, EngineAt(m, fuel - 1)(first, Normal, e).state, fuel - 1);
    SequenceDeclines(m, EngineAt(m, fuel - 1), pair, first, second, e);
    var o := EngineAt(m, fuel)(pair, Normal, s);
    TokenTaken(m, later, token, o.state, fuel);
    assert [pair, later][1..] == [later] && [later][0] == later;
  }
}
