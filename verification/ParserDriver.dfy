/**
 The parse entry point: one run of the entry rule over a fresh context, the end-of-input
 check, and the verdict.
 */
module ParserDriver {
  import opened Grammars
  import opened TokenStreams
  import opened Rules
  import opened Engine
  import opened EngineTransaction
  import opened EngineSoundness
  import opened EngineParse
  import opened ParserState
  import opened ParserEngine

  /** parseWithContext, after the entry rule. */
  method ConcludeParse(ctx: ParseContext, rule: Rule, r: Result) returns (o: ParseOutcome)
    requires ctx.Valid() && ctx.sink.entries == []
    modifies ctx, ctx.ts, ctx.sink, ctx.rc
    ensures ctx.Valid() && o == Conclude(ctx.m, rule, r, old(ctx.View()))
    ensures o.Finished? && o.node == if r.Success? then r.node else None
    ensures o.ok ==> r.Success? && Peek(ctx.m, old(ctx.View())).token == ctx.m.src.eof && o.errors == []
  {
    var l := ctx.PeekToken();
    var ok := r.Success?;
    if r.Failure? && r.kind.FailureNoMatch? {
      ctx.ReportAt(rule, l.start);
    }
    var explained := ctx.sink.HasCommittedSyntaxErrors();
    if r.Success? && l.token != ctx.m.src.eof && !explained {
      ctx.ReportAt(rule, l.start);
      ok := false;
    }
    ctx.sink.FlushFramesCommitAll();
    return Finished(ok && |ctx.sink.Errors| == 0, if r.Success? then r.node else None, ctx.sink.Errors);
  }

  /**
   A parse over a fresh context does what the specification says. In particular it is
   reported as successful exactly when it leaves no error, and then the whole visible input
   is a word of the entry rule's grammar and the tree is a reading of it. The tree is always
   the one the run of the entry rule returned.
   */
  method ParseProgram(m: Setup, skipRoles: seq<Role>, rule: Rule, fuel: nat) returns (o: ParseOutcome)
    requires m.src.skip == set r | r in skipRoles
    ensures o == Parse(m, rule, fuel)
    ensures RegistryWithoutEof(m.registry, m.src.eof) && WithoutEof(rule, m.src.eof) && o.Finished? ==>
              (o.ok <==> o.errors == []) && (o.ok ==> InputTokens(m.src) in LangOf(m, rule))
    ensures RegistryWithoutEof(m.registry, m.src.eof) && WithoutEof(rule, m.src.eof) && o.Finished? && o.ok ==>
              exists fragment, d :: WholeTree(m, rule, o.node, fragment, d)
    ensures o.Finished? && o.ok && ContractOf(m, rule).mustReturnNode ==> o.node.Some?
    ensures var run := ExecuteRule(m, rule, Normal, INITIAL, fuel);
            o.Finished? ==> run.Done? && o.node == if run.result.Success? then run.result.node else None
  {
    var ctx := new ParseContext(m, skipRoles);
    EngineIsEngine(m, fuel);
    var status, r := Execute(ctx, rule, Normal, fuel, EngineAt(m, fuel));
    ParseEnds(m, rule, fuel);
    ParseBuilds(m, rule, fuel);
    if RegistryWithoutEof(m.registry, m.src.eof) && WithoutEof(rule, m.src.eof) {
      FailureIsReported(m, rule, fuel);
      ParseSound(m, rule, fuel);
    }
    match status {
      case Ran => o := ConcludeParse(ctx, rule, r);
      case Panic => o := ParsePanicked;
      case NoFuel => o := ParseOutOfFuel;
    }
  }
}
