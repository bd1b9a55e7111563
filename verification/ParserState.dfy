/**
 The mutable state of a running parser: the token stream, the flat error sink, the flat
 recovery buffers and the node ledger, mutated together. Every action is proved against
 the corresponding step of the engine's specification.
 */
module ParserState {
  import opened Languages
  import opened Grammars
  import opened Guards
  import opened TokenStreams
  import opened Sources
  import opened ErrorScopes
  import opened Rules
  import opened Engine
  import ErrorBuffer
  import R = Recovery

  class ParseContext {
    const m: Setup
    const ts: TokenStream
    const sink: ErrorBuffer.SyntaxErrors
    const rc: R.RecoveryCore
    var created: seq<nat>
    var nextID: nat

    ghost predicate Valid()
      reads this, ts, sink, rc
    {
      && ts.Valid() && SourceOf(ts) == m.src
      && sink.Valid()
      && rc.Valid() && rc.defaultRecovery == [m.src.eof]
    }

    ghost function View(): State
      reads this, ts, sink, rc
    {
      State(ts.cursor, sink.View(), rc.sets, created, nextID, sink.entryRuleScopeDepth, sink.entryRuleFlightBaseline)
    }

    constructor (m: Setup, skipRoles: seq<Role>)
      requires m.src.skip == set r | r in skipRoles
      ensures Valid() && this.m == m && View() == State(0, Nested([], []), [], [], 0, 0, 0)
      ensures fresh(ts) && fresh(sink) && fresh(rc)
    {
      this.m := m;
      ts := new TokenStream(m.src.lexemes, m.src.eof);
      sink := new ErrorBuffer.SyntaxErrors();
      rc := new R.RecoveryCore(m.src.eof);
      created, nextID := [], 0;
      new;
      if |skipRoles| > 0 {
        ts.PushSkipRoles(skipRoles);
      }
    }

    // ------------------------------------------------------------------- tokens

    method PeekToken() returns (l: Lexeme)
      requires Valid()
      modifies ts
      ensures Valid() && View() == old(View()) && l == Peek(m, View())
    {
      l := ts.Peek(0);
    }

    /** Whether the tokens ahead meet a guard: stops at the first constraint that fails. */
    method GuardHolds(g: Guard) returns (ok: bool)
      requires Valid()
      modifies ts
      ensures Valid() && View() == old(View()) && ok == Matches(Ahead(m, View()), g)
    {
      for i := 0 to |g|
        invariant Valid() && View() == old(View())
        invariant forall j :: 0 <= j < i ==> Holds(Ahead(m, View()), g[j])
      {
        var l := ts.Peek(g[i].offset);
        if l.token != g[i].expected {
          assert !Holds(Ahead(m, View()), g[i]);
          return false;
        }
      }
      return true;
    }

    method StartMarker() returns (marker: nat)
      requires Valid()
      ensures marker == Marker(m, View())
    {
      var l := ts.PeekRaw(0);
      return l.start;
    }

    method TakeToken() returns (l: Lexeme)
      requires Valid()
      modifies ts
      ensures Valid() && View() == Take(m, old(View())) && l == Peek(m, old(View()))
    {
      l := ts.Consume();
    }

    // ------------------------------------------------------------------ the ledger

    method MakeNode() returns (id: nat)
      requires Valid()
      modifies this
      ensures Valid() && View() == NewNode(old(View())) && id == old(View()).nextID + 1
    {
      nextID := nextID + 1;
      created := created + [nextID];
      return nextID;
    }

    /** TruncateCreated: nodes made since the ledger had n entries are taken back. */
    method TakeBack(n: nat)
      requires Valid()
      modifies this
      ensures Valid() && View() == Truncated(old(View()), n)
    {
      if n <= |created| {
        created := created[..n];
      }
    }

    // -------------------------------------------------------------------- errors

    method ReportAt(rule: Rule, position: nat)
      requires Valid()
      modifies sink
      ensures Valid() && View() == ReportPosition(old(View()), rule, position)
    {
      sink.ReportError(SyntaxError(false, position, rule.grammarLabel));
    }

    method ReportMissing(rule: Rule)
      requires Valid()
      modifies ts, sink
      ensures Valid() && View() == ReportExpected(m, old(View()), rule)
    {
      if ts.cursor > 0 {
        ReportAt(rule, ts.lexemes[ts.cursor - 1].end);
      } else {
        var l := PeekToken();
        ReportAt(rule, l.start);
      }
    }

    method PopErrors(commit: bool)
      requires Valid() && sink.entries != [] && sink.entries[|sink.entries| - 1].Scope?
      modifies sink
      ensures Valid() && View() == Pop(old(View()), commit)
    {
      sink.PopFrame(commit);
    }

    method OpenRegion(start: nat)
      requires Valid()
      modifies sink
      ensures Valid() && View() == old(View()).(errors := PushRegion(old(View()).errors, start))
    {
      sink.PushDelimiterBoundary(start);
    }

    method CloseRegion()
      requires Valid() && sink.entries != [] && sink.entries[|sink.entries| - 1].Region?
      modifies sink
      ensures Valid() && View() == PopRegionOf(old(View()))
    {
      sink.PopDelimiterBoundary();
    }

    // ------------------------------------------------------------------ the envelope

    method InstallRule(rule: Rule, mode: Mode)
      requires Valid()
      modifies sink, rc
      ensures Valid() && View() == Installed(m, rule, mode, old(View()))
    {
      if mode.Normal? {
        rc.PushRecovery(rule.isBarrier, rule.recoveryTokens, rule.noConsumeTokens);
        if rule.grammarLabel == m.program {
          sink.BeginEntryRuleScope();
        }
      }
    }

    method PushErrors()
      requires Valid()
      modifies sink
      ensures Valid() && View() == old(View()).(errors := PushScope(old(View()).errors))
    {
      sink.PushFrame();
    }

    method EnterRule(rule: Rule, mode: Mode)
      requires Valid()
      modifies sink, rc
      ensures Valid() && View() == Enter(m, rule, mode, old(View()))
    {
      InstallRule(rule, mode);
      PushErrors();
    }

    method LeaveRule(rule: Rule, mode: Mode)
      requires Valid()
      modifies sink, rc
      ensures Valid() && View() == Leave(m, rule, mode, old(View()))
    {
      if mode.Normal? {
        if rule.grammarLabel == m.program && sink.entryRuleScopeDepth > 0 {
          sink.EndEntryRuleScope();
        }
        rc.PopRecovery();
      }
    }

    method PushTargetRecovery(rule: Rule)
      requires Valid()
      modifies rc
      ensures Valid() && View() == WithRecovery(rule, old(View()))
    {
      rc.PushRecovery(rule.isBarrier, rule.recoveryTokens, rule.noConsumeTokens);
    }

    method PopTargetRecovery()
      requires Valid()
      modifies rc
      ensures Valid() && View() == WithoutTopRecovery(old(View()))
    {
      rc.PopRecovery();
    }

    ghost predicate Fits(snap: Snapshot) {
      Coherent(m.src.lexemes, m.src.eof, m.src.skip, snap.tokenIndex, snap.nextVisibleCached, snap.nextVisibleRawIndex)
    }

    method SaveTokens() returns (snap: Snapshot)
      requires Valid()
      ensures Fits(snap) && snap.tokenIndex == View().cursor
    {
      snap := ts.Save();
    }

    method RestoreTokens(snap: Snapshot)
      requires Valid() && Fits(snap)
      modifies ts
      ensures Valid() && View() == old(View()).(cursor := snap.tokenIndex)
    {
      ts.Restore(snap);
    }

    /** The message of last resort, placed at the rule's first token or where the failure left the cursor. */
    method NoteFailure(rule: Rule, ghost start: State, startCursor: nat, pre: Lexeme)
      requires Valid() && startCursor == start.cursor && HasScope(View().errors.entries)
      modifies ts, sink
      ensures Valid() && View() == NoteUnexpected(m, rule, start, pre, old(View()))
    {
      if rule.grammarLabel == m.program {
        return;
      }
      var own := rc.IsRecoveryToken(pre.token);
      if own {
        return;
      }
      var empty := sink.CurrentFrameWouldBeEmptyOnPop();
      var bestPos, ok := sink.CurrentBestPosition();
      if empty || (ok && bestPos == startCursor) {
        var found := pre;
        if ts.cursor != startCursor {
          found := PeekToken();
        }
        var replaced := sink.ReplaceBest(SyntaxError(false, found.start, rule.grammarLabel));
      }
    }

    /** performRecovery: where the scan lands, if it does. */
    method ScanForSync() returns (recovered: bool)
      requires Valid()
      modifies ts
      ensures Valid() && View() == old(View()).(cursor := View().cursor) && old(View()).cursor <= View().cursor
      ensures Landing(m, old(View())) == if recovered then Some(View().cursor - old(View()).cursor) else None
    {
      ghost var rest, sync := ts.Rest(), R.Sync(rc.sets, rc.defaultRecovery, true);
      ghost var start := ts.cursor;
      recovered := R.PerformRecovery(ts, rc);
      R.LandingIs(rest, m.src.eof, sync, ts.cursor - start);
    }

    /** The token recovery landed on is taken, unless its innermost owner leaves it in place. */
    method SettleSync() returns (token: Token, consume: bool)
      requires Valid() && View().cursor < |m.src.lexemes|
      modifies ts
      ensures Valid() && token == PeekRawAt(m.src, old(View()).cursor).token
      ensures consume == !R.LeftInPlace(old(View()).recovery, token)
      ensures View() == old(View()).(cursor := if consume then old(View()).cursor + 1 else old(View()).cursor)
    {
      var l := ts.PeekRaw(0);
      token := l.token;
      consume := R.SettleSyncToken(ts, rc);
    }

    lemma RecoveredCase(rule: Rule, start: State, r: Result, s: State, landed: bool, at: nat)
      requires s.cursor <= at && s.cursor <= |m.src.lexemes|
      requires Landing(m, s) == if landed then Some(at - s.cursor) else None
      ensures Recovered(m, rule, start, r, s) ==
              if landed then Landed(m, rule, s.(cursor := at)) else (r, s.(cursor := start.cursor))
      ensures landed ==> at < |m.src.lexemes|
    {
      if landed {
        LandingInside(s);
      }
    }

    lemma LandingInside(s: State)
      requires s.cursor <= |m.src.lexemes| && Landing(m, s).Some?
      ensures s.cursor + Landing(m, s).value < |m.src.lexemes|
    {
    }

    /** The decision about the token, and the error node of a barrier. */
    method SettleLanding(rule: Rule) returns (r': Result)
      requires Valid() && View().cursor < |m.src.lexemes|
      modifies this, ts
      ensures Valid() && (r', View()) == Landed(m, rule, old(View()))
    {
      var token, consume := SettleSync();
      if rule.isBarrier && (token in rule.recoveryTokens || token in rule.noConsumeTokens) {
        var id := MakeNode();
        return Success(Some(Tree(id, m.errorKind, [], [])), false);
      }
      return Failure(FailureError, consume);
    }

    method RecoverRule(rule: Rule, ghost start: State, r: Result, snap: Snapshot) returns (r': Result)
      requires Valid() && Fits(snap) && snap.tokenIndex == start.cursor && r.Failure? && r.kind.FailureError?
      modifies this, ts
      ensures Valid() && (r', View()) == Recovered(m, rule, start, r, old(View()))
    {
      ghost var before := View();
      var recovered := ScanForSync();
      RecoveredCase(rule, start, r, before, recovered, View().cursor);
      if !recovered {
        RestoreTokens(snap);
        return r;
      }
      r' := SettleLanding(rule);
    }
  }
}
