/**
 Error recovery: the stack of synchronisation sets rules install while they run, kept in
 two flat buffers, and the scan that discards input up to a synchronisation token.
 */
module Recovery {
  import opened Languages
  import opened Grammars
  import opened TokenStreams

  /** What one running rule contributes. */
  datatype RecoverySet = RecoverySet(consume: seq<Token>, noConsume: seq<Token>, barrier: bool)

  predicate Owns(s: RecoverySet, t: Token) {
    t in s.consume || t in s.noConsume
  }

  // -------------------------------------------------------- questions about the stack

  ghost predicate ActiveConsume(sets: seq<RecoverySet>, defaults: seq<Token>, t: Token) {
    t in defaults || exists i :: 0 <= i < |sets| && t in sets[i].consume
  }

  ghost predicate Active(sets: seq<RecoverySet>, defaults: seq<Token>, t: Token) {
    t in defaults || exists i :: 0 <= i < |sets| && Owns(sets[i], t)
  }

  /** Visible from the innermost rule: its own sets, and the defaults unless it is a barrier. */
  predicate OwnRecovery(sets: seq<RecoverySet>, defaults: seq<Token>, t: Token) {
    (sets != [] && Owns(sets[|sets| - 1], t)) || (t in defaults && (sets == [] || !sets[|sets| - 1].barrier))
  }

  /** Frame i is the innermost one that lists t. */
  ghost predicate InnermostOwner(sets: seq<RecoverySet>, t: Token, i: nat) {
    i < |sets| && Owns(sets[i], t) && forall j :: i < j < |sets| ==> !Owns(sets[j], t)
  }

  /** The innermost owner lists t as a token to leave in place; inside one frame that listing wins. */
  ghost predicate LeftInPlace(sets: seq<RecoverySet>, t: Token) {
    exists i: nat :: InnermostOwner(sets, t, i) && t in sets[i].noConsume
  }

  lemma OwnerDecides(sets: seq<RecoverySet>, t: Token, i: nat)
    requires InnermostOwner(sets, t, i)
    ensures LeftInPlace(sets, t) <==> t in sets[i].noConsume
  {
  }

  // ---------------------------------------------------------------- the flat buffers

  datatype RecoveryFrame = RecoveryFrame(consumeStart: nat, consumeEnd: nat, noConsumeStart: nat, noConsumeEnd: nat, barrier: bool)

  function ConsumeFlight(sets: seq<RecoverySet>): seq<Token> {
    if sets == [] then [] else ConsumeFlight(sets[..|sets| - 1]) + sets[|sets| - 1].consume
  }

  function NoConsumeFlight(sets: seq<RecoverySet>): seq<Token> {
    if sets == [] then [] else NoConsumeFlight(sets[..|sets| - 1]) + sets[|sets| - 1].noConsume
  }

  /** Frame f marks exactly the tokens of s in the two buffers. */
  predicate Marks(f: RecoveryFrame, s: RecoverySet, consume: seq<Token>, noConsume: seq<Token>) {
    && f.consumeStart <= f.consumeEnd <= |consume| && consume[f.consumeStart..f.consumeEnd] == s.consume
    && f.noConsumeStart <= f.noConsumeEnd <= |noConsume| && noConsume[f.noConsumeStart..f.noConsumeEnd] == s.noConsume
    && f.barrier == s.barrier
  }

  lemma MarksLonger(f: RecoveryFrame, s: RecoverySet, consume: seq<Token>, noConsume: seq<Token>, c: seq<Token>, n: seq<Token>)
    requires Marks(f, s, consume, noConsume)
    ensures Marks(f, s, consume + c, noConsume + n)
  {
    assert (consume + c)[f.consumeStart..f.consumeEnd] == consume[f.consumeStart..f.consumeEnd];
    assert (noConsume + n)[f.noConsumeStart..f.noConsumeEnd] == noConsume[f.noConsumeStart..f.noConsumeEnd];
  }

  function Frames(sets: seq<RecoverySet>): seq<RecoveryFrame> {
    if sets == [] then [] else
    var below, top := sets[..|sets| - 1], sets[|sets| - 1];
    var c, n := |ConsumeFlight(below)|, |NoConsumeFlight(below)|;
    Frames(below) + [RecoveryFrame(c, c + |top.consume|, n, n + |top.noConsume|, top.barrier)]
  }

  lemma {:induction false} FramesMark(sets: seq<RecoverySet>)
    ensures |Frames(sets)| == |sets|
    ensures forall i :: 0 <= i < |sets| ==> Marks(Frames(sets)[i], sets[i], ConsumeFlight(sets), NoConsumeFlight(sets))
    decreases |sets|
  {
    if sets != [] {
      var below, top := sets[..|sets| - 1], sets[|sets| - 1];
      FramesMark(below);
      forall i | 0 <= i < |below|
        ensures Marks(Frames(sets)[i], sets[i], ConsumeFlight(sets), NoConsumeFlight(sets))
      {
        MarksLonger(Frames(below)[i], below[i], ConsumeFlight(below), NoConsumeFlight(below), top.consume, top.noConsume);
      }
    }
  }

  method ContainsToken(tokens: seq<Token>, t: Token) returns (found: bool)
    ensures found == (t in tokens)
  {
    for i := 0 to |tokens|
      invariant t !in tokens[..i]
    {
      if tokens[i] == t {
        return true;
      }
    }
    assert tokens[..|tokens|] == tokens;
    return false;
  }

  /** Keeps the first occurrence of each token. */
  method DeduplicateTokens(tokens: seq<Token>) returns (out: seq<Token>)
    ensures forall t :: t in out <==> t in tokens
    ensures forall i, j :: 0 <= i < j < |out| ==> out[i] != out[j]
  {
    out := [];
    for i := 0 to |tokens|
      invariant forall t :: t in out <==> t in tokens[..i]
      invariant forall i, j :: 0 <= i < j < |out| ==> out[i] != out[j]
    {
      var seen := ContainsToken(out, tokens[i]);
      if !seen {
        out := out + [tokens[i]];
      }
    }
    assert tokens[..|tokens|] == tokens;
  }

  class RecoveryCore {
    var defaultRecovery: seq<Token>
    var stack: seq<RecoveryFrame>
    var consumeFlight: seq<Token>
    var noConsumeFlight: seq<Token>
    ghost var sets: seq<RecoverySet>

    /** The flat buffers hold the stack of sets. */
    ghost predicate Valid()
      reads this
    {
      stack == Frames(sets) && consumeFlight == ConsumeFlight(sets) && noConsumeFlight == NoConsumeFlight(sets)
    }

    constructor (eof: Token)
      ensures Valid() && sets == [] && defaultRecovery == [eof]
    {
      defaultRecovery, stack, consumeFlight, noConsumeFlight, sets := [eof], [], [], [], [];
    }

    method PushRecovery(barrier: bool, consumeTokens: seq<Token>, noConsumeTokens: seq<Token>)
      requires Valid()
      modifies `stack, `consumeFlight, `noConsumeFlight, `sets
      ensures Valid() && sets == old(sets) + [RecoverySet(consumeTokens, noConsumeTokens, barrier)]
    {
      var consumeStart, noConsumeStart := |consumeFlight|, |noConsumeFlight|;
      consumeFlight := consumeFlight + consumeTokens;
      noConsumeFlight := noConsumeFlight + noConsumeTokens;
      stack := stack + [RecoveryFrame(consumeStart, |consumeFlight|, noConsumeStart, |noConsumeFlight|, barrier)];
      sets := sets + [RecoverySet(consumeTokens, noConsumeTokens, barrier)];
      assert sets[..|sets| - 1] == old(sets);
    }

    method PopRecovery()
      requires Valid()
      modifies `stack, `consumeFlight, `noConsumeFlight, `sets
      ensures Valid() && sets == if old(sets) == [] then [] else old(sets)[..|old(sets)| - 1]
    {
      FramesMark(sets);
      if |stack| == 0 {
        return;
      }
      var top := stack[|stack| - 1];
      consumeFlight := consumeFlight[..top.consumeStart];
      noConsumeFlight := noConsumeFlight[..top.noConsumeStart];
      stack := stack[..|stack| - 1];
      sets := sets[..|sets| - 1];
    }

    method FrameConsumes(i: nat, t: Token) returns (found: bool)
      requires Valid() && i < |stack|
      ensures i < |sets| && found == (t in sets[i].consume)
    {
      FramesMark(sets);
      found := ContainsToken(consumeFlight[stack[i].consumeStart..stack[i].consumeEnd], t);
    }

    method FrameLeaves(i: nat, t: Token) returns (found: bool)
      requires Valid() && i < |stack|
      ensures i < |sets| && found == (t in sets[i].noConsume)
    {
      FramesMark(sets);
      found := ContainsToken(noConsumeFlight[stack[i].noConsumeStart..stack[i].noConsumeEnd], t);
    }

    method FrameContainsToken(i: nat, t: Token) returns (found: bool)
      requires Valid() && i < |stack|
      ensures i < |sets| && found == Owns(sets[i], t)
    {
      found := FrameConsumes(i, t);
      if !found {
        found := FrameLeaves(i, t);
      }
    }

    method IsRecoveryToken(t: Token) returns (found: bool)
      requires Valid()
      ensures found == OwnRecovery(sets, defaultRecovery, t)
    {
      FramesMark(sets);
      if |stack| > 0 {
        found := FrameContainsToken(|stack| - 1, t);
        if found {
          return;
        }
        if stack[|stack| - 1].barrier {
          return false;
        }
      }
      found := ContainsToken(defaultRecovery, t);
    }

    method IsActiveRecoveryToken(t: Token) returns (found: bool)
      requires Valid()
      ensures found == Active(sets, defaultRecovery, t)
    {
      FramesMark(sets);
      found := ContainsToken(defaultRecovery, t);
      if found {
        return;
      }
      for i := |stack| downto 0
        invariant forall j :: i <= j < |sets| ==> !Owns(sets[j], t)
      {
        found := FrameContainsToken(i, t);
        if found {
          return;
        }
      }
      return false;
    }

    method IsActiveConsumeRecoveryToken(t: Token) returns (found: bool)
      requires Valid()
      ensures found == ActiveConsume(sets, defaultRecovery, t)
    {
      FramesMark(sets);
      found := ContainsToken(defaultRecovery, t);
      if found {
        return;
      }
      for i := |stack| downto 0
        invariant forall j :: i <= j < |sets| ==> t !in sets[j].consume
      {
        found := FrameConsumes(i, t);
        if found {
          return;
        }
      }
      return false;
    }

    /** Whether t synchronises at all, and whether its innermost owner leaves it for an ancestor. */
    method RecoveryTokenOwnership(t: Token) returns (active: bool, noConsume: bool)
      requires Valid()
      ensures active == Active(sets, defaultRecovery, t) && noConsume == LeftInPlace(sets, t)
    {
      FramesMark(sets);
      for i := |stack| downto 0
        invariant forall j :: i <= j < |sets| ==> !Owns(sets[j], t)
      {
        var leaves := FrameLeaves(i, t);
        if leaves {
          OwnerDecides(sets, t, i);
          return true, true;
        }
        var consumes := FrameConsumes(i, t);
        if consumes {
          OwnerDecides(sets, t, i);
          return true, false;
        }
      }
      active := ContainsToken(defaultRecovery, t);
      noConsume := false;
    }

    /** Every active token, once. */
    method CollectAllRecoveryTokens() returns (tokens: seq<Token>)
      requires Valid()
      ensures forall t :: t in tokens <==> Active(sets, defaultRecovery, t)
      ensures forall i, j :: 0 <= i < j < |tokens| ==> tokens[i] != tokens[j]
    {
      FramesMark(sets);
      var result := defaultRecovery;
      for i := |stack| downto 0
        invariant forall t :: t in result <==> t in defaultRecovery || exists j :: i <= j < |sets| && Owns(sets[j], t)
      {
        result := result + consumeFlight[stack[i].consumeStart..stack[i].consumeEnd];
        result := result + noConsumeFlight[stack[i].noConsumeStart..stack[i].noConsumeEnd];
      }
      tokens := DeduplicateTokens(result);
    }
  }

  // --------------------------------------------------------------------- scanning

  /** The scan walks over k raw lexemes that neither end the input nor synchronise. */
  ghost predicate Walks(rest: seq<Lexeme>, eof: Token, sync: Token -> bool, k: nat) {
    k <= |rest| && forall i :: 0 <= i < k ==> rest[i].token != eof && !sync(rest[i].token)
  }

  /** It stops at the first synchronising lexeme. */
  ghost predicate LandsAt(rest: seq<Lexeme>, eof: Token, sync: Token -> bool, k: nat) {
    Walks(rest, eof, sync, k) && k < |rest| && rest[k].token != eof && sync(rest[k].token)
  }

  /** Nothing synchronises before the end of the input, which is after k lexemes. */
  ghost predicate RunsOutAt(rest: seq<Lexeme>, eof: Token, sync: Token -> bool, k: nat) {
    Walks(rest, eof, sync, k) && (k == |rest| || rest[k].token == eof)
  }

  /** How many lexemes a scan discards before it lands, if it does. */
  ghost function FirstLanding(rest: seq<Lexeme>, eof: Token, sync: Token -> bool): (r: Option<nat>)
    ensures r.Some? ==> LandsAt(rest, eof, sync, r.value)
    ensures r.None? ==> exists k :: 0 <= k <= |rest| && RunsOutAt(rest, eof, sync, k)
  {
    if rest == [] || rest[0].token == eof then
      assert RunsOutAt(rest, eof, sync, 0);
      None
    else if sync(rest[0].token) then Some(0)
    else
      match FirstLanding(rest[1..], eof, sync)
      case Some(n) =>
        WalksOn(rest, eof, sync, n);
        Some(n + 1)
      case None =>
        var k :| 0 <= k <= |rest[1..]| && RunsOutAt(rest[1..], eof, sync, k);
        WalksOn(rest, eof, sync, k);
        assert RunsOutAt(rest, eof, sync, k + 1);
        None
  }

  lemma WalksOn(rest: seq<Lexeme>, eof: Token, sync: Token -> bool, k: nat)
    requires rest != [] && rest[0].token != eof && !sync(rest[0].token) && Walks(rest[1..], eof, sync, k)
    ensures Walks(rest, eof, sync, k + 1)
  {
    forall i | 0 <= i < k + 1 ensures rest[i].token != eof && !sync(rest[i].token) {
      if i > 0 {
        assert rest[i] == rest[1..][i - 1];
      }
    }
  }

  /** The landing is where any scan that lands ends, and there is none when a scan runs out. */
  lemma {:induction false} LandingIs(rest: seq<Lexeme>, eof: Token, sync: Token -> bool, k: nat)
    ensures LandsAt(rest, eof, sync, k) ==> FirstLanding(rest, eof, sync) == Some(k)
    ensures RunsOutAt(rest, eof, sync, k) ==> FirstLanding(rest, eof, sync) == None
  {
    match FirstLanding(rest, eof, sync)
    case Some(n) =>
      assert rest[n].token != eof && sync(rest[n].token);
    case None =>
      var j :| 0 <= j <= |rest| && RunsOutAt(rest, eof, sync, j);
      assert Walks(rest, eof, sync, j);
  }

  ghost function Sync(sets: seq<RecoverySet>, defaults: seq<Token>, consumeOnly: bool): Token -> bool {
    (t: Token) => if consumeOnly then ActiveConsume(sets, defaults, t) else Active(sets, defaults, t)
  }

  method PerformRecoveryDiscardPhase(ts: TokenStream, rc: RecoveryCore, consumeOnly: bool) returns (recovered: bool)
    requires ts.Valid() && rc.Valid()
    modifies ts`cursor, ts`nextVisibleRawIndex, ts`nextVisibleCached
    ensures ts.Valid() && old(ts.cursor) <= ts.cursor
    ensures var sync := Sync(rc.sets, rc.defaultRecovery, consumeOnly);
            if recovered then LandsAt(old(ts.Rest()), ts.eofToken, sync, ts.cursor - old(ts.cursor))
            else RunsOutAt(old(ts.Rest()), ts.eofToken, sync, ts.cursor - old(ts.cursor))
  {
    ghost var rest, sync := ts.Rest(), Sync(rc.sets, rc.defaultRecovery, consumeOnly);
    ghost var start := ts.cursor;
    while true
      invariant ts.Valid() && start <= ts.cursor && Walks(rest, ts.eofToken, sync, ts.cursor - start)
      decreases |ts.lexemes| - ts.cursor
    {
      var cur := ts.PeekRaw(0);
      if cur.token == ts.eofToken {
        return false;
      }
      assert rest[ts.cursor - start] == cur;
      var isSync;
      if consumeOnly {
        isSync := rc.IsActiveConsumeRecoveryToken(cur.token);
      } else {
        isSync := rc.IsActiveRecoveryToken(cur.token);
      }
      if isSync {
        return true;
      }
      cur := ts.ConsumeRaw();
    }
  }

  /**
   Recovery lands on the first raw lexeme at or after the cursor that some active rule, or
   the default set, would consume, and fails exactly when the input ends before one. The
   first phase leaves a failed scan at the end of the input, so the second phase, which
   would also stop at tokens left in place, can never succeed.
   */
  method PerformRecovery(ts: TokenStream, rc: RecoveryCore) returns (recovered: bool)
    requires ts.Valid() && rc.Valid()
    modifies ts`cursor, ts`nextVisibleRawIndex, ts`nextVisibleCached
    ensures ts.Valid() && old(ts.cursor) <= ts.cursor
    ensures var sync := Sync(rc.sets, rc.defaultRecovery, true);
            if recovered then LandsAt(old(ts.Rest()), ts.eofToken, sync, ts.cursor - old(ts.cursor))
            else RunsOutAt(old(ts.Rest()), ts.eofToken, sync, ts.cursor - old(ts.cursor))
  {
    ghost var rest, start := ts.Rest(), ts.cursor;
    recovered := PerformRecoveryDiscardPhase(ts, rc, true);
    if !recovered {
      ghost var middle := ts.cursor;
      assert ts.Rest() == rest[middle - start..];
      recovered := PerformRecoveryDiscardPhase(ts, rc, false);
    }
  }

  /** After a landing: the synchronising lexeme is taken unless its innermost owner leaves it in place. */
  method SettleSyncToken(ts: TokenStream, rc: RecoveryCore) returns (consumeSyncToken: bool)
    requires ts.Valid() && rc.Valid() && ts.cursor < |ts.lexemes|
    modifies ts`cursor, ts`nextVisibleRawIndex, ts`nextVisibleCached
    ensures ts.Valid() && consumeSyncToken == !LeftInPlace(rc.sets, ts.lexemes[old(ts.cursor)].token)
    ensures ts.cursor == if consumeSyncToken then old(ts.cursor) + 1 else old(ts.cursor)
  {
    var syncToken := ts.PeekRaw(0);
    var _, noConsume := rc.RecoveryTokenOwnership(syncToken.token);
    consumeSyncToken := !noConsume;
    if consumeSyncToken {
      var l := ts.ConsumeRaw();
    }
  }

  /** A scan that also stopped at tokens left in place would never go further than recovery does. */
  lemma FullScanStopsNoLater(sets: seq<RecoverySet>, defaults: seq<Token>, rest: seq<Lexeme>, eof: Token, k: nat)
    returns (j: nat)
    requires LandsAt(rest, eof, Sync(sets, defaults, true), k)
    ensures j <= k && LandsAt(rest, eof, Sync(sets, defaults, false), j)
    ensures j < k ==> !ActiveConsume(sets, defaults, rest[j].token)
  {
    var full := Sync(sets, defaults, false);
    assert full(rest[k].token);
    j := 0;
    while j < k && !full(rest[j].token)
      invariant j <= k && Walks(rest, eof, full, j)
    {
      j := j + 1;
    }
  }

  /** The scan as it runs goes over lexeme i: it is ahead of the landing, or of the end of the input when there is none. */
  ghost predicate PassedOver(sets: seq<RecoverySet>, defaults: seq<Token>, rest: seq<Lexeme>, eof: Token, i: nat) {
    i < |rest| && Walks(rest, eof, Sync(sets, defaults, true), i + 1)
  }

  /** Only no-consume sets list the token. */
  ghost predicate OnlyLeft(sets: seq<RecoverySet>, defaults: seq<Token>, t: Token) {
    Active(sets, defaults, t) && !ActiveConsume(sets, defaults, t)
  }

  lemma BothPass(sets: seq<RecoverySet>, defaults: seq<Token>, rest: seq<Lexeme>, eof: Token, k: nat)
    requires Walks(rest, eof, Sync(sets, defaults, true), k)
    requires forall i: nat :: PassedOver(sets, defaults, rest, eof, i) ==> !OnlyLeft(sets, defaults, rest[i].token)
    ensures Walks(rest, eof, Sync(sets, defaults, false), k)
  {
    forall i | 0 <= i < k ensures !Sync(sets, defaults, false)(rest[i].token) {
      assert PassedOver(sets, defaults, rest, eof, i);
    }
  }

  lemma {:induction false} LeftStopsFullScan(sets: seq<RecoverySet>, defaults: seq<Token>, rest: seq<Lexeme>, eof: Token, i: nat)
    requires PassedOver(sets, defaults, rest, eof, i) && OnlyLeft(sets, defaults, rest[i].token)
    ensures FirstLanding(rest, eof, Sync(sets, defaults, false)) != FirstLanding(rest, eof, Sync(sets, defaults, true))
  {
    var run, full := Sync(sets, defaults, true), Sync(sets, defaults, false);
    assert full(rest[i].token);
    var landing := FirstLanding(rest, eof, full);
    if landing.Some? {
      assert landing.value <= i;
      assert !run(rest[landing.value].token);
    }
  }

  /**
   Stopping only at tokens some consume set lists lands where stopping at every active token
   would, or fails with it, exactly when no lexeme passed over is listed by no-consume sets
   alone.
   */
  lemma {:induction false} ScansAgree(sets: seq<RecoverySet>, defaults: seq<Token>, rest: seq<Lexeme>, eof: Token)
    ensures FirstLanding(rest, eof, Sync(sets, defaults, true)) == FirstLanding(rest, eof, Sync(sets, defaults, false)) <==>
            forall i: nat :: PassedOver(sets, defaults, rest, eof, i) ==> !OnlyLeft(sets, defaults, rest[i].token)
  {
    if i: nat :| PassedOver(sets, defaults, rest, eof, i) && OnlyLeft(sets, defaults, rest[i].token) {
      LeftStopsFullScan(sets, defaults, rest, eof, i);
    } else {
      match FirstLanding(rest, eof, Sync(sets, defaults, true))
      case Some(k) =>
        BothPass(sets, defaults, rest, eof, k);
        LandingIs(rest, eof, Sync(sets, defaults, false), k);
      case None =>
        var k :| 0 <= k <= |rest| && RunsOutAt(rest, eof, Sync(sets, defaults, true), k);
        BothPass(sets, defaults, rest, eof, k);
        LandingIs(rest, eof, Sync(sets, defaults, false), k);
    }
  }

  /** An input where they differ: recovery discards a token the running rule asked to leave in place, and fails if no other follows. */
  lemma LeftTokenDiscarded()
    ensures var sets := [RecoverySet([1], [2], false)];
            var rest := [Lexeme(2, 0, 0, 1), Lexeme(1, 0, 1, 2)];
            && LandsAt(rest, 0, Sync(sets, [0], false), 0) && LeftInPlace(sets, rest[0].token)
            && LandsAt(rest, 0, Sync(sets, [0], true), 1)
            && RunsOutAt(rest[..1], 0, Sync(sets, [0], true), 1) && LandsAt(rest[..1], 0, Sync(sets, [0], false), 0)
  {
    var sets := [RecoverySet([1], [2], false)];
    assert 2 in sets[0].noConsume && 1 in sets[0].consume;
    assert InnermostOwner(sets, 2, 0);
    assert Owns(sets[0], 2);
  }
}
