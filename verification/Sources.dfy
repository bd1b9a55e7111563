/**
 Positions in a slice of lexemes as the rules see them: peeking skips hidden lexemes,
 consuming moves just past the next one shown, and what lies between two positions is
 read off as a word of tokens.
 */
module Sources {
  import opened Languages
  import opened Guards
  import opened TokenStreams

  /** What stays fixed while rules run. */
  datatype Source = Source(lexemes: seq<Lexeme>, eof: Token, skip: set<Role>)

  type Position = nat

  predicate Within(src: Source, c: Position) {
    c <= |src.lexemes|
  }

  function PeekAt(src: Source, c: Position, n: nat): Lexeme
    requires Within(src, c)
  {
    Nth(src.lexemes[c..], src.eof, src.skip, n)
  }

  /** The token stream a guard sees from c. */
  function VisibleFrom(src: Source, c: Position): Stream
    requires Within(src, c)
  {
    (n: nat) => PeekAt(src, c, n).token
  }

  function PeekRawAt(src: Source, c: Position): Lexeme {
    Raw(src.lexemes, src.eof, c)
  }

  /** The position after consuming the next lexeme shown; the end of the slice is never passed. */
  function Advance(src: Source, c: Position): (d: Position)
    requires Within(src, c)
    ensures Within(src, d) && c <= d
  {
    var at := c + HiddenRun(src.lexemes[c..], src.eof, src.skip);
    if at < |src.lexemes| then at + 1 else at
  }

  /** The visible tokens of a slice. */
  function TokensOf(ls: seq<Lexeme>, eof: Token, skip: set<Role>): Word {
    if ls == [] then []
    else (if Hidden(ls[0], eof, skip) then [] else [ls[0].token]) + TokensOf(ls[1..], eof, skip)
  }

  /** The visible tokens between two positions. */
  function Taken(src: Source, c: Position, d: Position): Word
    requires c <= d && Within(src, d)
  {
    TokensOf(src.lexemes[c..d], src.eof, src.skip)
  }

  lemma {:induction false} TokensOfAppend(a: seq<Lexeme>, b: seq<Lexeme>, eof: Token, skip: set<Role>)
    ensures TokensOf(a + b, eof, skip) == TokensOf(a, eof, skip) + TokensOf(b, eof, skip)
    decreases |a|
  {
    if a == [] {
      assert a + b == b;
    } else {
      assert (a + b)[1..] == a[1..] + b;
      TokensOfAppend(a[1..], b, eof, skip);
    }
  }

  lemma TakenSplits(src: Source, c: Position, d: Position, e: Position)
    requires c <= d <= e && Within(src, e)
    ensures Taken(src, c, e) == Taken(src, c, d) + Taken(src, d, e)
  {
    assert src.lexemes[c..e] == src.lexemes[c..d] + src.lexemes[d..e];
    TokensOfAppend(src.lexemes[c..d], src.lexemes[d..e], src.eof, src.skip);
  }

  lemma {:induction false} HiddenTakesNothing(ls: seq<Lexeme>, eof: Token, skip: set<Role>)
    requires forall k :: 0 <= k < |ls| ==> Hidden(ls[k], eof, skip)
    ensures TokensOf(ls, eof, skip) == []
    decreases |ls|
  {
    if ls != [] {
      HiddenTakesNothing(ls[1..], eof, skip);
    }
  }

  /** Consuming anything but the end of file moves on and takes exactly the peeked token. */
  lemma AdvanceTakes(src: Source, c: Position)
    requires Within(src, c) && PeekAt(src, c, 0).token != src.eof
    ensures c < Advance(src, c) && Taken(src, c, Advance(src, c)) == [PeekAt(src, c, 0).token]
  {
    var rest := src.lexemes[c..];
    var n := HiddenRun(rest, src.eof, src.skip);
    FirstShown(rest, src.eof, src.skip);
    assert n < |rest| && rest[n] == PeekAt(src, c, 0);
    assert src.lexemes[c..c + n + 1] == rest[..n] + [rest[n]];
    TokensOfAppend(rest[..n], [rest[n]], src.eof, src.skip);
    HiddenTakesNothing(rest[..n], src.eof, src.skip);
    assert TokensOf([rest[n]], src.eof, src.skip) == [rest[n].token];
  }

  lemma TakenNothing(src: Source, c: Position)
    requires Within(src, c)
    ensures Taken(src, c, c) == []
  {
    assert src.lexemes[c..c] == [];
  }

  /** After consuming, the next n-th lexeme is the one that was n + 1 ahead. */
  lemma AdvancePeeks(src: Source, c: Position, n: nat)
    requires Within(src, c) && PeekAt(src, c, 0).token != src.eof
    ensures PeekAt(src, Advance(src, c), n) == PeekAt(src, c, n + 1)
  {
    var rest := src.lexemes[c..];
    FirstShown(rest, src.eof, src.skip);
    var k := HiddenRun(rest, src.eof, src.skip);
    assert src.lexemes[c + k + 1..] == rest[k + 1..];
    EndsAtEof(rest, src.eof);
  }

  /** Consuming the tokens of w one after the other leads from c to d. */
  predicate Reads(src: Source, c: Position, w: Word, d: Position)
    requires Within(src, c)
    decreases |w|
  {
    if w == [] then c == d
    else PeekAt(src, c, 0).token == w[0] != src.eof && Reads(src, Advance(src, c), w[1..], d)
  }

  lemma {:induction false} ReadsTakes(src: Source, c: Position, w: Word, d: Position)
    requires Within(src, c) && Reads(src, c, w, d)
    ensures c <= d && Within(src, d) && Taken(src, c, d) == w
    decreases |w|
  {
    if w == [] {
      TakenNothing(src, c);
    } else {
      AdvanceTakes(src, c);
      ReadsTakes(src, Advance(src, c), w[1..], d);
      TakenSplits(src, c, Advance(src, c), d);
      assert w == [w[0]] + w[1..];
    }
  }

  lemma {:induction false} ReadsAppend(src: Source, c: Position, u: Word, d: Position, v: Word, e: Position)
    requires Within(src, c) && Within(src, d) && Reads(src, c, u, d) && Reads(src, d, v, e)
    ensures Reads(src, c, u + v, e)
    decreases |u|
  {
    if u == [] {
      assert u + v == v;
    } else {
      assert (u + v)[1..] == u[1..] + v;
      ReadsAppend(src, Advance(src, c), u[1..], d, v, e);
    }
  }

  lemma {:induction false} ReadsOne(src: Source, c: Position)
    requires Within(src, c) && PeekAt(src, c, 0).token != src.eof
    ensures Reads(src, c, [PeekAt(src, c, 0).token], Advance(src, c))
  {
    assert [PeekAt(src, c, 0).token][1..] == [];
  }

  // ------------------------------------------------------ the running token stream

  ghost function SourceOf(ts: TokenStream): Source
    reads ts
  {
    Source(ts.lexemes, ts.eofToken, Skipped(ts.skips))
  }

  ghost predicate At(ts: TokenStream, src: Source, c: Position)
    reads ts
  {
    ts.Valid() && SourceOf(ts) == src && ts.cursor == c && Within(src, c)
  }

  method PeekVisible(ts: TokenStream, ghost src: Source, ghost c: Position, n: nat) returns (l: Lexeme)
    requires At(ts, src, c)
    modifies ts`nextVisibleRawIndex, ts`nextVisibleCached
    ensures At(ts, src, c) && l == PeekAt(src, c, n)
  {
    l := ts.Peek(n);
  }

  method ConsumeVisible(ts: TokenStream, ghost src: Source, ghost c: Position) returns (l: Lexeme)
    requires At(ts, src, c)
    modifies ts`cursor, ts`nextVisibleRawIndex, ts`nextVisibleCached
    ensures At(ts, src, Advance(src, c)) && l == PeekAt(src, c, 0)
  {
    l := ts.Consume();
  }
}
