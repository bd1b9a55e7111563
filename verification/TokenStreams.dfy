/**
 The token stream over a slice of lexemes: a shared cursor, a cache of the next visible
 position, and a stack of skipped roles of which only the top one counts.
 */
module TokenStreams {
  import opened Languages

  /** lexarch.TokenRole. */
  type Role = int

  datatype Lexeme = Lexeme(token: Token, role: Role, start: nat, end: nat)

  /** What the source reports past its end; its Start is zero. */
  function EofLexeme(eof: Token): Lexeme {
    Lexeme(eof, 0, 0, 0)
  }

  function Raw(s: seq<Lexeme>, eof: Token, i: nat): Lexeme {
    if i < |s| then s[i] else EofLexeme(eof)
  }

  /** The roles skipped now. */
  function Skipped(skips: seq<set<Role>>): set<Role> {
    if skips == [] then {} else skips[|skips| - 1]
  }

  predicate Hidden(l: Lexeme, eof: Token, skip: set<Role>) {
    l.token != eof && l.role in skip
  }

  // ------------------------------------------------------------ the filtered view

  /** The lexemes up to the first end of file, without the skipped roles. */
  function Visible(s: seq<Lexeme>, eof: Token, skip: set<Role>): seq<Lexeme> {
    if s == [] || s[0].token == eof then []
    else if s[0].role in skip then Visible(s[1..], eof, skip)
    else [s[0]] + Visible(s[1..], eof, skip)
  }

  /** The end of file that closes the filtered view. */
  function EndOf(s: seq<Lexeme>, eof: Token): Lexeme {
    if s == [] then EofLexeme(eof) else if s[0].token == eof then s[0] else EndOf(s[1..], eof)
  }

  /** The n-th element of the filtered view, or its end of file. */
  function Nth(s: seq<Lexeme>, eof: Token, skip: set<Role>, n: nat): Lexeme {
    var v := Visible(s, eof, skip);
    if n < |v| then v[n] else EndOf(s, eof)
  }

  /** How many hidden lexemes stand before the first one shown. */
  function HiddenRun(s: seq<Lexeme>, eof: Token, skip: set<Role>): (n: nat)
    ensures n <= |s| && (n < |s| ==> !Hidden(s[n], eof, skip))
    ensures forall k :: 0 <= k < n ==> Hidden(s[k], eof, skip)
  {
    if s == [] || !Hidden(s[0], eof, skip) then 0 else 1 + HiddenRun(s[1..], eof, skip)
  }

  lemma {:induction false} HiddenRunIs(s: seq<Lexeme>, eof: Token, skip: set<Role>, n: nat)
    requires n <= |s| && (forall k :: 0 <= k < n ==> Hidden(s[k], eof, skip))
    requires n == |s| || !Hidden(s[n], eof, skip)
    ensures HiddenRun(s, eof, skip) == n
    decreases n
  {
    if n > 0 {
      HiddenRunIs(s[1..], eof, skip, n - 1);
    }
  }

  /** Hidden lexemes at the front do not show. */
  lemma {:induction false} DropHidden(s: seq<Lexeme>, eof: Token, skip: set<Role>, n: nat)
    requires n <= |s| && forall k :: 0 <= k < n ==> Hidden(s[k], eof, skip)
    ensures Visible(s[n..], eof, skip) == Visible(s, eof, skip) && EndOf(s[n..], eof) == EndOf(s, eof)
    decreases n
  {
    if n > 0 {
      DropHidden(s[1..], eof, skip, n - 1);
      assert s[1..][n - 1..] == s[n..];
    } else {
      assert s[0..] == s;
    }
  }

  /** The first lexeme after the hidden ones is what Peek(0) promises; what follows it is the rest of the view. */
  lemma {:induction false} FirstShown(s: seq<Lexeme>, eof: Token, skip: set<Role>)
    ensures var n := HiddenRun(s, eof, skip);
            && Raw(s, eof, n) == Nth(s, eof, skip, 0)
            && (Raw(s, eof, n).token == eof <==> Visible(s, eof, skip) == [])
            && (Visible(s, eof, skip) != [] ==> n < |s| && Visible(s[n + 1..], eof, skip) == Visible(s, eof, skip)[1..]
                                                && EndOf(s[n + 1..], eof) == EndOf(s, eof))
  {
    var n := HiddenRun(s, eof, skip);
    DropHidden(s, eof, skip, n);
    if n < |s| {
      assert s[n..][0] == s[n] && s[n..][1..] == s[n + 1..];
    }
    EndsAtEof(s, eof);
    NothingVisibleIsEof(s, eof, skip);
  }

  lemma {:induction false} EndsAtEof(s: seq<Lexeme>, eof: Token)
    ensures EndOf(s, eof).token == eof
  {
    if s != [] && s[0].token != eof {
      EndsAtEof(s[1..], eof);
    }
  }

  lemma {:induction false} NothingVisibleIsEof(s: seq<Lexeme>, eof: Token, skip: set<Role>)
    ensures forall k :: 0 <= k < |Visible(s, eof, skip)| ==>
              Visible(s, eof, skip)[k].token != eof && Visible(s, eof, skip)[k].role !in skip
  {
    if s != [] && s[0].token != eof {
      NothingVisibleIsEof(s[1..], eof, skip);
    }
  }

  /** How the n-th element moves when the scan passes position i. */
  lemma NthStep(s: seq<Lexeme>, eof: Token, skip: set<Role>, i: nat, n: nat)
    requires i <= |s|
    ensures var l := Raw(s, eof, i);
            if l.token == eof then Nth(s[i..], eof, skip, n) == l
            else i < |s| &&
                 if l.role in skip then Nth(s[i..], eof, skip, n) == Nth(s[i + 1..], eof, skip, n)
                 else if n == 0 then Nth(s[i..], eof, skip, n) == l
                 else Nth(s[i..], eof, skip, n) == Nth(s[i + 1..], eof, skip, n - 1)
  {
    if i < |s| {
      assert s[i..][0] == s[i] && s[i..][1..] == s[i + 1..];
    }
  }

  // -------------------------------------------------------------------- the stream

  /** The cached offset, when marked valid, points at the first lexeme shown. */
  ghost predicate Coherent(s: seq<Lexeme>, eof: Token, skip: set<Role>, cursor: nat, cached: bool, index: nat) {
    cursor <= |s| && (cached ==> index == HiddenRun(s[cursor..], eof, skip))
  }

  /** The token part of a parser snapshot. */
  datatype Snapshot = Snapshot(tokenIndex: nat, nextVisibleRawIndex: nat, nextVisibleCached: bool)

  class TokenStream {
    const lexemes: seq<Lexeme>
    const eofToken: Token
    var cursor: nat
    var skips: seq<set<Role>>
    var nextVisibleRawIndex: nat
    var nextVisibleCached: bool

    constructor (lexemes: seq<Lexeme>, eofToken: Token)
      ensures this.lexemes == lexemes && this.eofToken == eofToken && Valid()
      ensures cursor == 0 && skips == [] && Rest() == lexemes
    {
      this.lexemes, this.eofToken := lexemes, eofToken;
      cursor, skips, nextVisibleRawIndex, nextVisibleCached := 0, [], 0, false;
    }

    ghost predicate Valid()
      reads this
    {
      Coherent(lexemes, eofToken, Skipped(skips), cursor, nextVisibleCached, nextVisibleRawIndex)
    }

    /** What is still to read. */
    ghost function Rest(): seq<Lexeme>
      reads this
      requires cursor <= |lexemes|
    {
      lexemes[cursor..]
    }

    ghost function View(): seq<Lexeme>
      reads this
      requires cursor <= |lexemes|
    {
      Visible(Rest(), eofToken, Skipped(skips))
    }

    /** The slice source: past the end it reports end of file. */
    method PeekRaw(n: nat) returns (l: Lexeme)
      requires Valid()
      ensures l == Raw(Rest(), eofToken, n)
    {
      if cursor + n >= |lexemes| { return EofLexeme(eofToken); }
      return lexemes[cursor + n];
    }

    method InvalidatePeekCache()
      modifies `nextVisibleRawIndex, `nextVisibleCached
      ensures !nextVisibleCached
    {
      nextVisibleCached, nextVisibleRawIndex := false, 0;
    }

    /** Takes one raw lexeme, skipped or not; the end of the slice is never passed. */
    method ConsumeRaw() returns (l: Lexeme)
      requires Valid()
      modifies `cursor, `nextVisibleRawIndex, `nextVisibleCached
      ensures Valid() && l == Raw(old(Rest()), eofToken, 0)
      ensures cursor == if old(cursor) < |lexemes| then old(cursor) + 1 else old(cursor)
    {
      l := PeekRaw(0);
      if cursor < |lexemes| { cursor := cursor + 1; }
      InvalidatePeekCache();
    }

    predicate IsSkipped(role: Role)
      reads this
    {
      role in Skipped(skips)
    }

    method ResolveNextVisibleRaw() returns (l: Lexeme, rawIndex: nat)
      requires Valid()
      ensures rawIndex == HiddenRun(Rest(), eofToken, Skipped(skips)) && l == Raw(Rest(), eofToken, rawIndex)
    {
      rawIndex := 0;
      l := PeekRaw(0);
      while l.token != eofToken && IsSkipped(l.role)
        invariant rawIndex <= |Rest()| && l == Raw(Rest(), eofToken, rawIndex)
        invariant forall k :: 0 <= k < rawIndex ==> Hidden(Rest()[k], eofToken, Skipped(skips))
        decreases |Rest()| - rawIndex
      {
        rawIndex := rawIndex + 1;
        l := PeekRaw(rawIndex);
      }
      HiddenRunIs(Rest(), eofToken, Skipped(skips), rawIndex);
    }

    /** Throws away the hidden lexemes at the cursor; the filtered view stays. */
    method SkipForward()
      requires Valid()
      modifies `cursor, `nextVisibleRawIndex, `nextVisibleCached
      ensures Valid() && cursor == old(cursor) + HiddenRun(old(Rest()), eofToken, Skipped(skips))
    {
      ghost var before := Rest();
      ghost var start := cursor;
      var l := PeekRaw(0);
      while l.token != eofToken && IsSkipped(l.role)
        invariant Valid() && start <= cursor && skips == old(skips)
        invariant l == Raw(Rest(), eofToken, 0) && Rest() == before[cursor - start..]
        invariant forall k :: 0 <= k < cursor - start ==> Hidden(before[k], eofToken, Skipped(skips))
        decreases |lexemes| - cursor
      {
        assert before[cursor - start] == l;
        l := ConsumeRaw();
        l := PeekRaw(0);
      }
      if cursor < |lexemes| {
        assert before[cursor - start] == l;
      }
      HiddenRunIs(before, eofToken, Skipped(skips), cursor - start);
      HiddenRunIs(Rest(), eofToken, Skipped(skips), 0);
      nextVisibleRawIndex, nextVisibleCached := 0, true;
    }

    /** Counts n shown lexemes from a raw offset on. */
    method ScanVisible(from: nat, n: nat) returns (l: Lexeme)
      requires Valid() && from <= |Rest()|
      ensures l == Nth(Rest()[from..], eofToken, Skipped(skips), n)
    {
      ghost var rest, skip := Rest(), Skipped(skips);
      var i, left := from, n;
      l := PeekRaw(i);
      NthStep(rest, eofToken, skip, i, left);
      while l.token != eofToken && (IsSkipped(l.role) || left > 0)
        invariant i <= |rest| && l == Raw(rest, eofToken, i)
        invariant Nth(rest[i..], eofToken, skip, left) == Nth(rest[from..], eofToken, skip, n)
        decreases |rest| - i
      {
        NthStep(rest, eofToken, skip, i, left);
        if !IsSkipped(l.role) {
          left := left - 1;
        }
        i := i + 1;
        l := PeekRaw(i);
      }
      NthStep(rest, eofToken, skip, i, left);
    }

    /** Peek(n) is the n-th element of the filtered view, or its end of file, whatever the cache holds. */
    method Peek(n: nat) returns (l: Lexeme)
      requires Valid()
      modifies `nextVisibleRawIndex, `nextVisibleCached
      ensures Valid() && l == Nth(Rest(), eofToken, Skipped(skips), n)
    {
      ghost var rest, skip := Rest(), Skipped(skips);
      if !nextVisibleCached {
        var _, rawIndex := ResolveNextVisibleRaw();
        nextVisibleRawIndex, nextVisibleCached := rawIndex, true;
      }
      if n == 0 {
        FirstShown(rest, eofToken, skip);
        l := PeekRaw(nextVisibleRawIndex);
        return;
      }
      DropHidden(rest, eofToken, skip, nextVisibleRawIndex);
      l := ScanVisible(nextVisibleRawIndex, n);
    }

    /** Consume returns what Peek(0) promised and moves just past it: the view loses its first element. */
    method Consume() returns (l: Lexeme)
      requires Valid()
      modifies `cursor, `nextVisibleRawIndex, `nextVisibleCached
      ensures Valid() && l == Nth(old(Rest()), eofToken, Skipped(skips), 0)
      ensures old(View()) != [] ==> View() == old(View())[1..]
      ensures var at := old(cursor) + HiddenRun(old(Rest()), eofToken, Skipped(skips));
              cursor == if at < |lexemes| then at + 1 else at
    {
      ghost var before := Rest();
      FirstShown(before, eofToken, Skipped(skips));
      SkipForward();
      ghost var n := HiddenRun(before, eofToken, Skipped(skips));
      assert Raw(Rest(), eofToken, 0) == Raw(before, eofToken, n);
      l := ConsumeRaw();
      assert n < |before| ==> Rest() == before[n + 1..];
    }

    method PushSkipRoles(roles: seq<Role>)
      requires Valid()
      modifies `skips, `nextVisibleRawIndex, `nextVisibleCached
      ensures Valid() && skips == old(skips) + [set r | r in roles] && Skipped(skips) == set r | r in roles
    {
      skips := skips + [set r | r in roles];
      InvalidatePeekCache();
    }

    method PopSkipRoles()
      requires Valid()
      modifies `skips, `nextVisibleRawIndex, `nextVisibleCached
      ensures Valid() && skips == if old(skips) == [] then [] else old(skips)[..|old(skips)| - 1]
    {
      if |skips| > 0 {
        skips := skips[..|skips| - 1];
        InvalidatePeekCache();
      }
    }

    method Save() returns (snap: Snapshot)
      requires Valid()
      ensures snap.tokenIndex == cursor && FitsNow(snap)
    {
      snap := Snapshot(cursor, nextVisibleRawIndex, nextVisibleCached);
    }

    /** The snapshot's cache agrees with the roles skipped now. */
    ghost predicate FitsNow(snap: Snapshot)
      reads this
    {
      Coherent(lexemes, eofToken, Skipped(skips), snap.tokenIndex, snap.nextVisibleCached, snap.nextVisibleRawIndex)
    }

    /** Puts back cursor and cache; they stay coherent exactly when the snapshot fits the roles skipped now. */
    method Restore(snap: Snapshot)
      modifies `cursor, `nextVisibleRawIndex, `nextVisibleCached
      ensures cursor == snap.tokenIndex && (Valid() <==> FitsNow(snap))
      ensures nextVisibleRawIndex == snap.nextVisibleRawIndex && nextVisibleCached == snap.nextVisibleCached
    {
      cursor := snap.tokenIndex;
      nextVisibleRawIndex, nextVisibleCached := snap.nextVisibleRawIndex, snap.nextVisibleCached;
    }
  }

  /** A snapshot saved under one set of skipped roles fits every later moment with the same set. */
  lemma SnapshotKeepsFitting(s: seq<Lexeme>, eof: Token, snap: Snapshot, earlier: seq<set<Role>>, later: seq<set<Role>>)
    requires Coherent(s, eof, Skipped(earlier), snap.tokenIndex, snap.nextVisibleCached, snap.nextVisibleRawIndex)
    requires Skipped(earlier) == Skipped(later)
    ensures Coherent(s, eof, Skipped(later), snap.tokenIndex, snap.nextVisibleCached, snap.nextVisibleRawIndex)
  {
  }
}
