/**
 The error sink as the parser runs it: one flat buffer of uncommitted errors, with frames
 and delimiter boundaries that remember where in the buffer they were opened.
 */
module ErrorBuffer {
  import opened Grammars
  import opened ErrorScopes

  datatype ErrorFrame = ErrorFrame(best: SyntaxError, hasBest: bool, bestAbsolutePosition: nat, commitStartIndex: nat)

  datatype DelimiterBoundary = DelimiterBoundary(regionStart: nat, flightAtOpen: nat)

  const NO_ERROR := SyntaxError(false, 0, "")

  function FrameOf(best: Option<SyntaxError>, start: nat): ErrorFrame {
    if best.Some? then ErrorFrame(best.value, true, best.value.position, start) else ErrorFrame(NO_ERROR, false, 0, start)
  }

  // ---------------------------------------------------- the flat form of a nesting

  function Flight(entries: seq<Entry>): seq<SyntaxError>
    decreases |entries|
  {
    if entries == [] then [] else Flight(entries[..|entries| - 1]) + entries[|entries| - 1].errs
  }

  function Frames(entries: seq<Entry>): seq<ErrorFrame>
    decreases |entries|
  {
    if entries == [] then [] else
    var below, top := entries[..|entries| - 1], entries[|entries| - 1];
    Frames(below) + if top.Scope? then [FrameOf(top.best, |Flight(below)|)] else []
  }

  function Boundaries(entries: seq<Entry>): seq<DelimiterBoundary>
    decreases |entries|
  {
    if entries == [] then [] else
    var below, top := entries[..|entries| - 1], entries[|entries| - 1];
    Boundaries(below) + if top.Region? then [DelimiterBoundary(top.start, |Flight(below)|)] else []
  }

  lemma {:induction false} FlattenAppend(entries: seq<Entry>, e: Entry)
    ensures Flight(entries + [e]) == Flight(entries) + e.errs
    ensures Frames(entries + [e]) == Frames(entries) + if e.Scope? then [FrameOf(e.best, |Flight(entries)|)] else []
    ensures Boundaries(entries + [e]) ==
            Boundaries(entries) + if e.Region? then [DelimiterBoundary(e.start, |Flight(entries)|)] else []
    ensures HasScope(entries + [e]) == (e.Scope? || HasScope(entries))
  {
    LastOf(entries, e);
  }

  lemma FlattenTop(entries: seq<Entry>)
    requires entries != []
    ensures var below, top := entries[..|entries| - 1], entries[|entries| - 1];
            && entries == below + [top]
            && Flight(entries) == Flight(below) + top.errs
            && Frames(entries) == (Frames(below) + if top.Scope? then [FrameOf(top.best, |Flight(below)|)] else [])
            && Boundaries(entries) == (Boundaries(below) + if top.Region? then [DelimiterBoundary(top.start, |Flight(below)|)] else [])
  {
  }

  lemma {:induction false} FlattenAddErrs(entries: seq<Entry>, errs: seq<SyntaxError>)
    requires entries != []
    ensures Flight(AddErrs(entries, errs)) == Flight(entries) + errs
    ensures Frames(AddErrs(entries, errs)) == Frames(entries)
    ensures Boundaries(AddErrs(entries, errs)) == Boundaries(entries)
  {
    var n := |entries| - 1;
    FlattenTop(entries);
    FlattenAppend(entries[..n], entries[n].(errs := entries[n].errs + errs));
    assert Flight(entries[..n]) + (entries[n].errs + errs) == Flight(entries[..n]) + entries[n].errs + errs;
  }

  function TopFrame(entries: seq<Entry>): ErrorFrame {
    var fs := Frames(entries);
    if fs == [] then FrameOf(None, 0) else fs[|fs| - 1]
  }

  lemma {:induction false} FramesScope(entries: seq<Entry>)
    ensures HasScope(entries) <==> Frames(entries) != []
    ensures HasScope(entries) ==> TopFrame(entries) == FrameOf(BestOf(entries), TopFrame(entries).commitStartIndex)
    decreases |entries|
  {
    if entries != [] {
      FlattenTop(entries);
      FramesScope(entries[..|entries| - 1]);
    }
  }

  lemma {:induction false} FlattenSetBest(entries: seq<Entry>, best: Option<SyntaxError>)
    requires HasScope(entries)
    ensures Flight(SetBest(entries, best)) == Flight(entries)
    ensures Boundaries(SetBest(entries, best)) == Boundaries(entries)
    ensures Frames(entries) != []
    ensures var n := |Frames(entries)| - 1;
            Frames(SetBest(entries, best)) == Frames(entries)[n := FrameOf(best, Frames(entries)[n].commitStartIndex)]
    decreases |entries|
  {
    var below, e := entries[..|entries| - 1], entries[|entries| - 1];
    FlattenTop(entries);
    Appended(below, e, best);
    if e.Scope? {
      FlattenAppend(below, e.(best := best));
    } else {
      FlattenSetBest(below, best);
      FlattenAppend(SetBest(below, best), e);
    }
  }

  lemma {:induction false} OutsideNothingHeld(entries: seq<Entry>)
    requires WellFormed(entries) && !HasScope(entries)
    ensures Flight(entries) == []
    decreases |entries|
  {
    if entries != [] {
      OutsideNothingHeld(entries[..|entries| - 1]);
    }
  }

  lemma {:induction false} WellFormedAppend(entries: seq<Entry>, e: Entry)
    requires WellFormed(entries) && (e.errs == [] || e.Scope? || HasScope(entries))
    ensures WellFormed(entries + [e])
  {
    LastOf(entries, e);
  }

  lemma {:induction false} WellFormedAddErrs(entries: seq<Entry>, errs: seq<SyntaxError>)
    requires WellFormed(entries) && HasScope(entries)
    ensures WellFormed(AddErrs(entries, errs))
  {
    var n := |entries| - 1;
    WellFormedAppend(entries[..n], entries[n].(errs := entries[n].errs + errs));
  }

  lemma {:induction false} WellFormedSetBest(entries: seq<Entry>, best: Option<SyntaxError>)
    requires WellFormed(entries) && HasScope(entries)
    ensures WellFormed(SetBest(entries, best))
    decreases |entries|
  {
    var n := |entries| - 1;
    if entries[n].Scope? {
      WellFormedAppend(entries[..n], entries[n].(best := best));
    } else {
      WellFormedSetBest(entries[..n], best);
      SetBestTwice(entries[..n], best, best);
      WellFormedAppend(SetBest(entries[..n], best), entries[n]);
    }
  }

  lemma {:induction false} CommitBelow(below: seq<Entry>, errs: seq<SyntaxError>)
    requires WellFormed(below) && HasScope(below)
    ensures WellFormed(AddErrs(below, errs)) && Flight(AddErrs(below, errs)) == Flight(below) + errs
    ensures Frames(AddErrs(below, errs)) == Frames(below) && Boundaries(AddErrs(below, errs)) == Boundaries(below)
  {
    FlattenAddErrs(below, errs);
    WellFormedAddErrs(below, errs);
  }

  /** The flat fields without their innermost scope. */
  lemma WithoutTopScope(entries: seq<Entry>)
    requires entries != [] && entries[|entries| - 1].Scope?
    ensures var below, top := entries[..|entries| - 1], entries[|entries| - 1];
            && Frames(entries) == Frames(below) + [FrameOf(top.best, |Flight(below)|)]
            && Flight(entries) == Flight(below) + top.errs && Boundaries(entries) == Boundaries(below)
            && (HasScope(below) <==> |Frames(below)| > 0)
  {
    FlattenTop(entries);
    FramesScope(entries[..|entries| - 1]);
  }

  ghost predicate AllScopes(entries: seq<Entry>) {
    forall i :: 0 <= i < |entries| ==> entries[i].Scope?
  }

  lemma PopKeepsScopes(n: Nested)
    requires AllScopes(n.entries) && n.entries != []
    ensures AllScopes(PopScope(n, true).entries) && |PopScope(n, true).entries| == |n.entries| - 1
  {
    var r := PopScope(n, true);
    forall i | 0 <= i < |r.entries| ensures r.entries[i].Scope? {
      assert n.entries[i].Scope?;
    }
  }

  /** What the open scopes hold, in the order a full commit publishes it: a scope's best follows all it encloses. */
  function Held(entries: seq<Entry>): seq<SyntaxError> {
    if entries == [] then []
    else entries[0].errs + Held(entries[1..]) + (if entries[0].Scope? then AsList(entries[0].best) else [])
  }

  /** Handing errors to the innermost entry inserts them just before that entry's own best. */
  lemma {:induction false} HeldMerge(below: seq<Entry>, top: Entry)
    requires AllScopes(below) && below != [] && top.Scope?
    ensures Held(AddErrs(below, top.errs + AsList(top.best))) == Held(below + [top])
    decreases |below|
  {
    var extra := top.errs + AsList(top.best);
    var merged := AddErrs(below, extra);
    assert (below + [top])[1..] == below[1..] + [top];
    if |below| == 1 {
      assert Held([top]) == top.errs + Held([]) + AsList(top.best);
      assert below[1..] + [top] == [top] && merged[1..] == [];
      assert merged[0].errs == below[0].errs + extra;
    } else {
      assert merged[1..] == AddErrs(below[1..], extra) && merged[0] == below[0];
      HeldMerge(below[1..], top);
    }
  }

  /** Committing the innermost scope neither loses, adds nor reorders an error that will be published. */
  lemma CommitKeepsHeld(n: Nested)
    requires AllScopes(n.entries) && n.entries != []
    ensures var r := PopScope(n, true); r.errors + Held(r.entries) == n.errors + Held(n.entries)
  {
    var top, below := n.entries[|n.entries| - 1], n.entries[..|n.entries| - 1];
    assert n.entries == below + [top];
    if below == [] {
      assert n.entries[1..] == [];
      assert Held(n.entries) == top.errs + Held([]) + AsList(top.best);
    } else {
      assert below[|below| - 1].Scope?;
      HeldMerge(below, top);
    }
  }

  lemma Publish(errors: seq<SyntaxError>, e: Entry, flight: seq<SyntaxError>)
    requires e.Scope? && flight == [] + (e.errs + AsList(e.best))
    ensures errors + flight == errors + e.errs + AsList(e.best)
  {
  }

  // ------------------------------------------------------------- the nested queries

  predicate ReachesInto(errs: seq<SyntaxError>, start: nat) {
    exists i :: 0 <= i < |errs| && errs[i].position >= start
  }

  /** The errors committed since the innermost region was opened. */
  function SinceRegion(entries: seq<Entry>): seq<SyntaxError>
    decreases |entries|
  {
    if entries == [] then [] else
    var below, top := entries[..|entries| - 1], entries[|entries| - 1];
    (if top.Region? then [] else SinceRegion(below)) + top.errs
  }

  function InnermostRegion(entries: seq<Entry>): Option<nat>
    decreases |entries|
  {
    if entries == [] then None
    else if entries[|entries| - 1].Region? then Some(entries[|entries| - 1].start)
    else InnermostRegion(entries[..|entries| - 1])
  }

  predicate HoldsBestFrom(e: Entry, start: nat) {
    e.Scope? && e.best.Some? && e.best.value.position >= start
  }

  predicate SomeBestFrom(entries: seq<Entry>, start: nat) {
    exists i :: 0 <= i < |entries| && HoldsBestFrom(entries[i], start)
  }

  /** An error committed inside the innermost region, or still held by a scope, lies in the region. */
  predicate ErrorInsideRegion(entries: seq<Entry>) {
    InnermostRegion(entries).Some? &&
    (ReachesInto(SinceRegion(entries), InnermostRegion(entries).value) || SomeBestFrom(entries, InnermostRegion(entries).value))
  }

  /** In a region into which errs were committed, with the given reports made meanwhile, the query looks at nothing else. */
  lemma {:induction false} RegionQuery(n: Nested, start: nat, errs: seq<SyntaxError>, reports: seq<SyntaxError>)
    requires HasScope(n.entries)
    ensures var r := Effect(PushRegion(n, start), errs, reports);
            ErrorInsideRegion(r.entries) <==>
              || (exists err :: err in errs && err.position >= start)
              || (exists i :: 0 <= i < |r.entries| && r.entries[i].Scope? && r.entries[i].best.Some? && r.entries[i].best.value.position >= start)
  {
    LastOf(n.entries, Region(start, []));
    var r := Effect(PushRegion(n, start), errs, reports);
    var open := SetBest(n.entries, Furthest(BestOf(n.entries), reports));
    assert r.entries == open + [Region(start, errs)] by {
      Appended(n.entries, Region(start, []), Furthest(BestOf(n.entries), reports));
      LastOf(open, Region(start, []));
      assert [] + errs == errs;
    }
    LastOf(open, Region(start, errs));
    assert SinceRegion(r.entries) == errs && InnermostRegion(r.entries) == Some(start);
    forall i | 0 <= i < |r.entries|
      ensures HoldsBestFrom(r.entries[i], start) <==>
              r.entries[i].Scope? && r.entries[i].best.Some? && r.entries[i].best.value.position >= start
    {
    }
  }

  /**
   Inside a region, after any properly nested run in it, the query answers whether the run
   committed an error at or behind the region's start, or some open scope holds one there.
   */
  lemma {:induction false} RegionNotices(n: Nested, start: nat, steps: seq<Step>)
    requires HasScope(n.entries)
    ensures var r := Run(PushRegion(n, start), steps);
            ErrorInsideRegion(r.entries) <==>
              || (exists err :: err in Committed(steps) && err.position >= start)
              || (exists i :: 0 <= i < |r.entries| && r.entries[i].Scope? && r.entries[i].best.Some? && r.entries[i].best.value.position >= start)
  {
    LastOf(n.entries, Region(start, []));
    RunEffect(PushRegion(n, start), steps);
    RegionQuery(n, start, Committed(steps), Reported(steps));
  }

  /** The errors committed since the innermost scope was opened. */
  function SinceScope(entries: seq<Entry>): seq<SyntaxError>
    decreases |entries|
  {
    if entries == [] then [] else
    var below, top := entries[..|entries| - 1], entries[|entries| - 1];
    (if top.Scope? then [] else SinceScope(below)) + top.errs
  }

  lemma {:induction false} TopFrameView(entries: seq<Entry>)
    requires HasScope(entries)
    ensures var at := TopFrame(entries).commitStartIndex;
            at <= |Flight(entries)| && Flight(entries)[at..] == SinceScope(entries)
    decreases |entries|
  {
    var n := |entries| - 1;
    FlattenTop(entries);
    if entries[n].Scope? {
      assert Flight(entries)[|Flight(entries[..n])|..] == entries[n].errs;
    } else {
      FramesScope(entries[..n]);
      TopFrameView(entries[..n]);
      var at := TopFrame(entries).commitStartIndex;
      assert Flight(entries)[at..] == Flight(entries[..n])[at..] + entries[n].errs;
    }
  }

  lemma {:induction false} BoundaryView(entries: seq<Entry>)
    ensures InnermostRegion(entries).Some? <==> Boundaries(entries) != []
    ensures Boundaries(entries) != [] ==>
              var b := Boundaries(entries)[|Boundaries(entries)| - 1];
              && InnermostRegion(entries) == Some(b.regionStart)
              && b.flightAtOpen <= |Flight(entries)| && Flight(entries)[b.flightAtOpen..] == SinceRegion(entries)
    decreases |entries|
  {
    if entries != [] {
      var n := |entries| - 1;
      FlattenTop(entries);
      BoundaryView(entries[..n]);
      if entries[n].Region? {
        assert Flight(entries)[|Flight(entries[..n])|..] == entries[n].errs;
      } else if Boundaries(entries[..n]) != [] {
        var at := Boundaries(entries)[|Boundaries(entries)| - 1].flightAtOpen;
        assert Flight(entries)[at..] == Flight(entries[..n])[at..] + entries[n].errs;
      }
    }
  }

  predicate FrameReachesFrom(f: ErrorFrame, start: nat) {
    f.hasBest && f.bestAbsolutePosition >= start
  }

  predicate SomeFrameFrom(frames: seq<ErrorFrame>, start: nat) {
    exists i :: 0 <= i < |frames| && FrameReachesFrom(frames[i], start)
  }

  lemma SomeBestAppend(below: seq<Entry>, top: Entry, start: nat)
    ensures SomeBestFrom(below + [top], start) <==> SomeBestFrom(below, start) || HoldsBestFrom(top, start)
  {
    var entries := below + [top];
    if i :| 0 <= i < |below| && HoldsBestFrom(below[i], start) {
      assert HoldsBestFrom(entries[i], start);
    }
    if HoldsBestFrom(top, start) {
      assert HoldsBestFrom(entries[|below|], start);
    }
  }

  lemma SomeFrameAppend(frames: seq<ErrorFrame>, f: ErrorFrame, start: nat)
    ensures SomeFrameFrom(frames + [f], start) <==> SomeFrameFrom(frames, start) || FrameReachesFrom(f, start)
  {
    var all := frames + [f];
    if i :| 0 <= i < |frames| && FrameReachesFrom(frames[i], start) {
      assert FrameReachesFrom(all[i], start);
    }
    if FrameReachesFrom(f, start) {
      assert FrameReachesFrom(all[|frames|], start);
    }
  }

  lemma {:induction false} FramesHoldBests(entries: seq<Entry>, start: nat)
    ensures SomeBestFrom(entries, start) <==> SomeFrameFrom(Frames(entries), start)
    decreases |entries|
  {
    if entries != [] {
      var below, top := entries[..|entries| - 1], entries[|entries| - 1];
      FlattenTop(entries);
      FramesHoldBests(below, start);
      SomeBestAppend(below, top, start);
      if top.Scope? {
        SomeFrameAppend(Frames(below), FrameOf(top.best, |Flight(below)|), start);
      } else {
        assert Frames(entries) == Frames(below);
      }
      assert entries == below + [top];
    }
  }

  // ------------------------------------------------------------------ the flat sink

  class SyntaxErrors {
    var Errors: seq<SyntaxError>
    var stack: seq<ErrorFrame>
    var flight: seq<SyntaxError>
    var delimiterBoundaries: seq<DelimiterBoundary>
    var entryRuleScopeDepth: nat
    var entryRuleFlightBaseline: nat
    ghost var entries: seq<Entry>

    /** The flat fields are the flat form of the nesting. */
    ghost predicate Valid()
      reads this
    {
      WellFormed(entries) && stack == Frames(entries) && flight == Flight(entries) && delimiterBoundaries == Boundaries(entries)
    }

    ghost function View(): Nested
      reads this
    {
      Nested(Errors, entries)
    }

    constructor ()
      ensures Valid() && View() == Nested([], []) && entryRuleScopeDepth == 0 && entryRuleFlightBaseline == 0
    {
      Errors, stack, flight, delimiterBoundaries := [], [], [], [];
      entryRuleScopeDepth, entryRuleFlightBaseline := 0, 0;
      entries := [];
    }

    method PushFrame()
      requires Valid()
      modifies `stack, `entries
      ensures Valid() && View() == PushScope(old(View()))
    {
      FlattenAppend(entries, Scope(None, []));
      WellFormedAppend(entries, Scope(None, []));
      stack := stack + [ErrorFrame(NO_ERROR, false, 0, |flight|)];
      entries := entries + [Scope(None, [])];
    }

    /** Rollback: the buffer is cut back to where the scope began. */
    method RollbackFrame()
      requires Valid() && entries != [] && entries[|entries| - 1].Scope?
      modifies `stack, `flight, `entries
      ensures Valid() && View() == PopScope(old(View()), false)
    {
      WithoutTopScope(entries);
      var top := stack[|stack| - 1];
      stack, flight := stack[..|stack| - 1], flight[..top.commitStartIndex];
      entries := entries[..|entries| - 1];
    }

    /** The last scope publishes the whole buffer. */
    method CommitLastFrame()
      requires Valid() && entries != [] && entries[|entries| - 1].Scope? && |stack| == 1
      modifies `Errors, `stack, `flight, `entries
      ensures Valid() && View() == PopScope(old(View()), true)
    {
      ghost var below, item := entries[..|entries| - 1], entries[|entries| - 1];
      WithoutTopScope(entries);
      OutsideNothingHeld(below);
      var top := stack[0];
      if top.hasBest {
        flight := flight + [top.best];
      }
      Publish(Errors, item, flight);
      Errors := Errors + flight;
      stack, flight := [], [];
      entries := below;
    }

    /** An inner scope leaves its errors, and its best one after them, to the entry around it. */
    method CommitInnerFrame()
      requires Valid() && entries != [] && entries[|entries| - 1].Scope? && |stack| > 1
      modifies `stack, `flight, `entries
      ensures Valid() && View() == PopScope(old(View()), true)
    {
      ghost var below, item := entries[..|entries| - 1], entries[|entries| - 1];
      WithoutTopScope(entries);
      CommitBelow(below, item.errs + AsList(item.best));
      var top := stack[|stack| - 1];
      if top.hasBest {
        flight := flight + [top.best];
      }
      stack := stack[..|stack| - 1];
      entries := AddErrs(below, item.errs + AsList(item.best));
    }

    /** The scope popped must be the innermost open entry; what it opened was closed before. */
    method PopFrame(commit: bool)
      requires Valid() && entries != [] && entries[|entries| - 1].Scope?
      modifies `Errors, `stack, `flight, `entries
      ensures Valid() && View() == PopScope(old(View()), commit)
    {
      FlattenTop(entries);
      if !commit {
        RollbackFrame();
      } else if |stack| == 1 {
        CommitLastFrame();
      } else {
        CommitInnerFrame();
      }
    }

    /** Commits whatever is still open, from the inside out. */
    method FlushFramesCommitAll()
      requires Valid() && AllScopes(entries)
      modifies `Errors, `stack, `flight, `entries
      ensures Valid() && entries == [] && flight == [] && stack == []
      ensures Errors == old(Errors) + Held(old(entries))
    {
      while |stack| > 0
        invariant Valid() && AllScopes(entries)
        invariant Errors + Held(entries) == old(Errors) + Held(old(entries))
        decreases |entries|
      {
        FramesScope(entries);
        PopKeepsScopes(View());
        CommitKeepsHeld(View());
        PopFrame(true);
      }
      FramesScope(entries);
      OutsideNothingHeld(entries);
    }

    method ReplaceBest(err: SyntaxError) returns (replaced: bool)
      requires Valid()
      modifies `stack, `entries
      ensures Valid() && replaced == HasScope(old(entries)) && Errors == old(Errors)
      ensures entries == if replaced then SetBest(old(entries), Some(err)) else old(entries)
    {
      FramesScope(entries);
      if |stack| == 0 {
        return false;
      }
      FlattenSetBest(entries, Some(err));
      WellFormedSetBest(entries, Some(err));
      var top := stack[|stack| - 1];
      stack := stack[|stack| - 1 := ErrorFrame(err, true, err.position, top.commitStartIndex)];
      entries := SetBest(entries, Some(err));
      return true;
    }

    method CurrentBestPosition() returns (position: nat, ok: bool)
      requires Valid()
      ensures ok == (HasScope(entries) && BestOf(entries).Some?)
      ensures ok ==> position == BestOf(entries).value.position
    {
      FramesScope(entries);
      if |stack| == 0 || !stack[|stack| - 1].hasBest {
        return 0, false;
      }
      return stack[|stack| - 1].bestAbsolutePosition, true;
    }

    /** Popping the current scope with commit would publish nothing. */
    method CurrentFrameWouldBeEmptyOnPop() returns (empty: bool)
      requires Valid()
      ensures empty == (!HasScope(entries) || (BestOf(entries).None? && SinceScope(entries) == []))
    {
      FramesScope(entries);
      if |stack| == 0 {
        return true;
      }
      TopFrameView(entries);
      var top := stack[|stack| - 1];
      return !top.hasBest && |flight| == top.commitStartIndex;
    }

    /** A parse error outside every scope is final; inside, only the best one of the scope is kept. */
    method ReportError(err: SyntaxError)
      requires Valid()
      modifies `Errors, `stack, `entries
      ensures Valid() && View() == Report(old(View()), err)
    {
      FramesScope(entries);
      if |stack| == 0 {
        Errors := Errors + [err];
        return;
      }
      var top := stack[|stack| - 1];
      if BetterError(top, err) {
        var replaced := ReplaceBest(err);
      } else {
        SetSameBest(entries);
      }
    }

    function BetterError(cur: ErrorFrame, err: SyntaxError): bool {
      if !cur.hasBest then true
      else if err.position > cur.bestAbsolutePosition then true
      else err.position == cur.bestAbsolutePosition && cur.best.producedByLexer && !err.producedByLexer
    }

    method PushDelimiterBoundary(regionStart: nat)
      requires Valid()
      modifies `delimiterBoundaries, `entries
      ensures Valid() && View() == PushRegion(old(View()), regionStart)
    {
      FlattenAppend(entries, Region(regionStart, []));
      WellFormedAppend(entries, Region(regionStart, []));
      delimiterBoundaries := delimiterBoundaries + [DelimiterBoundary(regionStart, |flight|)];
      entries := entries + [Region(regionStart, [])];
    }

    method PopDelimiterBoundary()
      requires Valid() && entries != [] && entries[|entries| - 1].Region?
      modifies `delimiterBoundaries, `entries
      ensures Valid() && View() == PopRegion(old(View()))
    {
      ghost var below, item := entries[..|entries| - 1], entries[|entries| - 1];
      FlattenTop(entries);
      if HasScope(below) {
        CommitBelow(below, item.errs);
      } else {
        AddNone(below);
      }
      delimiterBoundaries := delimiterBoundaries[..|delimiterBoundaries| - 1];
      entries := AddErrs(below, item.errs);
    }

    /** The flat scan answers the question about the nesting. */
    method HasCommittedErrorInsideCurrentDelimiterBoundary() returns (found: bool)
      requires Valid()
      ensures found == ErrorInsideRegion(entries)
    {
      BoundaryView(entries);
      if |delimiterBoundaries| == 0 {
        return false;
      }
      var boundary := delimiterBoundaries[|delimiterBoundaries| - 1];
      found := FlightReaches(boundary.flightAtOpen, boundary.regionStart);
      if !found {
        found := FramesReach(boundary.regionStart);
        FramesHoldBests(entries, boundary.regionStart);
      }
    }

    method FlightReaches(from: nat, start: nat) returns (found: bool)
      requires from <= |flight|
      ensures found == ReachesInto(flight[from..], start)
    {
      for i := from to |flight|
        invariant forall j :: from <= j < i ==> flight[j].position < start
      {
        if flight[i].position >= start {
          assert flight[from..][i - from] == flight[i];
          return true;
        }
      }
      return false;
    }

    method FramesReach(start: nat) returns (found: bool)
      ensures found <==> SomeFrameFrom(stack, start)
    {
      for i := 0 to |stack|
        invariant forall j :: 0 <= j < i ==> !FrameReachesFrom(stack[j], start)
      {
        if stack[i].hasBest && stack[i].bestAbsolutePosition >= start {
          return true;
        }
      }
      return false;
    }

    method HasCommittedErrorSinceEntryRuleScope() returns (found: bool)
      requires Valid()
      ensures found == (|Flight(entries)| > entryRuleFlightBaseline)
    {
      return |flight| > entryRuleFlightBaseline;
    }

    /** Anything published, held in flight, or held as some open frame's best. */
    method HasCommittedSyntaxErrors() returns (found: bool)
      requires Valid()
      ensures found == (Errors != [] || Flight(entries) != [] || SomeBestFrom(entries, 0))
    {
      FramesHoldBests(entries, 0);
      if |Errors| > 0 || |flight| > 0 {
        return true;
      }
      for i := 0 to |stack|
        invariant forall j :: 0 <= j < i ==> !FrameReachesFrom(stack[j], 0)
      {
        if stack[i].hasBest {
          assert FrameReachesFrom(stack[i], 0);
          return true;
        }
      }
      return false;
    }

    /** Only the outermost entry scope fixes the baseline. */
    method BeginEntryRuleScope()
      modifies `entryRuleScopeDepth, `entryRuleFlightBaseline
      ensures entryRuleScopeDepth == old(entryRuleScopeDepth) + 1
      ensures entryRuleFlightBaseline == if old(entryRuleScopeDepth) == 0 then |flight| else old(entryRuleFlightBaseline)
    {
      if entryRuleScopeDepth == 0 {
        entryRuleFlightBaseline := |flight|;
      }
      entryRuleScopeDepth := entryRuleScopeDepth + 1;
    }

    method EndEntryRuleScope()
      requires entryRuleScopeDepth > 0
      modifies `entryRuleScopeDepth
      ensures entryRuleScopeDepth == old(entryRuleScopeDepth) - 1
    {
      entryRuleScopeDepth := entryRuleScopeDepth - 1;
    }
  }
}
