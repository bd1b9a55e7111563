/**
 Speculative syntax errors as a stack of nested lists, and what a properly nested use of
 them leaves behind. The running parser keeps one flat buffer instead (see ErrorBuffer).
 */
module ErrorScopes {
  import opened Grammars

  datatype SyntaxError = SyntaxError(producedByLexer: bool, position: nat, rule: string)

  /**
   An open scope with its best error so far, or an open delimiter region; errs are the
   errors committed while this entry was the innermost one.
   */
  datatype Entry =
    | Scope(best: Option<SyntaxError>, errs: seq<SyntaxError>)
    | Region(start: nat, errs: seq<SyntaxError>)

  datatype Nested = Nested(errors: seq<SyntaxError>, entries: seq<Entry>)

  predicate HasScope(entries: seq<Entry>) {
    entries != [] && (entries[|entries| - 1].Scope? || HasScope(entries[..|entries| - 1]))
  }

  /** Outside every scope nothing is held back. */
  ghost predicate WellFormed(entries: seq<Entry>) {
    entries == [] ||
    (WellFormed(entries[..|entries| - 1]) && (!HasScope(entries) ==> entries[|entries| - 1].errs == []))
  }

  function AddErrs(entries: seq<Entry>, errs: seq<SyntaxError>): seq<Entry> {
    if entries == [] then [] else
    var n := |entries| - 1;
    entries[..n] + [entries[n].(errs := entries[n].errs + errs)]
  }

  /** Sets the best error of the innermost scope. */
  function SetBest(entries: seq<Entry>, best: Option<SyntaxError>): seq<Entry> {
    if entries == [] then [] else
    var n := |entries| - 1;
    if entries[n].Scope? then entries[..n] + [entries[n].(best := best)]
    else SetBest(entries[..n], best) + [entries[n]]
  }

  function BestOf(entries: seq<Entry>): Option<SyntaxError> {
    if entries == [] then None else
    var n := |entries| - 1;
    if entries[n].Scope? then entries[n].best else BestOf(entries[..n])
  }

  /** betterError: further wins; at the same position a parser error replaces a lexer error. */
  predicate Better(cur: Option<SyntaxError>, err: SyntaxError) {
    cur.None? || err.position > cur.value.position ||
    (err.position == cur.value.position && cur.value.producedByLexer && !err.producedByLexer)
  }

  function Improve(cur: Option<SyntaxError>, err: SyntaxError): Option<SyntaxError> {
    if Better(cur, err) then Some(err) else cur
  }

  function AsList(best: Option<SyntaxError>): seq<SyntaxError> {
    if best.Some? then [best.value] else []
  }

  // ----------------------------------------------------------------- operations

  function PushScope(n: Nested): Nested {
    n.(entries := n.entries + [Scope(None, [])])
  }

  function PopScope(n: Nested, commit: bool): Nested
    requires n.entries != [] && n.entries[|n.entries| - 1].Scope?
  {
    var top, below := n.entries[|n.entries| - 1], n.entries[..|n.entries| - 1];
    if !commit then n.(entries := below)
    else if !HasScope(below) then Nested(n.errors + top.errs + AsList(top.best), below)
    else n.(entries := AddErrs(below, top.errs + AsList(top.best)))
  }

  function Report(n: Nested, err: SyntaxError): Nested {
    if !HasScope(n.entries) then n.(errors := n.errors + [err])
    else n.(entries := SetBest(n.entries, Improve(BestOf(n.entries), err)))
  }

  function PushRegion(n: Nested, start: nat): Nested {
    n.(entries := n.entries + [Region(start, [])])
  }

  function PopRegion(n: Nested): Nested
    requires n.entries != [] && n.entries[|n.entries| - 1].Region?
  {
    n.(entries := AddErrs(n.entries[..|n.entries| - 1], n.entries[|n.entries| - 1].errs))
  }

  // ------------------------------------------------------------ properly nested use

  /** What rules do to the error sink: every scope and region they open they close. */
  datatype Step =
    | Reports(err: SyntaxError)
    | InScope(scope: seq<Step>, commit: bool)
    | InRegion(start: nat, region: seq<Step>)

  ghost function Run(n: Nested, steps: seq<Step>): (r: Nested)
    ensures |r.entries| == |n.entries|
    ensures forall i :: 0 <= i < |n.entries| ==> r.entries[i].Scope? == n.entries[i].Scope?
    decreases steps
  {
    if steps == [] then n else Run(RunStep(n, steps[0]), steps[1..])
  }

  lemma {:induction false} SetBestShape(entries: seq<Entry>, best: Option<SyntaxError>)
    ensures |SetBest(entries, best)| == |entries|
    ensures forall i :: 0 <= i < |entries| ==> SetBest(entries, best)[i].Scope? == entries[i].Scope?
    decreases |entries|
  {
    if entries != [] {
      SetBestShape(entries[..|entries| - 1], best);
    }
  }

  ghost function RunStep(n: Nested, step: Step): (r: Nested)
    ensures |r.entries| == |n.entries|
    ensures forall i :: 0 <= i < |n.entries| ==> r.entries[i].Scope? == n.entries[i].Scope?
    decreases step
  {
    SetBestShape(n.entries, if step.Reports? then Improve(BestOf(n.entries), step.err) else None);
    match step
    case Reports(err) => Report(n, err)
    case InScope(body, commit) => PopScope(Run(PushScope(n), body), commit)
    case InRegion(start, body) => PopRegion(Run(PushRegion(n, start), body))
  }

  /** The errors a run commits to the scope around it, in order. */
  function Committed(steps: seq<Step>): seq<SyntaxError>
    decreases steps
  {
    if steps == [] then [] else CommittedBy(steps[0]) + Committed(steps[1..])
  }

  function CommittedBy(step: Step): seq<SyntaxError>
    decreases step
  {
    match step
    case Reports(_) => []
    case InScope(body, commit) => if commit then Committed(body) + AsList(Furthest(None, Reported(body))) else []
    case InRegion(_, body) => Committed(body)
  }

  /** The errors reported directly to the scope around a run, in order. */
  function Reported(steps: seq<Step>): seq<SyntaxError>
    decreases steps
  {
    if steps == [] then [] else ReportedBy(steps[0]) + Reported(steps[1..])
  }

  function ReportedBy(step: Step): seq<SyntaxError>
    decreases step
  {
    match step
    case Reports(err) => [err]
    case InScope(_, _) => []
    case InRegion(_, body) => Reported(body)
  }

  function Furthest(best: Option<SyntaxError>, errs: seq<SyntaxError>): Option<SyntaxError>
    decreases |errs|
  {
    if errs == [] then best else Furthest(Improve(best, errs[0]), errs[1..])
  }

  /** What a run inside some scope changes: that scope's best error, and the innermost entry's list. */
  function Effect(n: Nested, errs: seq<SyntaxError>, reports: seq<SyntaxError>): Nested {
    n.(entries := AddErrs(SetBest(n.entries, Furthest(BestOf(n.entries), reports)), errs))
  }

  // ------------------------------------------------------------------ small laws

  lemma LastOf(entries: seq<Entry>, e: Entry)
    ensures (entries + [e])[..|entries|] == entries && (entries + [e])[|entries|] == e
  {
  }

  lemma {:induction false} SetSameBest(entries: seq<Entry>)
    ensures SetBest(entries, BestOf(entries)) == entries
    decreases |entries|
  {
    if entries != [] {
      SetSameBest(entries[..|entries| - 1]);
    }
  }

  lemma {:induction false} Appended(below: seq<Entry>, e: Entry, best: Option<SyntaxError>)
    ensures SetBest(below + [e], best) == if e.Scope? then below + [e.(best := best)] else SetBest(below, best) + [e]
    ensures BestOf(below + [e]) == if e.Scope? then e.best else BestOf(below)
    ensures HasScope(below + [e]) == (e.Scope? || HasScope(below))
  {
    LastOf(below, e);
  }

  lemma {:induction false} SetBestTwice(entries: seq<Entry>, a: Option<SyntaxError>, b: Option<SyntaxError>)
    ensures SetBest(SetBest(entries, a), b) == SetBest(entries, b)
    ensures HasScope(entries) ==> BestOf(SetBest(entries, a)) == a
    ensures HasScope(SetBest(entries, a)) == HasScope(entries)
    decreases |entries|
  {
    if entries != [] {
      var below, e := entries[..|entries| - 1], entries[|entries| - 1];
      assert entries == below + [e];
      SetBestTwice(below, a, b);
      Appended(below, e, a);
      Appended(below, e, b);
      if e.Scope? {
        Appended(below, e.(best := a), b);
      } else {
        Appended(SetBest(below, a), e, b);
      }
    }
  }

  lemma {:induction false} AddErrsKeeps(entries: seq<Entry>, errs: seq<SyntaxError>, best: Option<SyntaxError>)
    ensures HasScope(AddErrs(entries, errs)) == HasScope(entries) && BestOf(AddErrs(entries, errs)) == BestOf(entries)
    ensures SetBest(AddErrs(entries, errs), best) == AddErrs(SetBest(entries, best), errs)
  {
    if entries != [] {
      var below, e := entries[..|entries| - 1], entries[|entries| - 1];
      assert entries == below + [e];
      Appended(below, e, best);
      Appended(below, e.(errs := e.errs + errs), best);
    }
  }

  lemma AddErrsTwice(entries: seq<Entry>, a: seq<SyntaxError>, b: seq<SyntaxError>)
    ensures AddErrs(AddErrs(entries, a), b) == AddErrs(entries, a + b)
  {
    if entries != [] {
      var n := |entries| - 1;
      LastOf(entries[..n], entries[n].(errs := entries[n].errs + a));
      assert entries[n].errs + a + b == entries[n].errs + (a + b);
    }
  }

  lemma AddNone(entries: seq<Entry>)
    ensures AddErrs(entries, []) == entries
  {
    if entries != [] {
      assert entries[|entries| - 1].errs + [] == entries[|entries| - 1].errs;
    }
  }

  lemma {:induction false} FurthestAppend(best: Option<SyntaxError>, a: seq<SyntaxError>, b: seq<SyntaxError>)
    ensures Furthest(best, a + b) == Furthest(Furthest(best, a), b)
    decreases |a|
  {
    if a == [] {
      assert a + b == b;
    } else {
      assert (a + b)[1..] == a[1..] + b;
      FurthestAppend(Improve(best, a[0]), a[1..], b);
    }
  }

  lemma EffectTwice(n: Nested, e1: seq<SyntaxError>, r1: seq<SyntaxError>, e2: seq<SyntaxError>, r2: seq<SyntaxError>)
    requires HasScope(n.entries)
    ensures Effect(Effect(n, e1, r1), e2, r2) == Effect(n, e1 + e2, r1 + r2)
    ensures HasScope(Effect(n, e1, r1).entries)
  {
    var best := BestOf(n.entries);
    var b1, b2 := Furthest(best, r1), Furthest(best, r1 + r2);
    FurthestAppend(best, r1, r2);
    SetBestTwice(n.entries, b1, b2);
    AddErrsKeeps(SetBest(n.entries, b1), e1, b2);
    AddErrsTwice(SetBest(n.entries, b2), e1, e2);
  }

  // ------------------------------------------------------------- the main results

  /**
   Inside a scope, a properly nested run appends exactly what it commits, in order, to the
   innermost list, and folds its own reports into the scope's best error. Nothing else
   that was open before is touched.
   */
  lemma {:induction false} RunEffect(n: Nested, steps: seq<Step>)
    requires HasScope(n.entries)
    ensures Run(n, steps) == Effect(n, Committed(steps), Reported(steps))
    decreases steps
  {
    if steps == [] {
      SetSameBest(n.entries);
      AddNone(n.entries);
    } else {
      StepEffect(n, steps[0]);
      EffectTwice(n, CommittedBy(steps[0]), ReportedBy(steps[0]), Committed(steps[1..]), Reported(steps[1..]));
      RunEffect(RunStep(n, steps[0]), steps[1..]);
    }
  }

  lemma {:induction false} StepEffect(n: Nested, step: Step)
    requires HasScope(n.entries)
    ensures RunStep(n, step) == Effect(n, CommittedBy(step), ReportedBy(step))
    decreases step
  {
    SetSameBest(n.entries);
    AddNone(n.entries);
    match step
    case Reports(err) =>
      AddNone(SetBest(n.entries, Improve(BestOf(n.entries), err)));
      assert Furthest(BestOf(n.entries), [err]) == Improve(BestOf(n.entries), err);
    case InScope(body, commit) =>
      LastOf(n.entries, Scope(None, []));
      RunEffect(PushScope(n), body);
      ScopeEffect(n, Committed(body), Reported(body));
    case InRegion(start, body) =>
      LastOf(n.entries, Region(start, []));
      RunEffect(PushRegion(n, start), body);
      RegionEffect(n, start, Committed(body), Reported(body));
  }

  lemma {:induction false} ScopeEffect(n: Nested, errs: seq<SyntaxError>, reports: seq<SyntaxError>)
    ensures Effect(PushScope(n), errs, reports) == n.(entries := n.entries + [Scope(Furthest(None, reports), errs)])
  {
    var best := Furthest(None, reports);
    LastOf(n.entries, Scope(None, []));
    LastOf(n.entries, Scope(best, []));
    assert SetBest(n.entries + [Scope(None, [])], best) == n.entries + [Scope(best, [])];
    assert [] + errs == errs;
  }

  lemma RegionEffect(n: Nested, start: nat, errs: seq<SyntaxError>, reports: seq<SyntaxError>)
    requires HasScope(n.entries)
    ensures var r := Effect(PushRegion(n, start), errs, reports);
            r.entries != [] && r.entries[|r.entries| - 1].Region? && PopRegion(r) == Effect(n, errs, reports)
  {
    var best := Furthest(BestOf(n.entries), reports);
    LastOf(n.entries, Region(start, []));
    var set' := SetBest(n.entries, best);
    assert SetBest(n.entries + [Region(start, [])], best) == set' + [Region(start, [])];
    LastOf(set', Region(start, []));
    LastOf(set', Region(start, errs));
    assert [] + errs == errs;
    assert AddErrs(set' + [Region(start, [])], errs) == set' + [Region(start, errs)];
  }

  /** A rolled-back scope leaves everything exactly as it was, whatever ran inside. */
  lemma {:induction false} RollbackRestores(n: Nested, body: seq<Step>)
    ensures RunStep(n, InScope(body, false)) == n
  {
    LastOf(n.entries, Scope(None, []));
    RunEffect(PushScope(n), body);
    ScopeEffect(n, Committed(body), Reported(body));
    LastOf(n.entries, Scope(Furthest(None, Reported(body)), Committed(body)));
  }

  /** Committing the outermost scope publishes its errors in order, the best one last. */
  lemma {:induction false} OutermostCommit(n: Nested, body: seq<Step>)
    requires !HasScope(n.entries)
    ensures RunStep(n, InScope(body, true)) == n.(errors := n.errors + CommittedBy(InScope(body, true)))
  {
    LastOf(n.entries, Scope(None, []));
    RunEffect(PushScope(n), body);
    ScopeEffect(n, Committed(body), Reported(body));
    LastOf(n.entries, Scope(Furthest(None, Reported(body)), Committed(body)));
    assert n.errors + Committed(body) + AsList(Furthest(None, Reported(body))) == n.errors + CommittedBy(InScope(body, true));
  }

  /**
   The error kept for a scope stands furthest in the input; among those it is the first
   one from the parser, or the first one if all come from the lexer.
   */
  lemma {:induction false} FurthestIs(errs: seq<SyntaxError>) returns (k: nat)
    requires errs != []
    ensures k < |errs| && Furthest(None, errs) == Some(errs[k])
    ensures forall j :: 0 <= j < |errs| ==> errs[j].position <= errs[k].position
    ensures forall j :: 0 <= j < k && errs[j].position == errs[k].position ==> errs[j].producedByLexer && !errs[k].producedByLexer
    ensures forall j :: k < j < |errs| && errs[j].position == errs[k].position && errs[k].producedByLexer ==> errs[j].producedByLexer
    decreases |errs|
  {
    var n := |errs| - 1;
    assert errs == errs[..n] + [errs[n]];
    FurthestAppend(None, errs[..n], [errs[n]]);
    if n == 0 {
      k := 0;
    } else {
      k := FurthestIs(errs[..n]);
      if Better(Some(errs[k]), errs[n]) {
        k := n;
      }
    }
  }
}
