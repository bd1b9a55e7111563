/**
 BuildStateGraph: the worklist that explores contexts from the entry rule and records
 their transitions. Contexts are not merged here, so a recursive grammar may have
 infinitely many; the loop runs on a budget and reports whether the queue ran dry.
 */
module GraphBuilder {
  import opened Languages
  import opened Grammars
  import opened Semantics
  import opened Terminals
  import opened StateGraph
  import opened LoweringPass
  import L = Lookaheads

  type Edges = map<Context, seq<Transition>>

  function Outgoing(edges: Edges, c: Context): seq<Transition> {
    if c in edges then edges[c] else []
  }

  /** The transitions a context must have, one per terminal in discovery order. */
  function Required(env: Env, c: Context): (r: seq<Transition>)
    ensures |r| == |TermsOf(env, c)|
    ensures forall i :: 0 <= i < |r| ==> r[i] == BuildTransition(env, TermsOf(env, c)[i])
  {
    seq(|TermsOf(env, c)|, (i: nat) requires i < |TermsOf(env, c)| => BuildTransition(env, TermsOf(env, c)[i]))
  }

  /** Every context a transition enters, immediate pushes included. */
  predicate EntersOnly(tr: Transition, contexts: set<Context>) {
    forall t :: t in tr.targets ==> t in contexts && (t.Wrapper? ==> Content(t.nest) in contexts)
  }

  /** The context has exactly its transitions, and they lead to known contexts. */
  ghost predicate Settled(env: Env, contexts: set<Context>, edges: Edges, c: Context) {
    && Outgoing(edges, c) == Required(env, c)
    && forall tr :: tr in Outgoing(edges, c) ==> EntersOnly(tr, contexts)
  }

  /** The recorded graph has every reachable context with exactly its transitions. */
  ghost predicate Complete(env: Env, root: Context, contexts: set<Context>, edges: Edges) {
    root in contexts && forall c :: c in contexts ==> Settled(env, contexts, edges, c)
  }

  /** A set of contexts that holds the root and is closed under transitions. */
  ghost predicate ClosedUnder(env: Env, root: Context, all: set<Context>) {
    root in all && forall c :: c in all ==> StepsWithin(env, c, all)
  }

  ghost predicate StepsWithin(env: Env, c: Context, all: set<Context>) {
    forall tr :: tr in Required(env, c) ==> EntersOnly(tr, all)
  }

  /** Learning of more contexts, or recording another context's transitions, unsettles nothing. */
  lemma StaysSettled(env: Env, contexts: set<Context>, edges: Edges, c: Context, contexts': set<Context>, edges': Edges)
    requires Settled(env, contexts, edges, c) && contexts <= contexts'
    requires Outgoing(edges', c) == Outgoing(edges, c)
    ensures Settled(env, contexts', edges', c)
  {
  }

  predicate GraphMoves(edges: Edges, stack: seq<Context>, token: Token, i: nat, next: seq<Context>) {
    && stack != [] && i < |Outgoing(edges, stack[0])|
    && Outgoing(edges, stack[0])[i].token == token
    && Apply(Outgoing(edges, stack[0])[i], stack) == Some(next)
  }

  /** A run over the recorded transitions alone. */
  ghost predicate GraphAccepts(edges: Edges, stack: seq<Context>, w: Word)
    decreases |w|
  {
    if w == [] then MayStop(stack)
    else exists i: nat, next :: GraphMoves(edges, stack, w[0], i, next) && GraphAccepts(edges, next, w[1..])
  }

  lemma {:induction false} EnterStays(targets: seq<Context>, stack: seq<Context>, contexts: set<Context>)
    requires forall t :: t in targets ==> t in contexts && (t.Wrapper? ==> Content(t.nest) in contexts)
    requires forall c :: c in stack ==> c in contexts
    ensures forall c :: c in Enter(targets, stack) ==> c in contexts
  {
    if targets != [] {
      var c := targets[0];
      EnterStays(targets[1..], (if c.Wrapper? then [Content(c.nest), c] else [c]) + stack, contexts);
    }
  }

  lemma ApplyStays(tr: Transition, stack: seq<Context>, contexts: set<Context>)
    requires stack != [] && EntersOnly(tr, contexts)
    requires forall c :: c in stack ==> c in contexts
    ensures Apply(tr, stack).Some? ==> forall c :: c in Apply(tr, stack).value ==> c in contexts
  {
    if tr.op.OpSet? {
      EnterStays(tr.targets, stack[1..], contexts);
    }
  }

  lemma MovesAgree(env: Env, root: Context, contexts: set<Context>, edges: Edges, stack: seq<Context>, token: Token, i: nat, next: seq<Context>)
    requires Complete(env, root, contexts, edges)
    requires forall c :: c in stack ==> c in contexts
    ensures GraphMoves(edges, stack, token, i, next) <==> Moves(env, stack, token, i, next)
    ensures GraphMoves(edges, stack, token, i, next) ==> forall c :: c in next ==> c in contexts
  {
    if stack != [] {
      assert Settled(env, contexts, edges, stack[0]);
      if GraphMoves(edges, stack, token, i, next) {
        assert Outgoing(edges, stack[0])[i] in Outgoing(edges, stack[0]);
        ApplyStays(Outgoing(edges, stack[0])[i], stack, contexts);
      }
    }
  }

  /** Running the recorded graph is running the machine it was built from. */
  lemma {:induction false} CompleteGraphRuns(env: Env, root: Context, contexts: set<Context>, edges: Edges, stack: seq<Context>, w: Word)
    requires Complete(env, root, contexts, edges)
    requires forall c :: c in stack ==> c in contexts
    ensures GraphAccepts(edges, stack, w) <==> Accepts(env, stack, w)
    decreases |w|
  {
    if w != [] {
      forall i: nat, next | GraphMoves(edges, stack, w[0], i, next) || Moves(env, stack, w[0], i, next)
        ensures GraphMoves(edges, stack, w[0], i, next) && Moves(env, stack, w[0], i, next)
        ensures GraphAccepts(edges, next, w[1..]) <==> Accepts(env, next, w[1..])
      {
        MovesAgree(env, root, contexts, edges, stack, w[0], i, next);
        CompleteGraphRuns(env, root, contexts, edges, next, w[1..]);
      }
    }
  }

  /** A finished graph accepts exactly the lowered language of the entry rule. */
  lemma {:induction false} FinishedGraphExact(env: Env, entry: Grammar, contexts: set<Context>, edges: Edges, w: Word)
    requires PackageOk(env) && L.Analyzed(env, entry)
    requires Complete(env, Root(env, entry), contexts, edges)
    ensures GraphAccepts(edges, [Root(env, entry)], w) <==> w in Lang(Lowered, env.rules, entry)
  {
    CompleteGraphRuns(env, Root(env, entry), contexts, edges, [Root(env, entry)], w);
    StateGraphExact(env, entry, w);
  }

  lemma {:induction false} CardinalityMono(a: set<Context>, b: set<Context>)
    requires a <= b
    ensures |a| <= |b|
  {
    if a != {} {
      var x :| x in a;
      CardinalityMono(a - {x}, b - {x});
    }
  }

  /** A queued context with the terminals it was created for. */
  datatype Pending = Pending(ctx: Context, terms: seq<Terminal>)

  class Builder {
    const env: Env
    const lowerer: Lowerer
    var contexts: set<Context>
    var edges: Edges
    var queue: seq<Pending>
    /** The contexts in the queue. */
    ghost var waiting: set<Context>

    constructor (env: Env)
      ensures this.env == env && Ready() && fresh(lowerer)
      ensures contexts == {} && edges == map[] && queue == [] && waiting == {}
    {
      this.env := env;
      lowerer := new Lowerer(env);
      contexts, edges, queue, waiting := {}, map[], [], {};
    }

    ghost predicate Ready()
      reads this, lowerer
    {
      && lowerer.env == env && lowerer.visiting == {}
      && forall n :: Wrapper(n) in contexts <==> Content(n) in contexts
    }

    ghost predicate QueueOk()
      reads this
    {
      && (forall i :: 0 <= i < |queue| ==> queue[i].ctx in waiting && queue[i].terms == TermsOf(env, queue[i].ctx))
      && (forall i, j :: 0 <= i < j < |queue| ==> queue[i].ctx != queue[j].ctx)
      && |waiting| == |queue|
    }

    /** Away from the queue and the context at work, every context has exactly its transitions. */
    ghost predicate Explored(working: set<Context>)
      reads this
    {
      && QueueOk()
      && waiting <= contexts && waiting !! edges.Keys && waiting !! working
      && edges.Keys <= contexts && working <= contexts
      && forall c :: c in contexts - working - waiting ==> Settled(env, contexts, edges, c)
    }

    /** New contexts enter the tables; one with transitions to find is queued. */
    method Admit(added: set<Context>, pending: Option<Pending>, ghost working: set<Context>)
      requires Explored(working) && added !! contexts
      requires pending.Some? ==> pending.value.ctx in added && pending.value.terms == TermsOf(env, pending.value.ctx)
      requires forall c :: c in added && (pending.None? || pending.value.ctx != c) ==> TermsOf(env, c) == []
      modifies this`contexts, this`queue, this`waiting
      ensures Explored(working) && contexts == old(contexts) + added
      ensures waiting <= old(waiting) + added
    {
      contexts := contexts + added;
      if pending.Some? {
        queue := queue + [pending.value];
        waiting := waiting + {pending.value.ctx};
      }
      forall c | c in contexts - working - waiting ensures Settled(env, contexts, edges, c) {
        if c in added {
          assert Required(env, c) == [];
        } else {
          StaysSettled(env, old(contexts), edges, c, contexts, edges);
        }
      }
    }

    /** getOrCreateContext: a context is queued when it is first seen. */
    method GetOrCreateContext(c: Context, ghost working: set<Context>)
      requires Ready() && Explored(working) && c.Ctx?
      modifies this`contexts, this`queue, this`waiting
      ensures Ready() && Explored(working) && contexts == old(contexts) + {c}
      ensures waiting <= old(waiting) + (contexts - old(contexts))
    {
      if c in contexts {
        return;
      }
      Admit({c}, Some(Pending(c, c.terms)), working);
    }

    method BodyTerminals(nest: Grammar) returns (terms: seq<Terminal>)
      requires Ready()
      modifies lowerer
      ensures Ready() && terms == TermsOf(env, Content(nest))
    {
      terms := [];
      if nest.GNest? {
        var ignored;
        terms, ignored := lowerer.LookaheadConcat(None, [nest.body, CloseNode(nest.close)]);
        terms := OffsetAll(terms, 1);
      }
    }

    /** getOrCreateNestBody: wrapper and content come together; content is queued unless it is stuck. */
    method GetOrCreateNestBody(nest: Grammar, ghost working: set<Context>)
      requires Ready() && Explored(working)
      modifies this`contexts, this`queue, this`waiting, lowerer
      ensures Ready() && Explored(working) && contexts == old(contexts) + {Wrapper(nest), Content(nest)}
      ensures waiting <= old(waiting) + (contexts - old(contexts))
    {
      if Wrapper(nest) in contexts {
        return;
      }
      var terms := BodyTerminals(nest);
      Admit({Wrapper(nest), Content(nest)}, if |terms| > 0 then Some(Pending(Content(nest), terms)) else None, working);
    }

    /** buildNestTransition and buildStandardTransition, creating the contexts they lead to. */
    method BuildTransitionFor(term: Terminal, ghost working: set<Context>) returns (tr: Transition)
      requires Ready() && Explored(working)
      modifies this`contexts, this`queue, this`waiting, lowerer
      ensures Ready() && Explored(working) && old(contexts) <= contexts
      ensures tr == BuildTransition(env, term) && EntersOnly(tr, contexts)
      ensures forall all: set<Context> :: old(contexts) <= all && EntersOnly(tr, all) ==> contexts <= all
      ensures waiting <= old(waiting) + (contexts - old(contexts))
    {
      if term.nest.Some? {
        GetOrCreateNestBody(term.nest.value, working);
        var adv, isNullable := lowerer.AdvanceTerminal(term.(nest := None));
        if |adv| == 0 {
          return Transition(term.token, OpSet, [Wrapper(term.nest.value)], 0);
        }
        var after := Ctx(OffsetAll(adv, term.popOffset), isNullable);
        GetOrCreateContext(after, working);
        return Transition(term.token, OpSet, [after, Wrapper(term.nest.value)], 0);
      }
      assert term.(nest := None) == term;
      var adv, isNullable := lowerer.AdvanceTerminal(term);
      if |adv| == 0 {
        return Transition(term.token, OpPop, [], 1 + term.popOffset);
      }
      var next := Ctx(OffsetAll(adv, term.popOffset), isNullable);
      GetOrCreateContext(next, working);
      return Transition(term.token, OpSet, [next], 0);
    }

    method Record(c: Context, tr: Transition)
      requires Explored({c})
      modifies this`edges
      ensures Explored({c}) && Outgoing(edges, c) == Outgoing(old(edges), c) + [tr]
    {
      edges := edges[c := Outgoing(edges, c) + [tr]];
      forall x | x in contexts - {c} - waiting ensures Settled(env, contexts, edges, x) {
        StaysSettled(env, contexts, old(edges), x, contexts, edges);
      }
    }

    /** Builds one transition of the context at work and records it. */
    method BuildNext(c: Context, terms: seq<Terminal>, i: nat)
      requires Ready() && Explored({c}) && terms == TermsOf(env, c) && i < |terms|
      requires Outgoing(edges, c) == Required(env, c)[..i]
      requires forall tr :: tr in Outgoing(edges, c) ==> EntersOnly(tr, contexts)
      modifies this, lowerer
      ensures Ready() && Explored({c}) && old(contexts) <= contexts
      ensures Outgoing(edges, c) == Required(env, c)[..i + 1]
      ensures forall tr :: tr in Outgoing(edges, c) ==> EntersOnly(tr, contexts)
      ensures forall all :: old(contexts) <= all && StepsWithin(env, c, all) ==> contexts <= all
      ensures waiting <= old(waiting) + (contexts - old(contexts))
    {
      var tr := BuildTransitionFor(terms[i], {c});
      assert tr == Required(env, c)[i];
      assert forall all :: StepsWithin(env, c, all) ==> EntersOnly(tr, all);
      assert Required(env, c)[..i + 1] == Required(env, c)[..i] + [tr];
      Record(c, tr);
    }

    /** One round of the worklist: records the transitions of a context in terminal order. */
    method Expand(p: Pending)
      requires Ready() && Explored({p.ctx}) && p.ctx !in edges && p.terms == TermsOf(env, p.ctx)
      modifies this, lowerer
      ensures Ready() && Explored({}) && old(contexts) <= contexts
      ensures forall all :: old(contexts) <= all && StepsWithin(env, p.ctx, all) ==> contexts <= all
      ensures waiting <= old(waiting) + (contexts - old(contexts))
    {
      for i := 0 to |p.terms|
        invariant Ready() && Explored({p.ctx}) && old(contexts) <= contexts
        invariant forall all :: old(contexts) <= all && StepsWithin(env, p.ctx, all) ==> contexts <= all
        invariant waiting <= old(waiting) + (contexts - old(contexts))
        invariant Outgoing(edges, p.ctx) == Required(env, p.ctx)[..i]
        invariant forall tr :: tr in Outgoing(edges, p.ctx) ==> EntersOnly(tr, contexts)
      {
        BuildNext(p.ctx, p.terms, i);
      }
      assert Required(env, p.ctx)[..|p.terms|] == Required(env, p.ctx);
      assert Settled(env, contexts, edges, p.ctx);
    }

    /** Takes the oldest queued context and expands it. */
    method Round() returns (c: Context)
      requires Ready() && Explored({}) && |queue| > 0
      modifies this, lowerer
      ensures Ready() && Explored({}) && old(contexts) <= contexts
      ensures c in old(waiting) && c !in waiting
      ensures forall all :: old(contexts) <= all && StepsWithin(env, c, all) ==> contexts <= all
      ensures waiting <= old(waiting) + (contexts - old(contexts))
    {
      var p := queue[0];
      queue := queue[1..];
      waiting := waiting - {p.ctx};
      assert contexts - {p.ctx} - waiting == contexts - {} - old(waiting);
      Expand(p);
      return p.ctx;
    }

    method Start(entry: Grammar) returns (root: Context)
      requires Ready() && contexts == {} && edges == map[] && queue == [] && waiting == {}
      modifies this, lowerer
      ensures Ready() && Explored({}) && root == Root(env, entry)
      ensures contexts == waiting == {root}
    {
      var terms, isNullable := lowerer.LookaheadNode(entry);
      root := Ctx(terms, isNullable);
      contexts, queue, waiting := {root}, [Pending(root, terms)], {root};
    }

    /**
     Explores from the entry rule until the queue is empty or the budget is spent. The budget
     suffices as soon as it covers some closed set of contexts.
     */
    method BuildStateGraph(entry: Grammar, budget: nat) returns (done: bool)
      requires Ready() && contexts == {} && edges == map[] && queue == [] && waiting == {}
      modifies this, lowerer
      ensures done ==> Complete(env, Root(env, entry), contexts, edges)
      ensures forall all :: ClosedUnder(env, Root(env, entry), all) && |all| <= budget ==> done
    {
      var root := Start(entry);
      var fuel := budget;
      ghost var visited: set<Context> := {};
      while |queue| > 0 && fuel > 0
        invariant Ready() && Explored({}) && root in contexts
        invariant visited <= contexts - waiting && |visited| == budget - fuel
        invariant forall all :: ClosedUnder(env, root, all) ==> contexts <= all
        decreases fuel
      {
        ghost var before := contexts;
        var c := Round();
        forall all | ClosedUnder(env, root, all) ensures contexts <= all {
          assert before <= all && StepsWithin(env, c, all);
        }
        visited := visited + {c};
        fuel := fuel - 1;
      }
      done := |queue| == 0;
      if done {
        assert waiting == {};
        assert contexts - {} - waiting == contexts;
      } else {
        forall all | ClosedUnder(env, root, all) ensures |all| > budget {
          CardinalityMono(visited + {queue[0].ctx}, all);
        }
      }
    }
  }

  // ------------------------------------------------------------ what the key forgets

  /**
   The terminal list alone does not determine whether a context may be left without consuming:
   an option labelled x of a token starts exactly like a reference to a rule x that is that
   token, in an environment whose analysis is exact.
   */
  lemma TerminalsForgetNullability()
    ensures exists env: Env, a, b: Grammar ::
              && env.analysis.Some? && L.RulesAnalyzed(env) && L.Analyzed(env, a) && L.Analyzed(env, b)
              && L.LookaheadNode(env, a, {}).terms == L.LookaheadNode(env, b, {}).terms
              && L.LookaheadNode(env, a, {}).nullable != L.LookaheadNode(env, b, {}).nullable
  {
    var framed := EncloseAll([Terminal(1, [], [], None, 0, [])], [Frame(None, "x", [])]);
    LabelledTerms({});
    LabelledTerms({"x"});
    L.EncloseNone(framed);
    LabelsAnalyzed();
    assert L.LookaheadNode(LABELS, OPTION_OF, {}) == L.Found(framed, true);
    assert L.LookaheadNode(LABELS, REFERENCE_TO, {}) == L.Found(framed, false);
  }

  const LABELLED: Grammar := GToken(NodeInfo(Some([2]), "", [], false), 1)
  const LABELS: Env := Env(map["x" := LABELLED], Some(Analysis(map[[0] := true, [1] := false, [2] := false], map[], map[])))

  const OPTION_OF: Grammar := GOptional(NodeInfo(Some([0]), "x", [], false), LABELLED)
  const REFERENCE_TO: Grammar := GReference(NodeInfo(Some([1]), "", [], false), "x")

  /** The analysis of both is exact. */
  lemma LabelsAnalyzed()
    ensures L.RulesAnalyzed(LABELS) && L.Analyzed(LABELS, OPTION_OF) && L.Analyzed(LABELS, REFERENCE_TO)
  {
    LangToken(Lowered, LABELS.rules, LABELLED);
    LangOptional(Lowered, LABELS.rules, OPTION_OF);
    LangReference(Lowered, LABELS.rules, REFERENCE_TO);
    assert L.Analyzed(LABELS, LABELLED);
  }

  lemma {:induction false} LabelledTerms(visiting: set<Label>)
    ensures L.LookaheadNode(LABELS, LABELLED, visiting).terms == [Terminal(1, [], [], None, 0, [])]
  {
    L.EncloseNone([Terminal(1, [], [], None, 0, [])]);
  }
}
