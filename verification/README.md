# Syntaxa, modelled and verified

Syntaxa is a parsing engine built around one grammar tree (token, concatenation, choice,
repetition, option, empty, bracketed nest, reference). Rules are combinators that both parse
and publish such a tree; the tree is also lowered to a state graph for editors and to a
context-free grammar for analysis. This project models its three cores and proves that they
agree.

**Meaning.** `Languages` and `Semantics` give every grammar node a language, by derivations of
bounded height so that recursive references are well founded. `Exact` is the language of the
node; `Lowered` relaxes repeat bounds to star and plus, which is what both lowerings compute.

**Lowering** (`Guards`, `Terminals`, `Lookaheads`, `Advance`, `LoweringPass`, `StateGraph`,
`GuardRuns`, `GuardConjunction`, `GuardCrossing`, `LostGuard`, `GraphBuilder`, `PatternGrammar`,
`PatternGrammarPass`). Lookahead and advance are shown to be exact derivatives; the state graph,
run as a pushdown machine, and the generated context-free grammar are shown to keep the language.
The passes are classes with loops, each tied to the function that specifies it.

**Operator precedence** (`Pratt`, `PrattLanguage`, `PrattGrammar`, `PrattGrammarMeaning`,
`PrattGrammarExact`, `Orders`). The parser is characterised exactly by binding powers; the
language of the generated level grammar is told from the powers, with the exact condition under
which it is the parser's.

**Engine** (`TokenStreams`, `Sources`, `ErrorScopes`, `ErrorBuffer`, `Recovery`, `ListRule`,
`Rules`, `ChoiceDispatch`, `Engine`, `EngineTransaction`, `EngineLedger`, `EngineSoundness`,
`EngineTrees`, `Readings`, `EngineBuilds`, `EngineRenaming`, `EngineIdle`, `EngineDemands`,
`EngineChoice`, `ChoiceOrder`, `EngineCommitment`, `EngineLeft`, `EngineSync`, `EngineFailures`,
`EngineFuel`, `EngineLoops`, `EngineProgress`, `EngineTermination`, `EngineParse`, `Determinacy`,
`Predictability`, `DueBodies`, `EngineCompleteness`, `ParseExactness`, `ParserState`,
`ParserEngine`, `ParserDriver`). Rule closures become a datatype of combinators. `Engine`
specifies execution on one state value; `ParserEngine` runs it on shared objects (stream with peek
cache, error buffer, recovery stack, ledger) and is shown to agree with it. Failure restores what
it must, results own their nodes, trees follow the input, clean success reads a word of the
grammar and builds the tree its combinators promise, dispatch by the analysis is compared with
ordered choice, parses end, and what the parser accepts is accepted by both lowerings. By rules
that can be told apart from left to right (`Predictability`) a parse accepts exactly the words of
the grammar.

**Tree** (`Forests`, `Spans`, `LSTEditor`). The tree editor works on heap nodes; the forest they
stand for, the creation ledger, the node pool and the cached spans are kept in order by every
edit.

Lexer output is a slice of lexemes. A panic is an outcome of its own. `fuel` bounds the nesting
of rule execution and the rounds of a loop; `EngineFuel` shows that it never changes an answer and
`EngineTermination` that some amount is always enough.

## Assumptions and findings

- `analysis.Nullable` and FIRST sets come from a library that is not part of this model:
  nullability is taken as exact and FIRST as a superset. References are resolved, rules are
  productive and not left-recursive wherever a lowering theorem says so.
- Both lowerings ignore the upper bound of a repeat and treat every minimum of one or more as
  plus. Equality with the exact language is stated for repeats of 0.. and 1.. only; inclusion
  holds for all.
- Contexts of the state graph are identified by their whole terminal list and their flag. The
  hashed key (lowering/keys.go:9-33) omits the flag and so merges contexts that differ
  (`GraphBuilder.TerminalsForgetNullability`).
- Nest contexts are identified by the nest node. The code keys them by grammar label
  (lowering/state_graph.go:428); that is the same because a package panics on two boundary nodes
  with one label (grammar_package.go:173-186).
- A guard that is still pending when a nest opens is shifted by the opening bracket alone,
  although the whole nest is consumed before it is next looked at (lowering/state_graph.go:549-603).
  `GuardConjunction.NestShiftExact` says when that keeps its meaning, `GuardCrossing` when a run as
  a whole does not notice, and `LostGuard` shows one that does.
- The code makes an infix operator left-associative exactly when its right power exceeds its
  left power; README.md:74 and rule/doc.go:23 say the reverse. The code is followed.
- The Pratt theorems take operator tokens as the configuration is meant: no end of file among
  them, postfix apart from infix, and an implicit operator's predict set apart from both. The
  primary is a class of atoms that each take at least one token. The exact theorems about the level
  grammar also take no token as declared twice in one table and the primary's grammar as deriving
  what the primary takes.
- The level grammar describes less than the parser consumes unless prefix operators bind alike,
  postfix operators bind alike, and both at least as tightly as everything else
  (`PrattGrammarExact.LevelGrammarCovers`).
- Recovery's first phase runs to the end of file when it fails, so the second phase can never
  succeed (parser.go:492-540): a token that only no-consume sets list never stops the scan, although
  the comments promise otherwise; one that some consume set lists as well does. `Recovery.ScansAgree`
  says when that makes a difference.
- Choice dispatch is not ordered choice for list and required arms and what begins with them, which
  answer with an error instead of declining (rule/factory.go:262-263, 787-837).
  `EngineChoice.EngineDispatchExact` says for all arms when the two agree.
- A sequence, wrap or nest that recovers succeeds with an error node. It moves on when it does
  (`EngineProgress`): sequences and wraps leave no token in place of their own accord, and a nest,
  which leaves its closing bracket, errs only behind the opening one.
- Whether a failed rule replaces the error it holds by one of its own is decided by comparing that
  error's offset in the text with the index of a lexeme (parser.go:427-428), so an error at a small
  offset can be replaced by accident (`EngineFailures.ReportsExactly`).
- The bounded repetition does not retry after a recovery (rule/factory.go:1422), the unbounded
  one does. The unbounded one runs for ever exactly when its rounds come to succeed in place
  (rule/factory.go:1334-1338, `EngineLoops.RunsForEver`).
- A sequence's commitment compares start offsets, and the end-of-file lexeme starts at zero
  (rule/factory.go:1267-1279), so a sequence that starts at offset zero and reaches the end of
  file looks uncommitted, and only such a one (`EngineCommitment.CommitmentExact`).
- A failed parse still sets the failed result's node as root, computes spans and returns it
  (parser.go:263-309), although that node may have gone back to the pool. The model's results carry
  no node on failure.
- The parse-to-grammar and termination theorems assume that no rule expects the end-of-file token.
- `Freeze` sets the flag that would make the tree immutable and `end` clears it at once
  (ast_editor.go:46-53, 523-531), so no edit is ever refused as frozen.

## Model

| member | source | states |
|---|---|---|
| `Semantics.LangRepeat` | grammar.go:376-399 | A repeat node derives min to max copies of its body, without an upper end when max is absent. |
| `Semantics.LangReference` | grammar.go:549-558 | A reference derives what the rule of that name derives, and nothing when there is no such rule; derivations are measured by height, so recursive rules have a least meaning. |
| `Semantics.LoweredCoversExact` | lowering/lookahead.go:262-287 | The language with bounds relaxed to star and plus contains the exact one, and equals it when every repeat is 0.. or 1.. without an upper bound. |
| `Guards.GuardMatchesLookahead` | lookahead_guard.go:11-27 | The loop answers whether a stream meets every constraint. |
| `Guards.DedupeInPlace` | lowering/lookahead.go:86-96 | The in-place pass over the sorted array keeps each constraint once, at the front. |
| `Guards.MergeIsConjunction` | lowering/lookahead.go:48-67 | A stream meets the merged guard if and only if it meets both; the result is sorted and free of duplicates. |
| `Guards.MergeLaws` | lowering/lookahead.go:48-84 | Merging is commutative, associative and idempotent as a value, so the order in which arms are met never shows. |
| `Guards.ShiftChoiceGuardAfterConsume` | lowering/lookahead.go:102-133 | The loop computes the shifted guard, with mismatched offset-0 constraints kept as the code keeps them. |
| `Guards.ShiftExactness` | lowering/lookahead.go:102-133 | On every stream starting with the consumed token the guard holds exactly when its shift holds one token later: this is so if and only if the token meets the guard's offset-0 constraints or the shift contradicts itself. |
| `Guards.GuardPeekConstraints` | lookahead_guard.go:49-58 | The map records the token asked for at each offset, and the flag is raised exactly for self-contradictory guards. |
| `Guards.GuardsMutuallyExclusive` | lookahead_guard.go:29-47 | Exclusion is reported exactly when both guards are consistent and ask for different tokens at some offset. |
| `Guards.ExclusionIsExact` | lookahead_guard.go:29-47 | For consistent guards that difference is equivalent to no stream meeting both. |
| `GuardRuns.NodeSum` | lowering/lookahead.go:135-260 | The guard of each lookahead terminal holds exactly the constraints of the choice arms passed through on the way to it. |
| `GuardRuns.LevelSum` | lowering/advance.go:8-98 | After an advance a terminal's guard holds the shifted pending guard and the guards of the arms newly entered, and nothing else. |
| `GuardRuns.RunsAreMachineRuns` | lowering/state_graph.go:549-648 | The contexts of a run move exactly as the state graph's pushdown machine moves them, into nests, through them and out again. |
| `GuardRuns.RunSum` | lowering/state_graph.go:413-648 | In every run of the machine, inside nests and after them, the guard of the terminal taken holds exactly what is left, after each token it was shifted at, of the guards of the arms entered on the way to it. |
| `GuardConjunction.NestShiftExact` | lowering/state_graph.go:549-603 | Across a nest of two or more tokens, shifting a guard by the opening bracket keeps its meaning on every stream if and only if the bracket is all it asks for, or the shift contradicts itself. |
| `GuardConjunction.RunGuardIsConjunction` | lowering/state_graph.go:413-648 | When each token was taken while its terminal's guard held, the next terminal's guard holds if and only if every arm entered anywhere in the run held its guard where it was entered, and what guards still ask for across a nest holds here. |
| `GuardConjunction.SpentRunsAreConjunctions` | lowering/state_graph.go:413-648 | When no guard asks for more than the opening bracket wherever the run enters a nest, the terminal's guard is exactly the conjunction of all arms' guards. |
| `GuardCrossing.ConjunctionExact` | lowering/state_graph.go:413-648 | For any run, over all streams that go on from it: the guard of its last terminal is the conjunction of the arms entered if and only if the arms cannot all hold anyway, or all that guards still ask for across a nest is asked for by the token just taken, a guard an earlier token was taken under, or an arm entered here. |
| `LostGuard.GuardLostAcrossNest` | lowering/state_graph.go:549-603 | An input, addressed and with an exact analysis: a run of four tokens on which every arm held its guard and every token was taken under guard, and the guard of the terminal behind the nest fails. |
| `Lookaheads.LookaheadExact` | lowering/lookahead.go:175-328 | For every token, the derivative of a node's language is the union of what follows its terminals for that token, and nullability agrees; references recurse under the visiting set. |
| `Lookaheads.ConcatExact` | lowering/lookahead.go:330-363 | The same for a sequence: terminals of each child up to the first that cannot be empty, with the rest appended. |
| `Lookaheads.ArmExact` | lowering/lookahead.go:154-173 | Filtering an arm by a FIRST superset and attaching its guard loses no word of the arm. |
| `Lookaheads.ChoiceExact` | lowering/lookahead.go:225-260 | The same for a choice over all its arms. |
| `Lookaheads.LookaheadIsFirstStep` | lowering/lookahead.go:175-363 | A non-empty word is in a node's language if and only if some returned terminal carries its first token and the rest lies in what follows that terminal (body and close first, for a nest); the empty word agrees with the flag. |
| `LoweringPass.Lowerer.LookaheadNode` | lowering/lookahead.go:175-223 | The recursive pass with its shared visiting set returns the specified terminals and flag and leaves the visiting set as it found it. |
| `LoweringPass.Lowerer.LookaheadConcat` | lowering/lookahead.go:330-363 | The loop with its early exit computes the specified terminals of a sequence. |
| `LoweringPass.Lowerer.LookaheadChoice` | lowering/lookahead.go:225-260 | The loop over the arms, with filter and guard, computes the specified terminals of a choice. |
| `LoweringPass.Lowerer.LookaheadRepetition` | lowering/lookahead.go:262-287 | The frame pushed on each terminal and the nullability of repeat and optional nodes are as specified. |
| `LoweringPass.Lowerer.LookaheadReference` | lowering/lookahead.go:289-317 | Marking the target, entering its rule and unmarking it computes the specified terminals, and none on a cycle. |
| `LoweringPass.Lowerer.FilterTermsByArmFirst` | lowering/lookahead.go:154-173 | The filter keeps exactly the terminals whose token is in the set, in order, and everything for an empty set. |
| `LoweringPass.Lowerer.AdvanceTerminal` | lowering/advance.go:8-37 | The loop over remaining nodes and frames computes the specified next terminals and flag. |
| `LoweringPass.Lowerer.ComputeLookaheadForFrame` | lowering/advance.go:50-80 | A repetition frame yields another round followed by its rest, then its rest alone. |
| `LoweringPass.Lowerer.AppendLookaheadWithStack` | lowering/advance.go:82-98 | The outer frames and the shifted guard are put back on every new terminal, behind the result so far. |
| `Advance.FrameExact` | lowering/advance.go:50-80 | The lookahead of a frame decomposes that frame's language, loop or not. |
| `Advance.AdvanceLevelsExact` | lowering/advance.go:8-37 | Walking the frames outwards until one cannot be skipped decomposes the language of the whole stack. |
| `Advance.AdvanceExact` | lowering/advance.go:8-98 | What may follow a terminal's token is decomposed exactly, with a flag that holds iff nothing need follow, and the list is empty iff nothing can. |
| `StateGraph.ContentMeaning` | lowering/state_graph.go:413-505 | The content context of a nest stands for its body followed by its closing bracket, and its terminals carry one extra pop. |
| `StateGraph.PopShape` | lowering/state_graph.go:605-648 | A completed terminal pops its context, and inside a nest the wrapper with it. |
| `StateGraph.NestStep` | lowering/state_graph.go:549-603 | Opening a nest leaves continuation, wrapper and content on the stack, which together stand for what may follow the bracket. |
| `StateGraph.StepMeaning` | lowering/state_graph.go:283-307 | Every transition from a well stacked configuration leads to one that stands for exactly the derivative. |
| `StateGraph.MachineExact` | lowering/state_graph.go:549-648 | From any well stacked configuration the machine accepts exactly the configuration's language. |
| `StateGraph.StateGraphExact` | lowering/state_graph.go:160-249 | Started at the entry rule the machine accepts exactly the relaxed language, always all exact words, and exactly those when all repeats are plain. |
| `StateGraph.NestPopsContentAndWrapper` | lowering/state_graph.go:413-505 | The words that bring a nest's content to completion are exactly its body and close, and such a run uncovers precisely the stack that lay below content and wrapper. |
| `GraphBuilder.Builder.GetOrCreateContext` | lowering/state_graph.go:309-361 | Looking a context up by its terminals and flag registers and queues it at most once. |
| `GraphBuilder.Builder.GetOrCreateNestBody` | lowering/state_graph.go:413-505 | A nest registers its wrapper and its content together. |
| `GraphBuilder.Builder.BuildTransitionFor` | lowering/state_graph.go:549-648 | The transition built is the specified one and enters only contexts registered by then. |
| `GraphBuilder.Builder.BuildStateGraph` | lowering/state_graph.go:160-249 | When the worklist empties every reachable context has all its transitions, and it empties whenever the reachable contexts fit the budget. |
| `GraphBuilder.FinishedGraphExact` | lowering/state_graph.go:160-249 | A finished graph, run by its stored edges alone, accepts exactly the entry rule's relaxed language. |
| `GraphBuilder.TerminalsForgetNullability` | lowering/keys.go:9-33 | With an exact analysis two nodes can have the same terminals and differ in nullability, so a key of terminals alone merges different contexts. |
| `PatternGrammar.NodeEquation` | lowering/grammar_to_contexta.go:178-294 | Each generated rule satisfies the equation of its node over the nonterminals of its children, including the star and plus desugaring. |
| `PatternGrammar.RuleInNode` | lowering/grammar_to_contexta.go:178-294 | No generated rule derives a word its node does not. |
| `PatternGrammar.RulesMeanNodes` | lowering/grammar_to_contexta.go:178-294 | Each node's nonterminal derives exactly the node's relaxed language, hence all its exact words, and exactly those when all repeats are plain. |
| `PatternGrammarPass.PathsDistinct` | grammar.go:243-280 | Within one tree two nodes that received the same address are the same node. |
| `PatternGrammarPass.PackagePathsDistinct` | grammar.go:231-280 | The same across all roots of a package. |
| `PatternGrammarPass.PackageAddressed` | grammar.go:231-280 | Finalising the addresses of a package whose references resolve to its own nodes makes it what the conversion expects: every node addressed, no address shared, closed under children and references. |
| `PatternGrammarPass.Collector.CollectPostOrder` | lowering/grammar_to_contexta.go:117-134 | The walk marks a node and everything it leads to, and adds only what is reachable from it. |
| `PatternGrammarPass.ToPatternGrammar` | lowering/grammar_to_contexta.go:24-83 | The result is closed, has one rule per collected node, and collects exactly what the supplied roots reach. |
| `Pratt.RoundTrip` | rule/pratt.go:531-583 | Every tree that obeys the binding powers, printed in order and followed by a token no operator takes, parses back to itself and stops there. |
| `Pratt.ExprSound` | rule/pratt.go:531-583 | Every parse returns a tree that obeys the binding powers, whose tokens are those consumed, before a token that no operator accepts at the minimum power. |
| `Pratt.PrattExact` | rule/pratt.go:531-808 | The parser returns a tree and a rest if and only if they are such a decomposition, and fails only when there is none. |
| `Pratt.TreeUnique` | rule/pratt.go:531-808 | The binding powers leave at most one tree for an input. |
| `Pratt.Associativity` | rule/pratt.go:720-747 | An infix operator applied twice nests to the left exactly when its right power exceeds its left power, and to the right otherwise. |
| `Pratt.PrattParser.RunPrefix` | rule/pratt.go:585-674 | The prefix step over the shared cursor consumes and returns what is specified. |
| `Pratt.PrattParser.RunExpression` | rule/pratt.go:531-583 | The loop over the shared cursor, updating its left operand, returns what is specified and never moves back. |
| `PrattLanguage.FlatConsumed` | rule/pratt.go:531-583 | With no negative left power, operands joined by operators are fully consumed at minimum power zero. |
| `PrattLanguage.TreeIsFlat` | rule/pratt.go:531-808 | The tokens of every tree are operands joined by operators. |
| `PrattLanguage.FlatAcceptance` | rule/pratt.go:531-583 | With no negative left power, the parser at minimum power zero consumes exactly the words that are operands joined by operators, whatever the powers. |
| `PrattGrammar.BuildConfigMaps` | rule/pratt.go:197-226 | The operator maps are the tables of the configured lists, the last entry for a token winning. |
| `PrattGrammar.GroupOperatorsByBP` | rule/pratt.go:360-405 | Each level lists, in configuration order, the operators of its power, and no level is empty. |
| `PrattGrammar.GetSortedBPsAscending` | rule/pratt.go:407-414 | The powers in use, each once, ascending. |
| `PrattGrammar.LevelLabelsDistinct` | rule/pratt.go:517-519 | Different powers, negative ones included, get different level labels. |
| `PrattGrammar.BuildPrecedenceChain` | rule/pratt.go:416-452 | One production per power, loosest first, each resting on the next. |
| `PrattGrammar.BuildPrattGrammar` | rule/pratt.go:340-358 | The published grammar refers to the loosest level, or is the primary's when there are no operators. |
| `PrattGrammarMeaning.PrattConcatMeans` | rule/pratt.go:489-515 | Flattening nested sequences keeps the language of the concatenation. |
| `PrattGrammarMeaning.SafeChoiceMeans` | rule/pratt.go:521-529 | Dropping the choice around a single option keeps its language. |
| `PrattGrammarMeaning.SingleLevelMeans` | rule/pratt.go:454-487 | A level derives its prefixes, then the next level, then any number of its suffixes. |
| `PrattGrammarMeaning.LevelRootMeans` | rule/pratt.go:416-452 | The installed chain of productions gives every level that meaning, down to the primary. |
| `PrattGrammarMeaning.RootFlat` | rule/pratt.go:416-515 | Every word of the level grammar is operands joined by operators. |
| `PrattGrammarMeaning.LevelGrammarConsumed` | rule/pratt.go:416-515 | The runtime parser at minimum power zero fully consumes every word of the level grammar if and only if no operator has a negative left power. |
| `PrattGrammarExact.FlatUnique` | rule/pratt.go:531-583 | A word is operands joined by operators in at most one way. |
| `PrattGrammarExact.LevelExact` | rule/pratt.go:454-487 | A level derives exactly the words whose operators keep to their levels and have powers from its own on, when the next level derives those above it. |
| `PrattGrammarExact.LevelGrammarExact` | rule/pratt.go:416-515 | The published grammar derives operands joined by operators if and only if prefix operators tighten inwards, an operand behind an infix or implicit operator starts with no looser prefix operator, and nothing tighter follows a postfix operator. |
| `PrattGrammarExact.LevelGrammarCovers` | rule/pratt.go:416-515 | It derives every word the parser consumes if and only if all prefix operators have the same right power, all postfix operators the same left power, and neither is below the left power of an infix or implicit operator. |
| `PrattGrammarExact.LooseMinusMissed` | rule/pratt.go:454-487 | An input: a prefix operator of power 1 behind an infix operator of power 5 is consumed and not derived. |
| `PrattGrammarExact.LoosePostfixMissed` | rule/pratt.go:454-487 | An input: a postfix operator of power 5 behind one of power 1 is consumed and not derived. |
| `TokenStreams.FirstShown` | rule_context.go:38-59 | Skipping the hidden run lands on the first element of the filtered stream, or on its end. |
| `TokenStreams.TokenStream.ResolveNextVisibleRaw` | rule_context.go:38-47 | Cached or not, the answer is the offset of the first lexeme that is not hidden. |
| `TokenStreams.TokenStream.SkipForward` | rule_context.go:49-59 | The cursor moves over exactly the hidden run. |
| `TokenStreams.TokenStream.Peek` | rule_context.go:61-98 | Peek(n) is the n-th element of the stream filtered by the current skip roles, or its end of file, and the cache stays coherent. |
| `TokenStreams.TokenStream.Consume` | rule_context.go:104-107 | Consume returns Peek(0) and advances just past it. |
| `TokenStreams.TokenStream.ConsumeRaw` | rule_context.go:109-111 | One raw lexeme is taken and the cache dropped. |
| `TokenStreams.TokenStream.PushSkipRoles` | rule_context.go:302-311 | Only the newest set of skipped roles counts afterwards. |
| `TokenStreams.TokenStream.PopSkipRoles` | rule_context.go:313-320 | The previous set counts again. |
| `TokenStreams.TokenStream.Save` | rule_context.go:811-816 | A snapshot holds the cursor and the cache, and fits the current stream. |
| `TokenStreams.TokenStream.Restore` | rule_context.go:817-822 | Restoring brings the cursor back, and the cache is coherent afterwards exactly when the snapshot fits the current skip roles. |
| `TokenStreams.SnapshotKeepsFitting` | rule_context.go:811-822 | A snapshot taken under one set of skipped roles fits every later moment with the same set. |
| `Sources.AdvanceTakes` | rule_context.go:104-107 | Short of the end of file, consuming moves on and takes exactly the token peeked at. |
| `Sources.AdvancePeeks` | rule_context.go:61-107 | After consuming, Peek(n) is what Peek(n+1) was. |
| `ErrorScopes.RunEffect` | syntax_errors.go:61-145 | Whatever a scope's body does, nested scopes and delimiter regions included, its effect is to append what was committed in order and to keep the furthest report as best. |
| `ErrorScopes.RollbackRestores` | syntax_errors.go:67-94 | A rolled back scope leaves everything exactly as before it was opened. |
| `ErrorScopes.OutermostCommit` | syntax_errors.go:67-94 | Committing the outermost scope publishes its errors, in order, and its best. |
| `ErrorScopes.FurthestIs` | syntax_errors.go:216-235 | The best is the first report at the furthest position, a parser report taking the place of a lexer's. |
| `ErrorBuffer.SyntaxErrors.PushFrame` | syntax_errors.go:61-65 | The flat buffer with start indices opens a scope of the nested view. |
| `ErrorBuffer.SyntaxErrors.PopFrame` | syntax_errors.go:67-94 | Truncating or keeping the flight is rollback or commit of the nested scope, outermost or not. |
| `ErrorBuffer.SyntaxErrors.FlushFramesCommitAll` | syntax_errors.go:96-100 | Everything the open scopes hold is published, once and in order, each scope's best after what it encloses. |
| `ErrorBuffer.SyntaxErrors.ReplaceBest` | syntax_errors.go:102-111 | The innermost scope's best is replaced, if there is a scope. |
| `ErrorBuffer.SyntaxErrors.CurrentBestPosition` | syntax_errors.go:113-122 | The position reported is that of the innermost scope's best. |
| `ErrorBuffer.SyntaxErrors.CurrentFrameWouldBeEmptyOnPop` | syntax_errors.go:124-131 | The answer is whether the innermost scope holds neither a best nor anything committed into it. |
| `ErrorBuffer.SyntaxErrors.ReportError` | syntax_errors.go:133-151 | A report goes straight out when no scope is open and otherwise competes for the innermost best. |
| `ErrorBuffer.SyntaxErrors.PushDelimiterBoundary` | syntax_errors.go:153-158 | A delimiter region opens in the nested view. |
| `ErrorBuffer.SyntaxErrors.PopDelimiterBoundary` | syntax_errors.go:160-165 | It closes, handing on what it held. |
| `ErrorBuffer.SyntaxErrors.HasCommittedErrorInsideCurrentDelimiterBoundary` | syntax_errors.go:167-184 | The query over flight and frames agrees with the nested view: an error committed since the innermost region opened that reaches into it, or an open scope's best that does. |
| `ErrorBuffer.RegionNotices` | syntax_errors.go:167-184 | After any properly nested run inside a region, that query is true if and only if the run committed an error at or behind the region's start, or an open scope holds a best there. |
| `ErrorBuffer.SyntaxErrors.HasCommittedErrorSinceEntryRuleScope` | syntax_errors.go:200-202 | The answer is whether the flight has grown past the outermost entry scope's baseline. |
| `ErrorBuffer.SyntaxErrors.HasCommittedSyntaxErrors` | syntax_errors.go:204-214 | The answer is whether anything is published, in flight, or held as a best. |
| `ErrorBuffer.SyntaxErrors.BeginEntryRuleScope` | syntax_errors.go:186-191 | Only the outermost entry scope sets the baseline. |
| `ErrorBuffer.SyntaxErrors.EndEntryRuleScope` | syntax_errors.go:193-198 | The depth goes down by one. |
| `Recovery.RecoveryCore.PushRecovery` | rule_context.go:137-155 | The flat token flights with index ranges push one set of the stack. |
| `Recovery.RecoveryCore.PopRecovery` | rule_context.go:157-170 | They drop the innermost set, and nothing on an empty stack. |
| `Recovery.RecoveryCore.IsRecoveryToken` | rule_context.go:172-184 | The query agrees with the stack: the top set owns the token, or there is no barrier in the way of the defaults. |
| `Recovery.RecoveryCore.IsActiveRecoveryToken` | rule_context.go:199-217 | The answer is whether any set or the defaults own the token. |
| `Recovery.RecoveryCore.IsActiveConsumeRecoveryToken` | rule_context.go:219-236 | The same over consume sets only. |
| `Recovery.RecoveryCore.RecoveryTokenOwnership` | rule_context.go:238-255 | Consume or leave is decided by the innermost owning frame. |
| `Recovery.RecoveryCore.CollectAllRecoveryTokens` | rule_context.go:270-283 | Exactly the active tokens are listed, each once. |
| `Recovery.DeduplicateTokens` | rule_context.go:285-295 | The same tokens, each once. |
| `Recovery.PerformRecoveryDiscardPhase` | parser.go:509-540 | The scan lands on the first raw token at or after the cursor that it may stop at, and fails iff the end of file comes first. |
| `Recovery.PerformRecovery` | parser.go:492-507 | Two phases together do what the consume-only phase does alone, because a failed first phase leaves the cursor at the end of file. |
| `Recovery.SettleSyncToken` | parser.go:399-471 | The landing token is consumed unless its innermost owner leaves it in place. |
| `Recovery.FullScanStopsNoLater` | parser.go:492-507 | When the scan as run lands, a scan that also stopped at tokens to be left in place would land no later, and earlier only at a token no consume set lists. |
| `Recovery.ScansAgree` | parser.go:492-540 | The two scans have the same landing, or both fail, if and only if no token passed over before the landing or the end of file is listed by no-consume sets alone. |
| `Recovery.LeftTokenDiscarded` | parser.go:492-507 | An input: a token only a no-consume set lists is discarded on the way to a consume token, and without one recovery fails behind it. |
| `ListRule.RunListRule` | rule/factory.go:237-290 | The rule over the shared stream opens, handles the empty list, and runs the automaton as specified. |
| `ListRule.RunListAutomaton` | rule/factory.go:413-477 | The loop returns one lexeme per element in order, or the lexeme to blame. |
| `ListRule.GrammarWords` | rule/factory.go:354-411 | The published grammar derives exactly the bracketed, separated lists of the chosen trailing mode and empty-list setting. |
| `ListRule.ListExact` | rule/factory.go:237-477 | With distinct tokens the automaton accepts, up to a position, exactly the words of the published grammar, for all trailing modes and both settings, and returns the element lexemes in order. |
| `ListRule.ListGetsStuck` | rule/factory.go:413-543 | A rejected list is blamed on the first lexeme no list can go on with: what was read before it can be completed to a list, and with it that is impossible; one node was made once the list was opened and one for every element before the blame. |
| `ChoiceDispatch.ChoiceCandidateIndices` | choice_dispatch.go:33-86 | The loop with its skips lists, in ascending order, exactly the arms something is unknown of and those whose known first tokens hold the next token and whose every guard constraint names the token at its offset. |
| `ChoiceDispatch.CandidatesExact` | choice_dispatch.go:40-80 | Told from the analysis maps and the tokens alone: an arm known not to be nullable, with a known first set, is tried if and only if the next token is in that set and every constraint of its arm guard, or else of its own lookaheads, holds; any other arm always is. |
| `ChoiceDispatch.ExclusiveArms` | choice_dispatch.go:62-78 | Two such arms are never tried for the same tokens when their guards are reported to exclude each other. |
| `ChoiceDispatch.GuardDecides` | choice_dispatch.go:62-78 | Arms that start alike and differ in their second token: only the one whose guard names it is tried. |
| `ChoiceDispatch.CandidatesAscend` | choice_dispatch.go:33-86 | Candidates keep the order of the arms. |
| `EngineChoice.DispatchRefines` | rule/factory.go:2069-2147 | When the arms left out decline, trying only the candidates gives the outcome of trying all arms in order, with the ids handed out since shifted. |
| `EngineChoice.EngineDispatchExact` | rule/factory.go:2069-2147 | For all arms and any analysis, right or wrong: dispatch gives the outcome of ordered choice, ids aside, if and only if no arm answers, or the first that does is a candidate, or the candidates after it happen to give its outcome. |
| `EngineIdle.EngineIdles` | rule/factory.go:1060-2147 | A rule that demands nothing before its first token, run where no word of its published grammar can start, answers no match or, if its grammar has the empty word, may succeed on the spot; either way the input, the errors and all stacks are untouched. |
| `EngineDemands.BeginningDecides` | rule/factory.go:1060-1113 | A rule that begins with a list or a required rule, run where no word of its grammar can start, never answers no match: it errs, or recovers. |
| `EngineIdle.GuardedIdle` | rule/factory.go:671-725 | A rule whose own lookahead guard fails answers no match and touches nothing, through the wrappers that share its grammar node. |
| `EngineRenaming.EngineBlindToIds` | parser.go:311-471 | Node ids are only names: shifting the later ids before any rule runs shifts the later ids after it and changes nothing else. |
| `EngineChoice.ExcludedDeclines` | rule/factory.go:2122-2147 | When the analysis is right about an arm (not nullable, FIRST covers its first tokens, its guard is implied by the rule's own), an arm that it passes over and that demands nothing before its first token declines. |
| `EngineChoice.OwnGuardDispatch` | choice_dispatch.go:62-78 | An arm behind a lookahead of its own is not tried where that lookahead fails, when the analysis knows the arm's facts and no guard for it. |
| `EngineChoice.EngineDispatchRefines` | rule/factory.go:2069-2147 | With sound facts about every arm, and arms that demand nothing before their first token among those passed over, the engine's dispatched choice gives the outcome of ordered choice, node ids renamed. |
| `EngineDemands.DemandingNeverDeclines` | rule/factory.go:237-290 | Lists, required rules, options, repetitions from zero, sequences and wraps of such rules, roots that begin with one, and references to productions of that kind never answer no match, whatever lies ahead. |
| `EngineChoice.DispatchAgainstOrder` | rule/factory.go:2069-2147 | When the first arm passed over that does not decline ends the choice, dispatch and ordered choice agree, ids aside, if and only if an earlier arm answers or the later candidates happen to give that arm's own outcome. |
| `EngineChoice.EngineDispatchAgainstOrder` | rule/factory.go:2069-2147 | The same for the engine: the first arm passed over that demands, or rightly passed over and begins with a rule that demands, decides at any index whether dispatch is ordered choice. |
| `ChoiceOrder.DispatchIsNotOrder` | rule/factory.go:2069-2147 | An input, with rules as the factory builds them and exact facts: a program that is a choice of a list and a token, in front of that token, where dispatch succeeds and ordered choice fails. |
| `EngineFailures.RecoversExactly` | parser.go:399-540 | A rule whose body failed with an error scans from there: it stops at the first token a consume set in force lists, takes it unless its innermost owner leaves it, and if it is a barrier that owns it returns an error node; if the input ends first it is back where it started with the body's failure. |
| `EngineFailures.ReportsExactly` | parser.go:422-440 | What the failed body committed and its best error go to the scope around the rule; the rule puts a report of its own in place of the best exactly when it is not the entry rule, does not synchronise on the token it started at, and holds nothing, or a best whose offset equals the index of the lexeme it started at. |
| `EngineFailures.ContractEnforced` | parser.go:542-585 | A successful body makes the rule panic if and only if it took nothing although the contract on record (the target's, for a reference) asks it to consume and the end of file is not ahead, or owes a node and has none. |
| `EngineFailures.BracketFails` | rule/factory.go:1887-1902 | Behind an opening or prefix token a declining inner rule makes the whole rule decline, a failing one makes it fail, and a token left below is not left any further. |
| `EngineFailures.CloseIsMissing` | rule/factory.go:1943-1959 | Without its closing token a nest errs where its inner rule ended; it reports that token unless the inner rule committed an error at or behind the opening token or an open scope holds one there. |
| `EngineFailures.ListReports` | rule/factory.go:479-543 | A rejected list is an error, reported at the lexeme its automaton stopped at. |
| `EngineFailures.RequiredReports` | rule/factory.go:787-837 | A required rule that declines is reported at the end of the last lexeme before it, or at the next one where there is none. |
| `EngineFailures.RootStops` | rule/factory.go:839-914 | A root declines with its first part; a later part that declines makes it err, with a report only if nothing was committed since the entry rule began. |
| `EngineLeft.EnvelopeHandsOn` | parser.go:415-420 | A rule whose body failed behind a token left in place for an ancestor fails at that same token and leaves it too; it does not recover once more. |
| `EngineLeft.LoopFailsThere` | rule/factory.go:1346-1348 | A repetition whose round leaves a token for an ancestor fails there, whatever it has collected. |
| `EngineLeft.ChainHandsOn` | parser.go:415-420 | Through any chain of rules that hand the failure on, repetitions, choices, roots, references and wrappers among them, the outermost ends at the token the innermost left, and it is still left. |
| `EngineLeft.LeftTokenIsHandled` | parser.go:422-471 | A sequence, wrap, nest or prefix rule around such a failure finds the token ahead: if a consume set in force lists it the rule lands on it at once, takes it unless its innermost owner leaves it, and succeeds exactly if it is a barrier that owns it. |
| `EngineLeft.BlockTakesLeftToken` | parser.go:399-471 | So a block that lists the token as its own recovers behind it, however deep below it the token was left. |
| `EngineSync.ReferenceSynchronises` | rule_context.go:847-871 | A rule that fails with an error inside a reference lands no later than just behind the first token the target's registered recovery tokens hold. |
| `EngineTrees.TreeFollowsInput` | ast_editor.go:206-223 | In the tree of any success, recovered or not, all lexemes below a child stand in the input before those below the next one and before the node's own, each lies in what the rule consumed, and none is held twice. |
| `EngineBuilds.CleanSuccessBuilds` | rule/factory.go:1060-1113 | What a rule returns when it leaves no error is a reading of the input it consumed: a relation of positions and trees, one clause for each combinator, that says which lexemes are held, under which kind, in which order and under which nodes. |
| `EngineBuilds.PairBuilds` | rule/factory.go:1103-1105 | A sequence node of two token rules has exactly two children, the first token's node before the second's, each with its own lexeme and kind. |
| `EngineCompleteness.WordsAreTaken` | parser.go:311-471 | Where a word of a predictive rule's grammar stands and the token behind it goes on no word of the grammar after it, every run that answers succeeds just behind the word and adds no error. Predictive: what follows an option, repetition or part cannot go on it, an arm tried before the meant one declines, guards hold before the words they guard, contracts promise no more than the grammar. |
| `EngineCompleteness.Completeness` | parser.go:311-471 | And when the productions are not left-recursive and loops consume, some fuel gives that success. |
| `Predictability.DisjointDecides` | rule/factory.go:2069-2147 | Arms that start with different tokens, with nothing nullable or demanding before the last, meet the condition on choices. |
| `ParseExactness.ParseDecides` | parser.go:253-309 | A parse by a predictive entry rule succeeds, whenever it answers, if and only if the visible input is a word of the rule's grammar. |
| `ParseExactness.ParseExact` | parser.go:253-309 | With productions that are not left-recursive it answers, so acceptance is membership in the grammar. |
| `ParseExactness.OptionIsPredictive` | rule/factory.go:559-593 | An instance: a root over an optional token and another token is predictive, and its words are those with the optional token and without it. |
| `EngineTransaction.Transaction` | parser.go:311-471 | For every rule and state: a no-match failure, and any failure in probe mode, restores cursor, errors, recovery stack, regions and ledger exactly; every other outcome leaves all stacks balanced, the cursor not moved back, the errors only grown, and after a failure the ledger as it was. |
| `EngineLedger.NodesAreFresh` | parser.go:311-397 | Every node of the tree a rule returns was handed out while it ran, stands on the ledger of created nodes, and occurs in the tree once. |
| `EngineLedger.CutKeepsApart` | parser.go:311-397 | A tree built before a rule and the tree it returns share no node, and the mark a failed rule cuts the ledger at separates them. |
| `EngineTransaction.HandleFailureOk` | parser.go:399-471 | Restoring, recovering or committing after a failure keeps that contract although nested rules may have recovered and committed. |
| `EngineTransaction.SequenceMoves` | rule/factory.go:1060-1113 | A sequence keeps it through all its elements, insertions included. |
| `EngineTransaction.LoopMoves` | rule/factory.go:1324-1427 | Repetitions keep it through every round and retry. |
| `EngineTransaction.NestMoves` | rule/factory.go:1670-1741 | A nest keeps it and closes the delimiter region it opened on every path. |
| `EngineTransaction.ChoiceMoves` | rule/factory.go:2025-2147 | A choice keeps it over all arms tried. |
| `EngineSoundness.CleanSuccessReadsWord` | parser.go:311-471 | A success that leaves no error anywhere has consumed a word of the rule's published grammar, and an error failure outside probe mode always leaves one. |
| `EngineSoundness.SequenceSound` | rule/factory.go:1060-1113 | What a clean sequence consumed is a word of its elements' sequence. |
| `EngineSoundness.NestSound` | rule/factory.go:1670-1741 | What a clean nest consumed is its bracketed body. |
| `EngineFuel.FuelIrrelevant` | rule_context.go:847-871 | Two runs that both finish agree, so the bound on nesting only decides whether a run is followed to its end. |
| `EngineProgress.EngineConsumes` | rule/factory.go:118-2023 | A rule whose shape does not let it succeed on the spot moves the cursor whenever it succeeds, recoveries included, at every source and through references, and no rule moves it back. |
| `EngineProgress.LandingTaken` | parser.go:440-468 | A barrier that recovers to a success takes the token it landed on, unless that is one of its own tokens to be left in place. |
| `EngineTermination.EngineTerminates` | parser.go:311-397 | When no production comes back to itself before consuming and the body of every unbounded repetition consumes, barriers included unless they have tokens of their own to leave in place, every rule answers from every state on every source. |
| `EngineTermination.ParseTerminates` | parser.go:253-309 | Under the same conditions every parse ends. |
| `EngineTermination.BlocksTerminate` | rule/factory.go:1163-1740 | Nested blocks, whose unbounded repetition runs a node-building barrier or the block again, always answer. |
| `EngineLoops.RunsForEver` | rule/factory.go:1324-1359 | The unbounded repetition of a body that always answers runs out of every number of turns if and only if from some round on every round succeeds without moving the cursor. |
| `EngineLoops.RunsForEverAtEnd` | rule/factory.go:1324-1359 | A body that has to consume can do that only at the end of file, unless it is a barrier with tokens of its own to leave in place. |
| `EngineLoops.LoopCounts` | rule/factory.go:1324-1427 | A loop that ends well has counted exactly its successful rounds: neither recovered ones nor the one that ended it. |
| `EngineLoops.RecoveredRound` | rule/factory.go:1324-1453 | After a recovered error behind its start the unbounded loop goes round again from there, the bounded one ends with what it has. |
| `EngineLoops.LoopTerminates` | rule/factory.go:1324-1359 | A repetition whose body consumes on every success ends within the lexemes that are left, unless the body itself does not answer at a state the loop is in. |
| `EngineLoops.LoopDiverges` | rule/factory.go:1334-1338 | An unbounded repetition whose body succeeds from one state of a set into another never ends, whatever the body numbers or reports. |
| `EngineLoops.OptionLoopNeverAnswers` | rule/factory.go:1334-1338 | An input: zero or more of a sequence node around an option, at a token the option does not take, never answers. |
| `EngineCommitment.CommitmentExact` | rule/factory.go:1267-1279 | Progress goes unnoticed if and only if there was none, or it led from a lexeme at offset zero to the end of the input. |
| `EngineCommitment.MissingElement` | rule/factory.go:2189-2259 | When an element of a sequence declines: without progress the sequence declines too; after progress it goes on behind the element, with the error on record, exactly at a token of the element's follow set, and fails with an error anywhere else. |
| `EngineCommitment.SucceedsPastMissing` | rule/factory.go:2203-2206 | So a sequence with a declining element succeeds only where a token that may follow the element is ahead. |
| `EngineCommitment.ConsumedButDeclined` | rule/factory.go:1267-1279 | An input: a sequence that has consumed the whole input declines, and the choice around it goes on to a later arm. |
| `EngineParse.ParseEnds` | parser.go:253-309 | After the entry rule every scope is closed. |
| `EngineParse.FailureIsReported` | parser.go:253-309 | A finished parse is successful exactly when it reports no error. |
| `EngineParse.ParseSound` | parser.go:253-309 | After a successful parse all visible input is a word of the entry rule's grammar. |
| `EngineParse.EngineReturnsNode` | parser.go:542-585 | A rule held to return a node returns one whenever it succeeds, recovered or not. |
| `EngineParse.ParseBuilds` | parser.go:263-309 | The tree of a parse is that of the entry rule's run; on success there is one if the entry rule is held to return one, it holds its lexemes in the order of the input, and it is a reading of the whole visible input by the entry rule. |
| `EngineParse.ParsedIsAccepted` | lowering/state_graph.go:160-249 | What the parser accepts is accepted by the state graph and derived by the pattern grammar of the same rules. |
| `ParserEngine.Execute` | parser.go:311-397 | The engine on its shared stream, buffer, recovery stack and ledger does what the specification of rule execution says. |
| `ParserEngine.RunInEnvelope` | parser.go:311-397 | Snapshot, recovery frame, entry scope and error frame are set up and taken down around the rule as specified. |
| `ParserEngine.HandleFailureState` | parser.go:399-471 | Probe, no match, barrier and error failures restore, roll back, recover or commit as specified. |
| `ParserEngine.FinishSuccess` | parser.go:542-585 | A success that breaks the contract the rule is held to panics, any other is committed. |
| `Rules.ReferenceOfIs` | parser.go:551-558 | The production whose contract is used is the one the rule's own grammar node refers to, also through wrappers that share the node. |
| `ParserEngine.RunListCore` | rule/factory.go:1060-1113 | The loop over the elements, with commitment and follow-set insertion, returns what is specified. |
| `ParserEngine.JudgeElement` | rule/factory.go:2189-2259 | A failed element is skipped when the next token may follow it, and otherwise fails with the kind its progress calls for. |
| `ParserEngine.RunRootRule` | rule/factory.go:839-896 | The root sequence attaches its results and fails as specified. |
| `ParserEngine.FailRoot` | rule/factory.go:898-936 | A committed root reports only when nothing was committed since the entry scope opened. |
| `ParserEngine.RunRepeat` | rule/factory.go:1361-1569 | Both repetitions count rounds, check the minimum and build node or fragment as specified. |
| `ParserEngine.RunRepeatLoop` | rule/factory.go:1324-1427 | The unbounded loop retries after a recovery, the bounded one does not. |
| `ParserEngine.RunNestRule` | rule/factory.go:1670-1741 | Opening token, region, body and closing token are handled as specified on every path. |
| `ParserEngine.RunChoiceRule` | rule/factory.go:2069-2098 | With analysis only the candidates are tried, without it all arms. |
| `ParserEngine.RunChoiceLoop` | rule/factory.go:2100-2147 | Arms are tried in order until one does not decline. |
| `ParserEngine.RunOptionalRule` | rule/factory.go:559-593 | The inner rule runs in probe mode and its failure becomes an empty success. |
| `ParserEngine.RunOptionalSuffix` | rule/factory.go:727-785 | The suffix token, if next, is consumed and wraps the result. |
| `ParserEngine.RunRequiredRule` | rule/factory.go:787-837 | No match becomes an error with a report. |
| `ParserEngine.RunPrefixed` | rule/factory.go:1969-2023 | After the prefix token the inner rule is committed. |
| `ParserEngine.RunGuarded` | rule/factory.go:623-725 | A rule behind a lookahead runs only when the tokens ahead match. |
| `ParserEngine.RunExpectToken` | rule/factory.go:118-180 | A token of the set is consumed, with or without a node; any other is no match and nothing moves. |
| `ParserEngine.RunList` | rule/factory.go:237-290 | The list rule numbers its nodes and returns list or error as specified. |
| `ParserEngine.ExecuteReference` | rule_context.go:847-871 | A reference runs its target under the recovery tokens merged for it, and an unknown one panics. |
| `ParserDriver.ConcludeParse` | parser.go:263-309 | After the entry rule, no match is upgraded, trailing input is reported unless errors explain it, and the frames are flushed; the tree is the result's on success, and ok means that the rule succeeded, the input is at its end and nothing was reported. |
| `ParserDriver.ParseProgram` | parser.go:253-309 | A whole parse over a fresh context is as specified; it succeeds exactly when it reports nothing, and then the input is a word of the grammar. The tree is that of the entry rule's run, and on success a reading of the whole input in its order, present if the entry rule is held to return one. |
| `Forests.AttachKeepsForest` | ast_editor.go:183-204 | Attaching a parentless node that is not above its new parent keeps parents and children in step and the tree free of cycles. |
| `Forests.DetachKeepsForest` | ast_editor.go:281-308 | Detaching keeps both. |
| `Forests.ReplaceKeepsForest` | ast_editor.go:246-279 | Replacing, which does not look for cycles, keeps a forest if and only if the new node is not above the replaced node's parent. |
| `Forests.ResetKeepsForest` | ast_editor.go:130-166 | Blanking a set of nodes keeps a forest if and only if no edge joins the set to the rest. |
| `Forests.MoveOne` | ast_editor.go:206-223 | Detaching a fragment's next child and attaching it is one more step of moving the children in order. |
| `Forests.RankedIsAcyclic` | ast_editor.go:194-198 | A ranking of parents above children rules out every cycle of parent pointers. |
| `Forests.ForestIsRanked` | ast_editor.go:194-198 | Every forest has such a ranking, by subtree size. |
| `LSTEditor.LSTEditor.NewNode` | ast_editor.go:70-128 | A blank node leaves the pool, which grows only when empty, gets the next identity and enters the ledger; nothing else changes. |
| `LSTEditor.LSTEditor.NewTransientNode` | ast_editor.go:175-181 | A blank container is made outside ledger and pool. |
| `LSTEditor.LSTEditor.AttachChild` | ast_editor.go:183-204 | It refuses exactly a child that has a parent or is above its new parent, and otherwise appends it; the forest invariant holds either way. |
| `LSTEditor.LSTEditor.AttachResult` | ast_editor.go:206-223 | A node is appended; a fragment's children are moved in order, which succeeds iff none of them is above the new parent. |
| `LSTEditor.LSTEditor.Detach` | ast_editor.go:281-308 | The edge goes from both ends; a parentless node is left alone. |
| `LSTEditor.LSTEditor.Replace` | ast_editor.go:246-279 | The new node takes the old one's place in order; the invariant survives iff it was not above that place. |
| `LSTEditor.LSTEditor.TruncateCreated` | ast_editor.go:130-146 | The nodes made since a mark are blanked and pooled in order, the ledger is cut back, and all other nodes are as before. |
| `LSTEditor.LSTEditor.AddToken` | ast_editor.go:330-337 | The token is appended and the tree marked for recomputation. |
| `LSTEditor.LSTEditor.SetSpan` | ast_editor.go:348-358 | The span stored is not valid until recomputed. |
| `LSTEditor.LSTEditor.SetRoot` | ast_editor.go:55-58 | The tree is marked for recomputation. |
| `Spans.TokensUnfold` | ast_editor.go:462-495 | The tokens below a node are its own and those below its children. |
| `LSTEditor.LSTEditor.EnsureSpanValid` | ast_editor.go:451-507 | Afterwards every node below stores its true span; nothing else is touched, and unforced nothing changes when the spans were right. |
| `LSTEditor.LSTEditor.ComputeSpans` | ast_editor.go:510-520 | Every node reachable from the root then has a valid span iff its subtree holds a token, from the smallest start to the largest end; while no edit is pending the stored spans are already right. |
| `LSTEditor.LSTEditor.Freeze` | ast_editor.go:523-531 | The spans are made exact and the session ends with the frozen flag cleared; the editor is in order afterwards only when its ledger is empty. |

## Left out

- Debug dumpers, formatters and kind names (`ast_node_debugger.go`, `grammar_debugger.go`, `grammar_package_debugger.go`): text output only.
- `lowering/pda.go`, `lowering/get_analysis.go`: wrappers over libraries that are not part of this model.
- `lowering/keys.go` and its hashing: structural identity is used instead.
- The lexer-session token source, the lexer state stack and line mapping: foreign calls; the slice source is modelled.
- Recovery transitions in the state graph: markers whose pop depth is left to an outside consumer.
- Node kinds, context metadata, boundary flags and recovery ownership checks of the state graph, and the guards and recovery names carried beside the context-free grammar: they do not affect the language.
- The order in which the context-free rules are emitted: only which rules there are is stated.
- Sharing of grammar nodes whose lookaheads are rewritten in place: nodes are values here.
- Pratt rule-valued operators: their triggers come from external FIRST sets and repeat the token operators' proofs.
- Named slots, node attributes, revisions, diagnostic line caches and the post-processor: bookkeeping with no effect on the properties; children are positional.
- The pool's growth hook sees no slice capacity; its answer is a parameter.
- The engine builds trees as values and a ledger of identities; that the editor's heap carries the same trees is not stated.
- The `Path` and `Define` combinators and the merging of recovery tokens into the registry: composition of modelled parts; merged sets are an input.
- The scratch buffer for results, statistics, traces and message texts: an error carries its position, origin and owner.
- GraphBuilder.Builder.GetOrCreateContext: the code's key also holds the inherited synchronisation tokens, which only recovery transitions use.
- GraphBuilder.Builder.BuildStateGraph: the worklist runs under a budget of rounds, since a grammar may have infinitely many contexts; it finishes whenever the reachable contexts fit.
- ParserEngine.RunGuarded: does not model arbitrary lookahead predicates, only conjunctions of peeked tokens.
- ParserEngine.RunExpectToken: does not model a lexer error inside the token stream.
- ParserEngine.RunList: does not model a lexer error inside the token stream.
- ParserDriver.ConcludeParse: does not model the node a failed result still carries, nor setting it as root.
- ParserDriver.ParseProgram: the same.
- LSTEditor.LSTEditor.TruncateCreated: requires that nothing kept is joined to the nodes cut off. EngineLedger shows it of the engine's trees as values; that the heap nodes are joined no further is not stated. Forests.ResetKeepsForest shows that the condition is exact.
- EngineTermination.EngineTerminates: the condition is read off the shape of the rules, and a barrier with tokens of its own to leave in place, other than a token, nest or prefix rule, counts as able to succeed on the spot; so it is sufficient and not necessary. EngineLoops.RunsForEver is exact for one loop.
- EngineCompleteness.Completeness: the condition is read off the grammar combinator by combinator, without looking past the next token where parts follow one another; rules told apart only by ordered choice or by tokens further on are covered as far as guards and the analysis tell them apart.
