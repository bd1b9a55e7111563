/**
 The level grammar a Pratt rule publishes beside its parser: one production per binding
 power, loosest first, each referring to the next. It describes only flat words, so the
 parser consumes every word it derives, exactly when no operator has a negative left power.
 */
module PrattGrammar {
  import opened Languages
  import opened Grammars
  import opened Orders
  import opened Pratt

  datatype PrefixOp = PrefixOp(grammarLabel: Label, token: Token, rightBP: int, kind: Kind)
  datatype InfixOp = InfixOp(grammarLabel: Label, token: Token, leftBP: int, rightBP: int, kind: Kind)
  datatype PostfixOp = PostfixOp(grammarLabel: Label, token: Token, leftBP: int, kind: Kind)

  /** The client's tables, in declaration order. */
  datatype PrattConfig = PrattConfig(
    primary: Grammar,
    prefixOps: seq<PrefixOp>,
    postfixOps: seq<PostfixOp>,
    infixOps: seq<InfixOp>,
    implicitInfix: Option<InfixInfo>)

  // ---------------------------------------------------------- the parser's tables

  function PrefixTable(ops: seq<PrefixOp>): map<Token, PrefixInfo> {
    if ops == [] then map[] else
    var op := ops[|ops| - 1];
    PrefixTable(ops[..|ops| - 1])[op.token := PrefixInfo(op.rightBP, op.kind)]
  }

  function PostfixTable(ops: seq<PostfixOp>): map<Token, PostfixInfo> {
    if ops == [] then map[] else
    var op := ops[|ops| - 1];
    PostfixTable(ops[..|ops| - 1])[op.token := PostfixInfo(op.leftBP, op.kind)]
  }

  function InfixTable(ops: seq<InfixOp>): map<Token, InfixInfo> {
    if ops == [] then map[] else
    var op := ops[|ops| - 1];
    InfixTable(ops[..|ops| - 1])[op.token := InfixInfo(op.leftBP, op.rightBP, op.kind)]
  }

  /** The parser runs with the declared operators; a later declaration of a token replaces an earlier one. */
  ghost predicate TablesFrom(cfg: Config, config: PrattConfig) {
    && cfg.prefixMap == PrefixTable(config.prefixOps)
    && cfg.postfixMap == PostfixTable(config.postfixOps)
    && cfg.infixMap == InfixTable(config.infixOps)
    && cfg.implicitOp == config.implicitInfix
  }

  method BuildConfigMaps(config: PrattConfig)
    returns (prefixMap: map<Token, PrefixInfo>, infixMap: map<Token, InfixInfo>, postfixMap: map<Token, PostfixInfo>)
    ensures prefixMap == PrefixTable(config.prefixOps)
    ensures infixMap == InfixTable(config.infixOps)
    ensures postfixMap == PostfixTable(config.postfixOps)
  {
    prefixMap, infixMap, postfixMap := map[], map[], map[];
    for i := 0 to |config.prefixOps|
      invariant prefixMap == PrefixTable(config.prefixOps[..i])
    {
      assert config.prefixOps[..i + 1][..i] == config.prefixOps[..i];
      var op := config.prefixOps[i];
      prefixMap := prefixMap[op.token := PrefixInfo(op.rightBP, op.kind)];
    }
    for i := 0 to |config.infixOps|
      invariant infixMap == InfixTable(config.infixOps[..i])
    {
      assert config.infixOps[..i + 1][..i] == config.infixOps[..i];
      var op := config.infixOps[i];
      infixMap := infixMap[op.token := InfixInfo(op.leftBP, op.rightBP, op.kind)];
    }
    for i := 0 to |config.postfixOps|
      invariant postfixMap == PostfixTable(config.postfixOps[..i])
    {
      assert config.postfixOps[..i + 1][..i] == config.postfixOps[..i];
      var op := config.postfixOps[i];
      postfixMap := postfixMap[op.token := PostfixInfo(op.leftBP, op.kind)];
    }
    assert config.prefixOps[..|config.prefixOps|] == config.prefixOps;
    assert config.infixOps[..|config.infixOps|] == config.infixOps;
    assert config.postfixOps[..|config.postfixOps|] == config.postfixOps;
  }

  lemma {:induction false} PrefixTableHas(ops: seq<PrefixOp>, i: nat)
    requires i < |ops|
    ensures ops[i].token in PrefixTable(ops)
  {
    if i < |ops| - 1 {
      PrefixTableHas(ops[..|ops| - 1], i);
    }
  }

  lemma {:induction false} PrefixTableFrom(ops: seq<PrefixOp>, t: Token) returns (i: nat)
    requires t in PrefixTable(ops)
    ensures i < |ops| && ops[i].token == t && PrefixTable(ops)[t] == PrefixInfo(ops[i].rightBP, ops[i].kind)
  {
    i := |ops| - 1;
    if ops[i].token != t {
      i := PrefixTableFrom(ops[..i], t);
    }
  }

  lemma {:induction false} PostfixTableHas(ops: seq<PostfixOp>, i: nat)
    requires i < |ops|
    ensures ops[i].token in PostfixTable(ops)
  {
    if i < |ops| - 1 {
      PostfixTableHas(ops[..|ops| - 1], i);
    }
  }

  lemma {:induction false} PostfixTableFrom(ops: seq<PostfixOp>, t: Token) returns (i: nat)
    requires t in PostfixTable(ops)
    ensures i < |ops| && ops[i].token == t && PostfixTable(ops)[t] == PostfixInfo(ops[i].leftBP, ops[i].kind)
  {
    i := |ops| - 1;
    if ops[i].token != t {
      i := PostfixTableFrom(ops[..i], t);
    }
  }

  lemma {:induction false} InfixTableHas(ops: seq<InfixOp>, i: nat)
    requires i < |ops|
    ensures ops[i].token in InfixTable(ops)
  {
    if i < |ops| - 1 {
      InfixTableHas(ops[..|ops| - 1], i);
    }
  }

  lemma {:induction false} InfixTableFrom(ops: seq<InfixOp>, t: Token) returns (i: nat)
    requires t in InfixTable(ops)
    ensures i < |ops| && ops[i].token == t && InfixTable(ops)[t] == InfixInfo(ops[i].leftBP, ops[i].rightBP, ops[i].kind)
  {
    i := |ops| - 1;
    if ops[i].token != t {
      i := InfixTableFrom(ops[..i], t);
    }
  }

  // ---------------------------------------------------------- operators by power

  /** One power's operators, as grammar nodes in declaration order. */
  datatype Level = Level(prefixes: seq<Grammar>, postfixes: seq<Grammar>, infixes: seq<Grammar>, hasImplicit: bool)

  const NO_OPERATORS := Level([], [], [], false)

  function Node(grammarLabel: Label): NodeInfo {
    NodeInfo(None, grammarLabel, [], false)
  }

  function TokenNode(grammarLabel: Label, token: Token): Grammar {
    GToken(Node(grammarLabel), token)
  }

  function PrefixesAt(ops: seq<PrefixOp>, bp: int): seq<Grammar> {
    if ops == [] then [] else
    var op := ops[|ops| - 1];
    PrefixesAt(ops[..|ops| - 1], bp) + if op.rightBP == bp then [TokenNode(op.grammarLabel, op.token)] else []
  }

  function PostfixesAt(ops: seq<PostfixOp>, bp: int): seq<Grammar> {
    if ops == [] then [] else
    var op := ops[|ops| - 1];
    PostfixesAt(ops[..|ops| - 1], bp) + if op.leftBP == bp then [TokenNode(op.grammarLabel, op.token)] else []
  }

  function InfixesAt(ops: seq<InfixOp>, bp: int): seq<Grammar> {
    if ops == [] then [] else
    var op := ops[|ops| - 1];
    InfixesAt(ops[..|ops| - 1], bp) + if op.leftBP == bp then [TokenNode(op.grammarLabel, op.token)] else []
  }

  /** The operators of one power: prefix operators by right power, the others by left power. */
  function LevelAt(config: PrattConfig, bp: int): Level {
    Level(PrefixesAt(config.prefixOps, bp), PostfixesAt(config.postfixOps, bp), InfixesAt(config.infixOps, bp),
          config.implicitInfix.Some? && config.implicitInfix.value.leftBP == bp)
  }

  function LevelIn(levels: map<int, Level>, bp: int): Level {
    if bp in levels then levels[bp] else NO_OPERATORS
  }

  ghost predicate NoEmptyLevel(levels: map<int, Level>) {
    forall bp :: bp in levels ==> levels[bp] != NO_OPERATORS
  }

  ghost predicate GroupedPrefixes(before: map<int, Level>, after: map<int, Level>, ops: seq<PrefixOp>) {
    NoEmptyLevel(after) &&
    forall bp :: LevelIn(after, bp) ==
                 LevelIn(before, bp).(prefixes := LevelIn(before, bp).prefixes + PrefixesAt(ops, bp))
  }

  ghost predicate GroupedPostfixes(before: map<int, Level>, after: map<int, Level>, ops: seq<PostfixOp>) {
    NoEmptyLevel(after) &&
    forall bp :: LevelIn(after, bp) ==
                 LevelIn(before, bp).(postfixes := LevelIn(before, bp).postfixes + PostfixesAt(ops, bp))
  }

  ghost predicate GroupedInfixes(before: map<int, Level>, after: map<int, Level>, ops: seq<InfixOp>) {
    NoEmptyLevel(after) &&
    forall bp :: LevelIn(after, bp) ==
                 LevelIn(before, bp).(infixes := LevelIn(before, bp).infixes + InfixesAt(ops, bp))
  }

  lemma {:induction false} PrefixesStep(ops: seq<PrefixOp>, i: nat, bp: int)
    requires i < |ops|
    ensures PrefixesAt(ops[..i + 1], bp) ==
            PrefixesAt(ops[..i], bp) + if ops[i].rightBP == bp then [TokenNode(ops[i].grammarLabel, ops[i].token)] else []
  {
    assert ops[..i + 1][..i] == ops[..i];
  }

  function WithPrefix(levels: map<int, Level>, op: PrefixOp): map<int, Level> {
    var level := LevelIn(levels, op.rightBP);
    levels[op.rightBP := level.(prefixes := level.prefixes + [TokenNode(op.grammarLabel, op.token)])]
  }

  lemma {:induction false} PrefixLevelStep(was: Level, levels: map<int, Level>, ops: seq<PrefixOp>, i: nat, bp: int)
    requires i < |ops| && LevelIn(levels, bp) == was.(prefixes := was.prefixes + PrefixesAt(ops[..i], bp))
    ensures LevelIn(WithPrefix(levels, ops[i]), bp) == was.(prefixes := was.prefixes + PrefixesAt(ops[..i + 1], bp))
  {
    PrefixesStep(ops, i, bp);
    var sofar, node := PrefixesAt(ops[..i], bp), TokenNode(ops[i].grammarLabel, ops[i].token);
    if ops[i].rightBP == bp {
      assert (was.prefixes + sofar) + [node] == was.prefixes + (sofar + [node]);
    } else {
      assert sofar + [] == sofar;
    }
  }

  lemma GroupPrefixStep(before: map<int, Level>, levels: map<int, Level>, ops: seq<PrefixOp>, i: nat)
    requires i < |ops| && GroupedPrefixes(before, levels, ops[..i])
    ensures GroupedPrefixes(before, WithPrefix(levels, ops[i]), ops[..i + 1])
  {
    var after := WithPrefix(levels, ops[i]);
    forall bp
      ensures LevelIn(after, bp) ==
              LevelIn(before, bp).(prefixes := LevelIn(before, bp).prefixes + PrefixesAt(ops[..i + 1], bp))
    {
      PrefixLevelStep(LevelIn(before, bp), levels, ops, i, bp);
    }
  }

  method GroupPrefixes(before: map<int, Level>, ops: seq<PrefixOp>) returns (levels: map<int, Level>)
    requires NoEmptyLevel(before)
    ensures GroupedPrefixes(before, levels, ops)
  {
    levels := before;
    for i := 0 to |ops|
      invariant GroupedPrefixes(before, levels, ops[..i])
    {
      GroupPrefixStep(before, levels, ops, i);
      levels := WithPrefix(levels, ops[i]);
    }
    assert ops[..|ops|] == ops;
  }

  lemma {:induction false} PostfixesStep(ops: seq<PostfixOp>, i: nat, bp: int)
    requires i < |ops|
    ensures PostfixesAt(ops[..i + 1], bp) ==
            PostfixesAt(ops[..i], bp) + if ops[i].leftBP == bp then [TokenNode(ops[i].grammarLabel, ops[i].token)] else []
  {
    assert ops[..i + 1][..i] == ops[..i];
  }

  function WithPostfix(levels: map<int, Level>, op: PostfixOp): map<int, Level> {
    var level := LevelIn(levels, op.leftBP);
    levels[op.leftBP := level.(postfixes := level.postfixes + [TokenNode(op.grammarLabel, op.token)])]
  }

  lemma {:induction false} PostfixLevelStep(was: Level, levels: map<int, Level>, ops: seq<PostfixOp>, i: nat, bp: int)
    requires i < |ops| && LevelIn(levels, bp) == was.(postfixes := was.postfixes + PostfixesAt(ops[..i], bp))
    ensures LevelIn(WithPostfix(levels, ops[i]), bp) == was.(postfixes := was.postfixes + PostfixesAt(ops[..i + 1], bp))
  {
    PostfixesStep(ops, i, bp);
    var sofar, node := PostfixesAt(ops[..i], bp), TokenNode(ops[i].grammarLabel, ops[i].token);
    if ops[i].leftBP == bp {
      assert (was.postfixes + sofar) + [node] == was.postfixes + (sofar + [node]);
    } else {
      assert sofar + [] == sofar;
    }
  }

  lemma GroupPostfixStep(before: map<int, Level>, levels: map<int, Level>, ops: seq<PostfixOp>, i: nat)
    requires i < |ops| && GroupedPostfixes(before, levels, ops[..i])
    ensures GroupedPostfixes(before, WithPostfix(levels, ops[i]), ops[..i + 1])
  {
    var after := WithPostfix(levels, ops[i]);
    forall bp
      ensures LevelIn(after, bp) ==
              LevelIn(before, bp).(postfixes := LevelIn(before, bp).postfixes + PostfixesAt(ops[..i + 1], bp))
    {
      PostfixLevelStep(LevelIn(before, bp), levels, ops, i, bp);
    }
  }

  method GroupPostfixes(before: map<int, Level>, ops: seq<PostfixOp>) returns (levels: map<int, Level>)
    requires NoEmptyLevel(before)
    ensures GroupedPostfixes(before, levels, ops)
  {
    levels := before;
    for i := 0 to |ops|
      invariant GroupedPostfixes(before, levels, ops[..i])
    {
      GroupPostfixStep(before, levels, ops, i);
      levels := WithPostfix(levels, ops[i]);
    }
    assert ops[..|ops|] == ops;
  }

  lemma {:induction false} InfixesStep(ops: seq<InfixOp>, i: nat, bp: int)
    requires i < |ops|
    ensures InfixesAt(ops[..i + 1], bp) ==
            InfixesAt(ops[..i], bp) + if ops[i].leftBP == bp then [TokenNode(ops[i].grammarLabel, ops[i].token)] else []
  {
    assert ops[..i + 1][..i] == ops[..i];
  }

  function WithInfix(levels: map<int, Level>, op: InfixOp): map<int, Level> {
    var level := LevelIn(levels, op.leftBP);
    levels[op.leftBP := level.(infixes := level.infixes + [TokenNode(op.grammarLabel, op.token)])]
  }

  lemma {:induction false} InfixLevelStep(was: Level, levels: map<int, Level>, ops: seq<InfixOp>, i: nat, bp: int)
    requires i < |ops| && LevelIn(levels, bp) == was.(infixes := was.infixes + InfixesAt(ops[..i], bp))
    ensures LevelIn(WithInfix(levels, ops[i]), bp) == was.(infixes := was.infixes + InfixesAt(ops[..i + 1], bp))
  {
    InfixesStep(ops, i, bp);
    var sofar, node := InfixesAt(ops[..i], bp), TokenNode(ops[i].grammarLabel, ops[i].token);
    if ops[i].leftBP == bp {
      assert (was.infixes + sofar) + [node] == was.infixes + (sofar + [node]);
    } else {
      assert sofar + [] == sofar;
    }
  }

  lemma GroupInfixStep(before: map<int, Level>, levels: map<int, Level>, ops: seq<InfixOp>, i: nat)
    requires i < |ops| && GroupedInfixes(before, levels, ops[..i])
    ensures GroupedInfixes(before, WithInfix(levels, ops[i]), ops[..i + 1])
  {
    var after := WithInfix(levels, ops[i]);
    forall bp
      ensures LevelIn(after, bp) ==
              LevelIn(before, bp).(infixes := LevelIn(before, bp).infixes + InfixesAt(ops[..i + 1], bp))
    {
      InfixLevelStep(LevelIn(before, bp), levels, ops, i, bp);
    }
  }

  method GroupInfixes(before: map<int, Level>, ops: seq<InfixOp>) returns (levels: map<int, Level>)
    requires NoEmptyLevel(before)
    ensures GroupedInfixes(before, levels, ops)
  {
    levels := before;
    for i := 0 to |ops|
      invariant GroupedInfixes(before, levels, ops[..i])
    {
      GroupInfixStep(before, levels, ops, i);
      levels := WithInfix(levels, ops[i]);
    }
    assert ops[..|ops|] == ops;
  }

  /** Every power in use has its level, holding exactly its operators in declaration order. */
  ghost predicate Grouped(config: PrattConfig, levels: map<int, Level>) {
    forall bp :: LevelIn(levels, bp) == LevelAt(config, bp) && (bp in levels <==> LevelAt(config, bp) != NO_OPERATORS)
  }

  method GroupOperatorsByBP(config: PrattConfig) returns (levels: map<int, Level>)
    ensures Grouped(config, levels)
  {
    var prefixed := GroupPrefixes(map[], config.prefixOps);
    var postfixed := GroupPostfixes(prefixed, config.postfixOps);
    var infixed := GroupInfixes(postfixed, config.infixOps);
    levels := infixed;
    if config.implicitInfix.Some? {
      var bp := config.implicitInfix.value.leftBP;
      levels := levels[bp := LevelIn(levels, bp).(hasImplicit := true)];
    }
  }

  method GetSortedBPsAscending(levels: map<int, Level>) returns (bps: seq<int>)
    ensures Ascending(bps) && forall bp :: bp in bps <==> bp in levels
  {
    bps := SortedAscending(levels.Keys);
  }

  // ------------------------------------------------------------ building the chain

  function Digits(n: nat): string {
    (if n < 10 then "" else Digits(n / 10)) + [(('0' as int) + n % 10) as char]
  }

  /** Decimal notation. */
  function Itoa(n: int): string {
    if n < 0 then "-" + Digits(-n) else Digits(n)
  }

  function LevelLabel(base: Label, bp: int): Label {
    base + "_BP_" + Itoa(bp)
  }

  function Number(s: string): nat {
    if s == "" then 0 else
    var d := s[|s| - 1] as int - '0' as int;
    10 * Number(s[..|s| - 1]) + (if d < 0 then 0 else d)
  }

  lemma {:induction false} NumberOfDigits(n: nat)
    ensures Number(Digits(n)) == n && Digits(n) != "" && '0' <= Digits(n)[0]
    ensures Digits(n)[0] <= '9'
  {
    var s := Digits(n);
    if n < 10 {
      assert s == [(('0' as int) + n % 10) as char];
      assert s[..0] == "";
    } else {
      NumberOfDigits(n / 10);
      assert s[..|s| - 1] == Digits(n / 10);
    }
  }

  /** Distinct powers get distinct production labels, so no level overwrites another in the rule map. */
  lemma LevelLabelsDistinct(base: Label, p: int, q: int)
    requires LevelLabel(base, p) == LevelLabel(base, q)
    ensures p == q
  {
    var prefix := base + "_BP_";
    assert Itoa(p) == LevelLabel(base, p)[|prefix|..];
    assert Itoa(q) == LevelLabel(base, q)[|prefix|..];
    var a, b := if p < 0 then -p else p, if q < 0 then -q else q;
    NumberOfDigits(a);
    NumberOfDigits(b);
    assert p < 0 ==> Itoa(p)[1..] == Digits(a);
    assert q < 0 ==> Itoa(q)[1..] == Digits(b);
  }

  function ZeroOrMore(grammarLabel: Label, body: Grammar): Grammar {
    GRepeat(Node(grammarLabel), body, 0, None)
  }

  function SafeChoice(grammarLabel: Label, options: seq<Grammar>): Grammar {
    if |options| == 1 then options[0] else GChoice(Node(grammarLabel), options)
  }

  /** A concatenation that pulls up the children of an operand with the same label. */
  function PrattConcat(grammarLabel: Label, left: Grammar, right: Grammar): Grammar {
    var children :=
      if right.GConcat? && right.info.grammarLabel == grammarLabel then [left] + right.children
      else if left.GConcat? && left.info.grammarLabel == grammarLabel then left.children + [right]
      else [left, right];
    if |children| == 1 then children[0] else GConcat(Node(grammarLabel), children)
  }

  function LevelBody(grammarLabel: Label, l: Level, next: Grammar): Grammar {
    if l.prefixes == [] then next
    else PrattConcat(grammarLabel, ZeroOrMore(grammarLabel, SafeChoice(grammarLabel, l.prefixes)), next)
  }

  function SuffixChoices(grammarLabel: Label, l: Level, body: Grammar): seq<Grammar> {
    (if l.postfixes == [] then [] else [SafeChoice(grammarLabel, l.postfixes)]) +
    (if l.infixes == [] then [] else [GConcat(Node(grammarLabel), [SafeChoice(grammarLabel, l.infixes), body])]) +
    (if l.hasImplicit then [body] else [])
  }

  /** buildSingleLevel: prefix* next, then any number of this level's suffixes. */
  function SingleLevel(grammarLabel: Label, l: Level, next: Grammar): Grammar {
    var body := LevelBody(grammarLabel, l, next);
    var suffixes := SuffixChoices(grammarLabel, l, body);
    if suffixes == [] then body
    else PrattConcat(grammarLabel, body, ZeroOrMore(grammarLabel, SafeChoice(grammarLabel, suffixes)))
  }

  function WithLabel(g: Grammar, grammarLabel: Label): Grammar {
    g.(info := g.info.(grammarLabel := grammarLabel))
  }

  /** The tightest level rests on the primary, every other on the next tighter level. */
  function NextLevel(base: Label, config: PrattConfig, bps: seq<int>, i: nat): Grammar
    requires i < |bps|
  {
    if i == |bps| - 1 then config.primary else GReference(Node(base), LevelLabel(base, bps[i + 1]))
  }

  function LevelRoot(base: Label, config: PrattConfig, bps: seq<int>, i: nat): Grammar
    requires i < |bps|
  {
    WithLabel(SingleLevel(base, LevelAt(config, bps[i]), NextLevel(base, config, bps, i)), LevelLabel(base, bps[i]))
  }

  method BuildLevelRoot(base: Label, config: PrattConfig, levels: map<int, Level>, bps: seq<int>, i: nat)
    returns (levelRoot: Grammar)
    requires Grouped(config, levels) && i < |bps| && bps[i] in levels
    ensures levelRoot == LevelRoot(base, config, bps, i)
  {
    var next := config.primary;
    if i < |bps| - 1 {
      next := GReference(Node(base), LevelLabel(base, bps[i + 1]));
    }
    assert levels[bps[i]] == LevelIn(levels, bps[i]) == LevelAt(config, bps[i]);
    levelRoot := WithLabel(SingleLevel(base, levels[bps[i]], next), LevelLabel(base, bps[i]));
  }

  /** The first n level productions, loosest first. */
  function Chain(base: Label, config: PrattConfig, bps: seq<int>, n: nat): seq<Grammar>
    requires n <= |bps|
  {
    if n == 0 then [] else Chain(base, config, bps, n - 1) + [LevelRoot(base, config, bps, n - 1)]
  }

  ghost predicate AllPresent(bps: seq<int>, levels: map<int, Level>) {
    forall i :: 0 <= i < |bps| ==> bps[i] in levels
  }

  method AppendLevelRoot(base: Label, config: PrattConfig, levels: map<int, Level>, bps: seq<int>, i: nat, built: seq<Grammar>)
    returns (levelRoots: seq<Grammar>)
    requires Grouped(config, levels) && AllPresent(bps, levels) && i < |bps| && built == Chain(base, config, bps, i)
    ensures levelRoots == Chain(base, config, bps, i + 1)
  {
    assert bps[i] in levels;
    var root := BuildLevelRoot(base, config, levels, bps, i);
    levelRoots := built + [root];
  }

  method BuildPrecedenceChain(base: Label, config: PrattConfig, levels: map<int, Level>, bps: seq<int>)
    returns (levelRoots: seq<Grammar>)
    requires Grouped(config, levels) && AllPresent(bps, levels)
    ensures levelRoots == Chain(base, config, bps, |bps|)
  {
    levelRoots := [];
    for i := 0 to |bps|
      invariant levelRoots == Chain(base, config, bps, i)
    {
      levelRoots := AppendLevelRoot(base, config, levels, bps, i, levelRoots);
    }
  }

  /** bps lists every power in use, loosest first. */
  ghost predicate PowersOf(config: PrattConfig, bps: seq<int>) {
    Ascending(bps) && forall bp :: bp in bps <==> LevelAt(config, bp) != NO_OPERATORS
  }

  function Root(base: Label, config: PrattConfig, bps: seq<int>): Grammar {
    if bps == [] then config.primary else GReference(Node(base), LevelLabel(base, bps[0]))
  }

  /** root and levelRoots are the grammar published for the powers listed in bps. */
  ghost predicate Publishes(base: Label, config: PrattConfig, bps: seq<int>, root: Grammar, levelRoots: seq<Grammar>) {
    PowersOf(config, bps) && root == Root(base, config, bps) && levelRoots == Chain(base, config, bps, |bps|)
  }

  method BuildRoots(base: Label, config: PrattConfig, levels: map<int, Level>, sorted: seq<int>)
    returns (root: Grammar, levelRoots: seq<Grammar>)
    requires Grouped(config, levels) && AllPresent(sorted, levels)
    ensures root == Root(base, config, sorted) && levelRoots == Chain(base, config, sorted, |sorted|)
  {
    if |sorted| == 0 {
      return config.primary, [];
    }
    levelRoots := BuildPrecedenceChain(base, config, levels, sorted);
    root := GReference(Node(base), LevelLabel(base, sorted[0]));
  }

  lemma PowersInUse(config: PrattConfig, levels: map<int, Level>, bps: seq<int>)
    requires Grouped(config, levels) && Ascending(bps) && forall bp :: bp in bps <==> bp in levels
    ensures PowersOf(config, bps) && AllPresent(bps, levels)
  {
    forall i | 0 <= i < |bps| ensures bps[i] in levels { assert bps[i] in bps; }
  }

  /** The published grammar refers to the loosest level; without operators it is the primary's. */
  method BuildPrattGrammar(base: Label, config: PrattConfig) returns (root: Grammar, levelRoots: seq<Grammar>)
    ensures exists bps: seq<int> :: Publishes(base, config, bps, root, levelRoots)
  {
    var levels := GroupOperatorsByBP(config);
    var sorted := GetSortedBPsAscending(levels);
    PowersInUse(config, levels, sorted);
    root, levelRoots := BuildRoots(base, config, levels, sorted);
    assert Publishes(base, config, sorted, root, levelRoots);
  }
}
