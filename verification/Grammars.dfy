/**
 The declarative grammar tree shared by the parser engine and the lowering passes,
 and the analysis facts attached to its nodes.
 */
module Grammars {
  import opened Languages

  datatype Option<+T> = None | Some(value: T)

  /** Names a production; the key of the rule map. */
  type Label = string

  /** A node address: the child indices from a rule root, written "0.2.1" in the source. */
  type Path = seq<nat>

  /** At the given peek offset the visible token must equal expected. */
  datatype Lookahead = Lookahead(offset: nat, expected: Token)

  /** The fields every node carries beside its kind. */
  datatype NodeInfo = NodeInfo(path: Option<Path>, grammarLabel: Label, lookaheads: seq<Lookahead>, hasRecovery: bool)

  datatype Grammar =
    | GToken(info: NodeInfo, token: Token)
    | GConcat(info: NodeInfo, children: seq<Grammar>)
    | GChoice(info: NodeInfo, children: seq<Grammar>)
    | GRepeat(info: NodeInfo, body: Grammar, min: nat, max: Option<nat>)
    | GOptional(info: NodeInfo, body: Grammar)
    | GEpsilon(info: NodeInfo)
    | GNest(info: NodeInfo, open: Token, close: Token, body: Grammar)
    | GReference(info: NodeInfo, target: Label)

  /** References resolve through this finite map. */
  type Rules = map<Label, Grammar>

  datatype GuardedArm = GuardedArm(first: set<Token>, guard: seq<Lookahead>)

  /** Nullable and FIRST facts keyed by node address. */
  datatype Analysis = Analysis(
    nullable: map<Path, bool>,
    first: map<Path, set<Token>>,
    armPredict: map<Path, GuardedArm>)

  /** Absent addresses read as not nullable. */
  function AnalysisNullable(analysis: Analysis, path: Path): bool {
    path in analysis.nullable && analysis.nullable[path]
  }

  /** The sub-grammars a node holds structurally; a reference holds none. */
  function ChildrenOf(g: Grammar): seq<Grammar> {
    match g
    case GConcat(_, children) => children
    case GChoice(_, children) => children
    case GRepeat(_, body, _, _) => [body]
    case GOptional(_, body) => [body]
    case GNest(_, _, _, body) => [body]
    case _ => []
  }

  lemma ChildrenSmaller(g: Grammar, c: Grammar)
    requires c in ChildrenOf(g)
    ensures c < g
  {
  }
}
