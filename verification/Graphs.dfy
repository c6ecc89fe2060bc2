/** Graph specifications (api/dag/v1 graph messages) and what the validator promises about them. */
module Graphs {
  import opened Wrappers

  datatype FieldPredicate = FieldPredicate(fieldPath: string, op: string, value: string)

  datatype Condition =
    | Unset
    | Always(always: bool)
    | OnField(field: FieldPredicate)
    | OnSignal(signalName: string, payloadPredicate: Option<FieldPredicate>)

  datatype Transition = Transition(target: string, condition: Option<Condition>, priority: int)

  datatype NodeKind = KindUnspecified | Compute | Wait | Join | Terminal

  datatype TerminalOutcome = OutcomeUnspecified | Success | Failure

  datatype WaitConfig = WaitConfig(
    signalName: string,
    acceptedSignals: seq<string>,
    defaultDeadlineSeconds: int,
    onTimeoutTarget: string,
    mergeSignalPayload: Option<bool>)

  datatype JoinPolicy = PolicyUnspecified | AllSuccess | AnySuccess

  datatype Barrier = NoTarget | ChildEntity(childId: string) | ChildCorrelation(correlationId: string)

  datatype DynamicBarrier = DynamicBarrier(correlationPrefix: string, expectedCount: int, policy: JoinPolicy)

  datatype JoinSpec = JoinSpec(
    barriers: seq<Barrier>,
    policy: JoinPolicy,
    failParentOnChildFailure: bool,
    dynamicBarriers: seq<DynamicBarrier>)

  datatype Node = Node(
    nodeId: string,
    kind: NodeKind,
    unitId: string,
    compensatorUnitId: string,
    transitions: seq<Transition>,
    outcome: TerminalOutcome,
    waitConfig: Option<WaitConfig>,
    joinSpec: Option<JoinSpec>)

  datatype GraphSpec = GraphSpec(entryNodeId: string, nodes: map<string, Node>)

  // ---------- edges and paths ----------

  ghost predicate Edge(g: GraphSpec, a: string, b: string)
  {
    a in g.nodes && exists i :: 0 <= i < |g.nodes[a].transitions| && g.nodes[a].transitions[i].target == b
  }

  predicate TargetsExist(g: GraphSpec)
  {
    forall a, i :: a in g.nodes && 0 <= i < |g.nodes[a].transitions| ==> g.nodes[a].transitions[i].target in g.nodes
  }

  ghost predicate EdgeAt(g: GraphSpec, p: seq<string>, i: int)
  {
    0 <= i < |p| - 1 && Edge(g, p[i], p[i + 1])
  }

  ghost predicate Chain(g: GraphSpec, p: seq<string>)
  {
    forall i :: 0 <= i < |p| - 1 ==> EdgeAt(g, p, i)
  }

  lemma SubChain(g: GraphSpec, p: seq<string>, lo: nat, hi: nat)
    requires Chain(g, p) && lo <= hi <= |p|
    ensures Chain(g, p[lo..hi])
  {
    var q := p[lo..hi];
    forall k | 0 <= k < |q| - 1
      ensures EdgeAt(g, q, k)
    {
      assert EdgeAt(g, p, lo + k);
    }
  }

  lemma ChainExtends(g: GraphSpec, p: seq<string>, id: string)
    requires Chain(g, p) && (p != [] ==> Edge(g, p[|p| - 1], id))
    ensures Chain(g, p + [id])
  {
    var q := p + [id];
    forall k | 0 <= k < |q| - 1
      ensures EdgeAt(g, q, k)
    {
      if k < |p| - 1 {
        assert EdgeAt(g, p, k);
      }
    }
  }

  ghost predicate Cycle(g: GraphSpec, p: seq<string>)
  {
    |p| >= 2 && p[0] == p[|p| - 1] && Chain(g, p)
  }

  ghost predicate Acyclic(g: GraphSpec)
  {
    forall p :: !Cycle(g, p)
  }

  ghost predicate Distinct(s: seq<string>)
  {
    forall i, j :: 0 <= i < j < |s| ==> s[i] != s[j]
  }

  lemma {:induction false} DistinctFits(s: seq<string>, members: set<string>)
    requires Distinct(s) && forall i :: 0 <= i < |s| ==> s[i] in members
    ensures |s| <= |members|
  {
    if s != [] {
      DistinctFits(s[..|s| - 1], members - {s[|s| - 1]});
    }
  }

  /** On an acyclic graph a chain of edges never meets a node twice. */
  lemma ChainsAreDistinct(g: GraphSpec, p: seq<string>)
    requires Acyclic(g) && Chain(g, p)
    ensures Distinct(p)
  {
    forall i, j | 0 <= i < j < |p|
      ensures p[i] != p[j]
    {
      if p[i] == p[j] {
        SubChain(g, p, i, j + 1);
        assert Cycle(g, p[i..j + 1]);
      }
    }
  }

  /** A rank that strictly decreases along every transition. */
  ghost predicate Ranks(g: GraphSpec, rank: map<string, nat>)
  {
    && rank.Keys == g.nodes.Keys
    && forall a, b :: a in rank && Edge(g, a, b) ==> b in rank && rank[b] < rank[a]
  }

  lemma {:induction false} RankDecreases(g: GraphSpec, rank: map<string, nat>, p: seq<string>)
    requires Ranks(g, rank) && Chain(g, p) && |p| >= 2
    ensures p[0] in rank && p[|p| - 1] in rank && rank[p[|p| - 1]] < rank[p[0]]
  {
    var n := |p| - 1;
    assert EdgeAt(g, p, n - 1);
    if n >= 2 {
      SubChain(g, p, 0, n);
      RankDecreases(g, rank, p[..n]);
    }
  }

  lemma RankedIsAcyclic(g: GraphSpec, rank: map<string, nat>)
    requires Ranks(g, rank)
    ensures Acyclic(g)
  {
    forall p
      ensures !Cycle(g, p)
    {
      if Cycle(g, p) {
        RankDecreases(g, rank, p);
      }
    }
  }

  // ---------- reaching a terminal ----------

  /** Where a run can go from a: its transitions, and the timeout target of a WAIT node. */
  ghost predicate Route(g: GraphSpec, a: string, b: string)
  {
    || Edge(g, a, b)
    || (&& a in g.nodes && g.nodes[a].kind == Wait && g.nodes[a].waitConfig.Some?
        && b != "" && g.nodes[a].waitConfig.value.onTimeoutTarget == b)
  }

  ghost predicate RouteAt(g: GraphSpec, p: seq<string>, i: int)
  {
    0 <= i < |p| - 1 && Route(g, p[i], p[i + 1])
  }

  ghost predicate RouteTo(g: GraphSpec, p: seq<string>, start: string)
  {
    && |p| > 0 && p[0] == start
    && (forall i :: 0 <= i < |p| - 1 ==> RouteAt(g, p, i))
    && (forall i :: 0 <= i < |p| ==> p[i] in g.nodes)
    && g.nodes[p[|p| - 1]].kind == Terminal
  }

  ghost predicate TerminalReachable(g: GraphSpec, start: string)
  {
    exists p :: RouteTo(g, p, start)
  }

  // ---------- the validator's rules ----------

  predicate RequiresFallbackEdge(node: Node)
  {
    && node.kind != Terminal && node.kind != Wait && node.kind != Join
    && exists i :: 0 <= i < |node.transitions| && node.transitions[i].condition.Some?
                   && (node.transitions[i].condition.value.OnField? || node.transitions[i].condition.value.OnSignal?)
  }

  predicate HasAlwaysTransition(node: Node)
  {
    exists i :: 0 <= i < |node.transitions| && node.transitions[i].condition == Some(Always(true))
  }

  predicate WaitConfigValid(cfg: Option<WaitConfig>)
  {
    cfg.Some? && (cfg.value.signalName != "" || |cfg.value.acceptedSignals| > 0)
  }

  predicate KindValid(node: Node)
  {
    match node.kind
    case Compute => node.unitId != ""
    case Wait => WaitConfigValid(node.waitConfig)
    case Terminal => node.transitions == [] && node.outcome != OutcomeUnspecified
    case Join =>
      node.joinSpec.Some? && (node.joinSpec.value.barriers != [] || node.joinSpec.value.dynamicBarriers != [])
    case KindUnspecified => true
  }

  predicate NodeValid(g: GraphSpec, id: string, node: Node)
  {
    && node.nodeId == id
    && (forall i :: 0 <= i < |node.transitions| ==>
          node.transitions[i].target != "" && node.transitions[i].target in g.nodes)
    && KindValid(node)
    && (RequiresFallbackEdge(node) ==> HasAlwaysTransition(node))
  }

  function FilledNode(id: string, node: Node): Node
  {
    if node.nodeId == "" then node.(nodeId := id) else node
  }

  /** Nodes without an id take the key they are stored under. */
  function FillNodeIds(g: GraphSpec): GraphSpec
  {
    g.(nodes := map id | id in g.nodes :: FilledNode(id, g.nodes[id]))
  }

  ghost predicate WellFormed(g: GraphSpec)
  {
    && g.entryNodeId != "" && g.entryNodeId in g.nodes
    && (forall id {:trigger NodeValid(g, id, g.nodes[id])} :: id in g.nodes ==> NodeValid(g, id, g.nodes[id]))
    && Acyclic(g)
    && TerminalReachable(g, g.entryNodeId)
  }
}
