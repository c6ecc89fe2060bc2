/**
 The two depth-first searches of the validator (pkg/dag/graph/graph.go).

 Both are recursive closures over one mutable map; here the map is a field and the closure a
 method.  Ghost fields and parameters record what the searches leave implicit: the grey path, a
 rank for finished nodes, the route that was found.
 */
module GraphSearch {
  import opened Wrappers
  import opened Entities
  import opened Graphs

  datatype Colour = Grey | Black

  /** Grey nodes are exactly the current path; black nodes are ranked above all they lead to. */
  ghost predicate Coloured(g: GraphSpec, state: map<string, Colour>, rank: map<string, nat>, clock: nat,
          path: seq<string>)
  {
    && state.Keys <= g.nodes.Keys
    && (forall a :: a in rank <==> a in state && state[a] == Black)
    && (forall a :: a in path <==> a in state && state[a] == Grey)
    && Chain(g, path)
    && (forall a :: a in rank ==> rank[a] < clock)
    && (forall a, b :: a in rank && Edge(g, a, b) ==> b in rank && rank[b] < rank[a])
  }

  lemma EnterNode(g: GraphSpec, state: map<string, Colour>, rank: map<string, nat>, clock: nat, path: seq<string>,
          id: string)
    requires Coloured(g, state, rank, clock, path)
    requires id in g.nodes && id !in state && (path != [] ==> Edge(g, path[|path| - 1], id))
    ensures Coloured(g, state[id := Grey], rank, clock, path + [id])
  {
    ChainExtends(g, path, id);
  }

  lemma FinishNode(g: GraphSpec, state: map<string, Colour>, rank: map<string, nat>, clock: nat, path: seq<string>,
          id: string)
    requires Coloured(g, state, rank, clock, path + [id]) && id !in path
    requires forall b :: Edge(g, id, b) ==> b in rank
    ensures Coloured(g, state[id := Black], rank[id := clock], clock + 1, path)
  {
    var longer := path + [id];
    assert id in longer;
    assert forall a :: a in longer <==> a in path || a == id;
    SubChain(g, longer, 0, |path|);
    assert longer[0..|path|] == path;
  }

  lemma ColourOf(g: GraphSpec, state: map<string, Colour>, rank: map<string, nat>, clock: nat, path: seq<string>,
          id: string)
    requires Coloured(g, state, rank, clock, path)
    ensures Chain(g, path)
    ensures id in path <==> id in state && state[id] == Grey
    ensures id in rank <==> id in state && state[id] == Black
  {
  }

  lemma TransitionIsEdge(g: GraphSpec, id: string, i: nat)
    requires id in g.nodes && i < |g.nodes[id].transitions| && TargetsExist(g)
    ensures Edge(g, id, g.nodes[id].transitions[i].target) && g.nodes[id].transitions[i].target in g.nodes
  {
  }

  lemma AllEdgesSeen(g: GraphSpec, id: string, seen: set<string>)
    requires id in g.nodes
    requires forall k :: 0 <= k < |g.nodes[id].transitions| ==> g.nodes[id].transitions[k].target in seen
    ensures forall b :: Edge(g, id, b) ==> b in seen
  {
  }

  /** hasCycle: three colours, white being absence from the map. */
  class CycleSearch {
    const spec: GraphSpec
    var state: map<string, Colour>
    ghost var rank: map<string, nat>
    ghost var clock: nat

    constructor (spec: GraphSpec)
      ensures this.spec == spec && state == map[] && Valid([])
    {
      this.spec := spec;
      state, rank, clock := map[], map[], 0;
    }

    ghost predicate Valid(path: seq<string>)
      reads this
    {
      Coloured(spec, state, rank, clock, path)
    }

    method Visit(id: string, ghost path: seq<string>) returns (found: bool)
      requires TargetsExist(spec) && id in spec.nodes
      requires Valid(path) && (path != [] ==> Edge(spec, path[|path| - 1], id))
      modifies this
      decreases spec.nodes.Keys - state.Keys
      ensures found ==> !Acyclic(spec)
      ensures !found ==> Valid(path) && id in rank && old(rank.Keys) <= rank.Keys
      ensures old(state.Keys) <= state.Keys
    {
      hide Coloured, Chain, Acyclic, Edge;
      ColourOf(spec, state, rank, clock, path, id);
      if id in state {
        if state[id] == Grey {
          GreyClosesCycle(spec, path, id);
          return true;
        }
        return false;
      }
      EnterNode(spec, state, rank, clock, path, id);
      state := state[id := Grey];
      var node := spec.nodes[id];
      for i := 0 to |node.transitions|
        invariant Valid(path + [id]) && old(rank.Keys) <= rank.Keys
        invariant old(state.Keys) + {id} <= state.Keys
        invariant forall k :: 0 <= k < i ==> node.transitions[k].target in rank
      {
        TransitionIsEdge(spec, id, i);
        var inner := Visit(node.transitions[i].target, path + [id]);
        if inner {
          return true;
        }
      }
      AllEdgesSeen(spec, id, rank.Keys);
      FinishNode(spec, state, rank, clock, path, id);
      state := state[id := Black];
      rank, clock := rank[id := clock], clock + 1;
      return false;
    }
  }

  lemma GreyClosesCycle(g: GraphSpec, path: seq<string>, id: string)
    requires Chain(g, path) && id in path && Edge(g, path[|path| - 1], id)
    ensures !Acyclic(g)
  {
    var k :| 0 <= k < |path| && path[k] == id;
    var loop := path[k..] + [id];
    SubChain(g, path, k, |path|);
    assert path[k..|path|] == path[k..];
    ChainExtends(g, path[k..], id);
    assert Cycle(g, loop);
  }

  /** The search answers true exactly on graphs with a cycle; a false answer comes with a rank. */
  method HasCycle(spec: GraphSpec) returns (found: bool, ghost rank: map<string, nat>)
    requires TargetsExist(spec)
    ensures found <==> !Acyclic(spec)
    ensures !found ==> Ranks(spec, rank)
  {
    var search := new CycleSearch(spec);
    var unvisited := spec.nodes.Keys;
    rank := map[];
    while unvisited != {}
      invariant search.spec == spec && search.Valid([])
      invariant unvisited <= spec.nodes.Keys
      invariant forall a :: a in spec.nodes && a !in unvisited ==> a in search.rank
      decreases unvisited
    {
      var id :| id in unvisited;
      unvisited := unvisited - {id};
      if id !in search.state {
        var inner := search.Visit(id, []);
        if inner {
          return true, map[];
        }
      } else {
        ColourOf(spec, search.state, search.rank, search.clock, [], id);
      }
    }
    rank := search.rank;
    RankedIsAcyclic(spec, rank);
    return false, rank;
  }

  /** reachableTerminal: marks are shared by all branches of one search. */
  class ReachSearch {
    const spec: GraphSpec
    var visiting: set<string>

    constructor (spec: GraphSpec)
      ensures this.spec == spec && visiting == {}
    {
      this.spec := spec;
      visiting := {};
    }

    /** These nodes are no terminals and lead only to marked nodes (or nowhere). */
    ghost predicate Exhausted(nodes: set<string>)
      reads this
    {
      forall a :: a in nodes ==>
        && a in spec.nodes && spec.nodes[a].kind != Terminal
        && forall b :: Route(spec, a, b) && b in spec.nodes ==> b in visiting
    }

    method Visit(id: string) returns (found: bool, ghost route: seq<string>)
      modifies this
      decreases spec.nodes.Keys - visiting
      ensures found ==> RouteTo(spec, route, id)
      ensures old(visiting) <= visiting
      ensures !found ==> (id in spec.nodes ==> id in visiting) && Exhausted(visiting - old(visiting))
    {
      if id !in spec.nodes {
        return false, [];
      }
      var node := spec.nodes[id];
      if node.kind == Terminal {
        return true, [id];
      }
      if id in visiting {
        return false, [];
      }
      visiting := visiting + {id};
      for i := 0 to |node.transitions|
        invariant old(visiting) + {id} <= visiting
        invariant Exhausted(visiting - old(visiting) - {id})
        invariant forall k :: 0 <= k < i && node.transitions[k].target in spec.nodes ==>
            node.transitions[k].target in visiting
      {
        ghost var before := visiting;
        var inner, rest := Visit(node.transitions[i].target);
        if inner {
          assert Edge(spec, id, node.transitions[i].target);
          RouteExtends(spec, id, rest);
          return true, [id] + rest;
        }
        assert visiting - old(visiting) - {id} == (visiting - before) + (before - old(visiting) - {id});
      }
      if node.kind == Wait && node.waitConfig.Some? && node.waitConfig.value.onTimeoutTarget != "" {
        ghost var before := visiting;
        var inner, rest := Visit(node.waitConfig.value.onTimeoutTarget);
        if inner {
          assert Route(spec, id, node.waitConfig.value.onTimeoutTarget);
          RouteExtends(spec, id, rest);
          return true, [id] + rest;
        }
        assert visiting - old(visiting) - {id} == (visiting - before) + (before - old(visiting) - {id});
      }
      assert visiting - old(visiting) == (visiting - old(visiting) - {id}) + {id};
      return false, [];
    }
  }

  lemma RouteExtends(g: GraphSpec, id: string, rest: seq<string>)
    requires id in g.nodes && |rest| > 0 && RouteTo(g, rest, rest[0]) && Route(g, id, rest[0])
    ensures RouteTo(g, [id] + rest, id)
  {
    var p := [id] + rest;
    forall i | 0 <= i < |p| - 1
      ensures RouteAt(g, p, i)
    {
      if i > 0 {
        assert RouteAt(g, rest, i - 1);
      }
    }
  }

  /** No route leaves a set that is closed and free of terminals. */
  lemma {:induction false} ClosedSetTrapsRoutes(g: GraphSpec, inside: set<string>, p: seq<string>, start: string)
    requires forall a :: a in inside ==> a in g.nodes && g.nodes[a].kind != Terminal
    requires forall a, b :: a in inside && Route(g, a, b) && b in g.nodes ==> b in inside
    requires start in inside
    ensures !RouteTo(g, p, start)
  {
    if RouteTo(g, p, start) {
      var k := 0;
      while k < |p| - 1
        invariant 0 <= k < |p| && p[k] in inside
      {
        assert RouteAt(g, p, k);
        k := k + 1;
      }
    }
  }

  /** From an empty set of marks the search answers true exactly when a terminal can be reached. */
  method ReachableTerminal(spec: GraphSpec, start: string) returns (found: bool)
    ensures found <==> TerminalReachable(spec, start)
  {
    var search := new ReachSearch(spec);
    ghost var route;
    found, route := search.Visit(start);
    if !found {
      assert search.visiting - {} == search.visiting;
      forall p
        ensures !RouteTo(spec, p, start)
      {
        if start in spec.nodes {
          ClosedSetTrapsRoutes(spec, search.visiting, p, start);
        }
      }
    }
  }

  // ---------- ValidateGraphSpec ----------

  /** The rules for one node, one by one. */
  ghost predicate ObeysRules(g: GraphSpec, id: string, node: Node)
  {
    && node.nodeId == id
    && (forall t :: t in node.transitions ==> t.target != "" && t.target in g.nodes)
    && (node.kind == Compute ==> node.unitId != "")
    && (node.kind == Wait ==>
          && node.waitConfig.Some?
          && (node.waitConfig.value.signalName != "" || node.waitConfig.value.acceptedSignals != []))
    && (node.kind == Terminal ==> node.transitions == [] && node.outcome in {Success, Failure})
    && (node.kind == Join ==>
          && node.joinSpec.Some?
          && (node.joinSpec.value.barriers != [] || node.joinSpec.value.dynamicBarriers != []))
    && (node.kind in {Compute, KindUnspecified} && (exists t :: t in node.transitions && MayFail(t)) ==>
          exists t :: t in node.transitions && t.condition == Some(Always(true)))
  }

  /** The transition asks for a field or a signal. */
  predicate MayFail(t: Transition)
  {
    t.condition.Some? && (t.condition.value.OnField? || t.condition.value.OnSignal?)
  }

  lemma RulesAreValidity(g: GraphSpec, id: string, node: Node)
    ensures NodeValid(g, id, node) <==> ObeysRules(g, id, node)
  {
    var ts := node.transitions;
    assert forall i :: 0 <= i < |ts| ==> ts[i] in ts;
    FallbackRule(node);
  }

  lemma FallbackRule(node: Node)
    ensures RequiresFallbackEdge(node) <==>
              node.kind in {Compute, KindUnspecified} && exists t :: t in node.transitions && MayFail(t)
    ensures HasAlwaysTransition(node) <==> exists t :: t in node.transitions && t.condition == Some(Always(true))
  {
    var ts := node.transitions;
    assert forall i :: 0 <= i < |ts| ==> ts[i] in ts;
    if t :| t in ts && MayFail(t) {
      var i :| 0 <= i < |ts| && ts[i] == t;
    }
    if t :| t in ts && t.condition == Some(Always(true)) {
      var i :| 0 <= i < |ts| && ts[i] == t;
    }
  }

  /** Must the node have a fallback? */
  method NeedsFallback(node: Node) returns (needs: bool)
    ensures needs <==> RequiresFallbackEdge(node)
  {
    if node.kind == Terminal || node.kind == Wait || node.kind == Join {
      return false;
    }
    for i := 0 to |node.transitions|
      invariant forall k :: 0 <= k < i ==> !MayFail(node.transitions[k])
    {
      if MayFail(node.transitions[i]) {
        return true;
      }
    }
    return false;
  }

  /** Does one of its transitions hold always? */
  method FindsAlways(node: Node) returns (has: bool)
    ensures has <==> HasAlwaysTransition(node)
  {
    for i := 0 to |node.transitions|
      invariant forall k :: 0 <= k < i ==> node.transitions[k].condition != Some(Always(true))
    {
      if node.transitions[i].condition == Some(Always(true)) {
        return true;
      }
    }
    return false;
  }

  /** The checks made on one node, in the source's order. */
  method ValidateNode(spec: GraphSpec, id: string, node: Node) returns (ok: bool)
    ensures ok <==> NodeValid(spec, id, node)
    ensures ok <==> ObeysRules(spec, id, node)
  {
    RulesAreValidity(spec, id, node);
    if node.nodeId != id {
      return false;
    }
    for i := 0 to |node.transitions|
      invariant forall k :: 0 <= k < i ==> node.transitions[k].target != "" && node.transitions[k].target in spec.nodes
    {
      if node.transitions[i].target == "" || node.transitions[i].target !in spec.nodes {
        return false;
      }
    }
    match node.kind {
      case Compute =>
        if node.unitId == "" {
          return false;
        }
      case Wait =>
        var cfg := node.waitConfig;
        if cfg.None? || (cfg.value.signalName == "" && |cfg.value.acceptedSignals| == 0) {
          return false;
        }
      case Terminal =>
        if |node.transitions| > 0 || node.outcome == OutcomeUnspecified {
          return false;
        }
      case Join =>
        var join := node.joinSpec;
        if join.None? || (|join.value.barriers| == 0 && |join.value.dynamicBarriers| == 0) {
          return false;
        }
      case KindUnspecified =>
    }
    var needs := NeedsFallback(node);
    if needs {
      ok := FindsAlways(node);
      return;
    }
    return true;
  }

  lemma ValidityIgnoresIds(g: GraphSpec, g': GraphSpec, id: string, node: Node)
    requires g.nodes.Keys == g'.nodes.Keys
    ensures NodeValid(g, id, node) <==> NodeValid(g', id, node)
  {
  }

  /** The loop over all nodes, in arbitrary order; it stops at the first bad node. */
  method ValidateNodes(spec: GraphSpec) returns (ok: bool, out: GraphSpec)
    ensures ok <==> forall id :: id in spec.nodes ==> NodeValid(FillNodeIds(spec), id, FillNodeIds(spec).nodes[id])
    ensures ok ==> out == FillNodeIds(spec)
  {
    hide NodeValid, FilledNode;
    out := spec;
    ghost var filled := FillNodeIds(spec);
    var unvisited := spec.nodes.Keys;
    while unvisited != {}
      invariant unvisited <= spec.nodes.Keys
      invariant out.entryNodeId == spec.entryNodeId && out.nodes.Keys == spec.nodes.Keys
      invariant forall id :: id in spec.nodes ==>
        out.nodes[id] == if id in unvisited then spec.nodes[id] else FilledNode(id, spec.nodes[id])
      invariant forall id :: id in spec.nodes && id !in unvisited ==> NodeValid(filled, id, filled.nodes[id])
      decreases unvisited
    {
      var id :| id in unvisited;
      unvisited := unvisited - {id};
      out := out.(nodes := out.nodes[id := FilledNode(id, out.nodes[id])]);
      ok := ValidateNode(out, id, out.nodes[id]);
      ValidityIgnoresIds(out, filled, id, out.nodes[id]);
      if !ok {
        return false, out;
      }
    }
    assert out.nodes == filled.nodes;
    return true, out;
  }

  /** The specification with the key of a node in place of a missing node id. */
  function Filled(spec: GraphSpec): GraphSpec
  {
    GraphSpec(spec.entryNodeId,
              map id | id in spec.nodes ::
                if spec.nodes[id].nodeId == "" then spec.nodes[id].(nodeId := id) else spec.nodes[id])
  }

  /** The entry node is there, every node obeys the rules, no transition closes a cycle, and a terminal can
      be reached from the entry node. */
  ghost predicate Accepted(spec: GraphSpec, filled: GraphSpec)
  {
    && spec.entryNodeId != "" && spec.entryNodeId in spec.nodes
    && (forall id :: id in filled.nodes ==> ObeysRules(filled, id, filled.nodes[id]))
    && Acyclic(filled) && TerminalReachable(filled, spec.entryNodeId)
  }

  lemma AcceptedMeans(spec: GraphSpec)
    ensures FillNodeIds(spec) == Filled(spec)
    ensures WellFormed(FillNodeIds(spec)) <==> Accepted(spec, Filled(spec))
  {
    hide NodeValid, ObeysRules, Acyclic, TerminalReachable;
    var g := FillNodeIds(spec);
    assert g.nodes == Filled(spec).nodes;
    forall id | id in g.nodes
      ensures NodeValid(g, id, g.nodes[id]) <==> ObeysRules(g, id, g.nodes[id])
    {
      RulesAreValidity(g, id, g.nodes[id]);
    }
  }

  /** A specification is accepted exactly when, with its missing node ids filled in, it is well
      formed; and those ids are then filled in. */
  method ValidateGraphSpec(spec: GraphSpec) returns (err: Option<DagError>, out: GraphSpec)
    ensures err == if WellFormed(FillNodeIds(spec)) then None else Some(InvalidGraph)
    ensures err.None? ==> out == FillNodeIds(spec)
    ensures err == if Accepted(spec, Filled(spec)) then None else Some(InvalidGraph)
    ensures err.None? ==> out == Filled(spec)
  {
    AcceptedMeans(spec);
    out := spec;
    if spec.entryNodeId == "" || |spec.nodes| == 0 || spec.entryNodeId !in spec.nodes {
      return Some(InvalidGraph), out;
    }
    var ok;
    ok, out := ValidateNodes(spec);
    if !ok {
      return Some(InvalidGraph), out;
    }
    var cyclic, _ := HasCycle(out);
    if cyclic {
      return Some(InvalidGraph), out;
    }
    var reachable := ReachableTerminal(out, out.entryNodeId);
    if !reachable {
      return Some(InvalidGraph), out;
    }
    return None, out;
  }
}
