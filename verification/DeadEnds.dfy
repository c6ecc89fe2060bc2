/** What the validator's reachability rule leaves open: it asks for a terminal that can be reached
    from the entry node, not from every node. */
module DeadEnds {
  import opened Wrappers
  import opened Graphs

  ghost predicate Walk(g: GraphSpec, p: seq<string>, a: string, b: string)
  {
    |p| > 0 && p[0] == a && p[|p| - 1] == b && Chain(g, p) && forall i :: 0 <= i < |p| ==> p[i] in g.nodes
  }

  /** b can be reached from a over transitions. */
  ghost predicate Leads(g: GraphSpec, a: string, b: string)
  {
    exists p :: Walk(g, p, a, b)
  }

  /** Where a run can end: at a terminal, or at a WAIT node whose timeout target is one. */
  predicate WayOut(g: GraphSpec, n: string)
  {
    && n in g.nodes
    && (|| g.nodes[n].kind == Terminal
        || (HasTimeout(g, n) && TimeoutOf(g, n) in g.nodes && g.nodes[TimeoutOf(g, n)].kind == Terminal))
  }

  predicate HasTimeout(g: GraphSpec, n: string)
  {
    && n in g.nodes && g.nodes[n].kind == Wait && g.nodes[n].waitConfig.Some?
    && g.nodes[n].waitConfig.value.onTimeoutTarget != ""
  }

  function TimeoutOf(g: GraphSpec, n: string): string
    requires HasTimeout(g, n)
  {
    g.nodes[n].waitConfig.value.onTimeoutTarget
  }

  /** No way out can be reached from here over transitions. */
  ghost predicate DeadEnd(g: GraphSpec, n: string)
  {
    forall t :: Leads(g, n, t) ==> !WayOut(g, t)
  }

  predicate Sink(g: GraphSpec, n: string)
  {
    n in g.nodes && g.nodes[n].transitions == []
  }

  lemma WalkExtends(g: GraphSpec, p: seq<string>, a: string, b: string, c: string)
    requires Walk(g, p, a, b) && Edge(g, b, c) && c in g.nodes
    ensures Walk(g, p + [c], a, c)
  {
    ChainExtends(g, p, c);
  }

  lemma SubWalk(g: GraphSpec, p: seq<string>, a: string, b: string, k: nat)
    requires Walk(g, p, a, b) && k < |p|
    ensures Walk(g, p[k..], p[k], b)
  {
    SubChain(g, p, k, |p|);
    assert p[k..|p|] == p[k..];
  }

  /** On an acyclic graph every walk can be continued to a node without transitions. */
  lemma {:induction false} WalkEnds(g: GraphSpec, p: seq<string>, a: string, b: string)
    returns (q: seq<string>, s: string)
    requires Acyclic(g) && TargetsExist(g) && Walk(g, p, a, b)
    ensures Walk(g, q, a, s) && p <= q && Sink(g, s)
    decreases |g.nodes| - |p|
  {
    if g.nodes[b].transitions == [] {
      q, s := p, b;
    } else {
      var c := g.nodes[b].transitions[0].target;
      WalkExtends(g, p, a, b, c);
      ChainsAreDistinct(g, p + [c]);
      DistinctFits(p + [c], g.nodes.Keys);
      q, s := WalkEnds(g, p + [c], a, c);
    }
  }

  /** From a node of an accepted graph a dead end can be reached exactly when a node without
      transitions can that is no way out. */
  lemma DeadEndsAreSinks(g: GraphSpec, n: string)
    requires Acyclic(g) && TargetsExist(g) && n in g.nodes
    ensures (exists m :: Leads(g, n, m) && DeadEnd(g, m)) <==>
              (exists s :: Leads(g, n, s) && Sink(g, s) && !WayOut(g, s))
  {
    hide WayOut;
    if m :| Leads(g, n, m) && DeadEnd(g, m) {
      var p :| Walk(g, p, n, m);
      var q, s := WalkEnds(g, p, n, m);
      SubWalk(g, q, n, s, |p| - 1);
      assert q[|p| - 1] == m;
      assert Leads(g, n, s) && Leads(g, m, s);
    }
    if s :| Leads(g, n, s) && Sink(g, s) && !WayOut(g, s) {
      forall t | Leads(g, s, t)
        ensures !WayOut(g, t)
      {
        var p :| Walk(g, p, s, t);
        SinksStay(g, p, s, t);
      }
      assert DeadEnd(g, s);
    }
  }

  lemma SinksStay(g: GraphSpec, p: seq<string>, s: string, t: string)
    requires Walk(g, p, s, t) && Sink(g, s)
    ensures t == s
  {
    assert |p| > 1 ==> EdgeAt(g, p, 0);
  }

  // ---------- what the validator looks for ----------

  lemma RouteExtends(g: GraphSpec, n: string, p: seq<string>, q: seq<string>)
    requires p != [] && RouteTo(g, q, p[|p| - 1]) && Walk(g, p, n, p[|p| - 1])
    ensures RouteTo(g, p[..|p| - 1] + q, n)
  {
    var k := |p| - 1;
    var r := p[..k] + q;
    forall i | 0 <= i < |r| - 1
      ensures RouteAt(g, r, i)
    {
      if i < k {
        assert EdgeAt(g, p, i);
        assert r[i] == p[i] && r[i + 1] == p[i + 1];
      } else {
        assert RouteAt(g, q, i - k);
      }
    }
  }

  /** Whatever is no dead end reaches a terminal in the validator's sense. */
  lemma WayOutIsReachable(g: GraphSpec, n: string, m: string)
    requires Leads(g, n, m) && WayOut(g, m)
    ensures TerminalReachable(g, n)
  {
    var p :| Walk(g, p, n, m);
    var q := if g.nodes[m].kind == Terminal then [m] else [m, TimeoutOf(g, m)];
    assert |q| > 1 ==> RouteAt(g, q, 0);
    assert RouteTo(g, q, m);
    RouteExtends(g, n, p, q);
  }

  /** Every timeout target that is a node of the graph is a terminal. */
  ghost predicate TimeoutsEnd(g: GraphSpec)
  {
    forall n :: HasTimeout(g, n) && TimeoutOf(g, n) in g.nodes ==> g.nodes[TimeoutOf(g, n)].kind == Terminal
  }

  /** The validator follows a timeout and goes on from its target; a run ends there.  As long as
      timeouts lead to terminals only, that makes no difference: a node is a dead end exactly if no
      terminal can be reached from it in the validator's sense. */
  lemma DeadEndsAreUnreachable(g: GraphSpec, n: string)
    requires TimeoutsEnd(g) && n in g.nodes
    ensures DeadEnd(g, n) <==> !TerminalReachable(g, n)
  {
    if t :| Leads(g, n, t) && WayOut(g, t) {
      WayOutIsReachable(g, n, t);
    }
    if TerminalReachable(g, n) {
      var p :| RouteTo(g, p, n);
      var m := RouteFindsWayOut(g, p, n);
    }
  }

  lemma {:induction false} RouteFindsWayOut(g: GraphSpec, p: seq<string>, n: string) returns (m: string)
    requires TimeoutsEnd(g) && RouteTo(g, p, n)
    ensures Leads(g, n, m) && WayOut(g, m)
    decreases |p|
  {
    assert Walk(g, [n], n, n);
    if |p| == 1 || WayOut(g, n) {
      m := n;
    } else {
      assert RouteAt(g, p, 0);
      assert Edge(g, n, p[1]);
      var q := p[1..];
      forall i | 0 <= i < |q| - 1
        ensures RouteAt(g, q, i)
      {
        assert RouteAt(g, p, i + 1);
      }
      m := RouteFindsWayOut(g, q, p[1]);
      var r :| Walk(g, r, p[1], m);
      StepFirst(g, n, p[1], m, r);
    }
  }

  lemma StepFirst(g: GraphSpec, n: string, next: string, m: string, r: seq<string>)
    requires n in g.nodes && Edge(g, n, next) && Walk(g, r, next, m)
    ensures Leads(g, n, m)
  {
    var p := [n] + r;
    forall i | 0 <= i < |p| - 1
      ensures EdgeAt(g, p, i)
    {
      assert i > 0 ==> EdgeAt(g, r, i - 1);
    }
    assert Walk(g, p, n, m);
  }

  // ---------- an accepted graph with a dead end ----------

  const FORK := Node("A", Compute, "u", "",
                    [Transition("T", Some(Always(true)), 0), Transition("B", Some(Always(true)), 1)],
                     OutcomeUnspecified, None, None)
  const STUCK := Node("B", Compute, "u", "", [], OutcomeUnspecified, None, None)
  const END := Node("T", Terminal, "", "", [], Success, None, None)
  const FORKED := GraphSpec("A", map["A" := FORK, "B" := STUCK, "T" := END])

  /** The validator accepts a graph whose node B leads nowhere, by no timeout either. */
  lemma DeadEndIsAccepted()
    ensures WellFormed(FORKED) && Leads(FORKED, "A", "B") && DeadEnd(FORKED, "B")
    ensures !TerminalReachable(FORKED, "B")
  {
    var g, rank := FORKED, map["A" := 1, "B" := 0, "T" := 0];
    forall a, b | a in rank && Edge(g, a, b)
      ensures b in rank && rank[b] < rank[a]
    {
      var i :| 0 <= i < |g.nodes[a].transitions| && g.nodes[a].transitions[i].target == b;
    }
    assert Ranks(g, rank);
    RankedIsAcyclic(g, rank);
    assert FORK.transitions[0].target == "T" && FORK.transitions[1].target == "B";
    assert Edge(g, "A", "T") && Edge(g, "A", "B");
    assert RouteAt(g, ["A", "T"], 0) && RouteTo(g, ["A", "T"], "A");
    assert EdgeAt(g, ["A", "B"], 0) && Walk(g, ["A", "B"], "A", "B");
    forall t | Leads(g, "B", t)
      ensures !WayOut(g, t)
    {
      var p :| Walk(g, p, "B", t);
      SinksStay(g, p, "B", t);
    }
    DeadEndsAreUnreachable(g, "B");
    forall n | n in g.nodes
      ensures NodeValid(g, n, g.nodes[n])
    {
    }
  }

  // ---------- an accepted graph that is all dead end ----------

  const EXPIRING := Node("A", Wait, "", "", [], OutcomeUnspecified, Some(WaitConfig("go", [], 1, "B", None)), None)
  const BEHIND := Node("B", Compute, "u", "", [Transition("T", Some(Always(true)), 0)], OutcomeUnspecified, None, None)
  const HIDDEN := GraphSpec("A", map["A" := EXPIRING, "B" := BEHIND, "T" := END])

  /** The only terminal lies behind a timeout that ends the run before it: the validator finds the
      terminal, and yet the entry node is a dead end. */
  lemma TimeoutHidesDeadEnd()
    ensures WellFormed(HIDDEN) && DeadEnd(HIDDEN, HIDDEN.entryNodeId) && !TimeoutsEnd(HIDDEN)
  {
    var g, rank := HIDDEN, map["A" := 0, "B" := 1, "T" := 0];
    forall a, b | a in rank && Edge(g, a, b)
      ensures b in rank && rank[b] < rank[a]
    {
      var i :| 0 <= i < |g.nodes[a].transitions| && g.nodes[a].transitions[i].target == b;
    }
    assert Ranks(g, rank);
    RankedIsAcyclic(g, rank);
    var p := ["A", "B", "T"];
    assert g.nodes["B"].transitions[0].target == "T";
    assert Edge(g, "B", "T");
    assert RouteAt(g, p, 0) && RouteAt(g, p, 1) && RouteTo(g, p, "A");
    assert HasTimeout(g, "A") && TimeoutOf(g, "A") == "B";
    forall t | Leads(g, "A", t)
      ensures !WayOut(g, t)
    {
      var q :| Walk(g, q, "A", t);
      SinksStay(g, q, "A", t);
    }
    forall n | n in g.nodes
      ensures NodeValid(g, n, g.nodes[n])
    {
    }
  }
}
