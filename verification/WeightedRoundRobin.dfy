/**
 Smooth weighted round robin (weighted/balancer.go).

 The balancer keeps one WeightedInstance object per instance and updates them in place.  Go's map
 order decides which of several instances with the same highest current weight is taken, so
 Select is specified by a relation, `SelectStep`, that allows every tie-break, and the counting
 theorems hold for every sequence of such steps.
 */
module WeightedRoundRobin {
  import opened Wrappers
  import opened Sums

  datatype Instance = Instance(id: string, address: string, port: int, weight: int)

  datatype BalancerError =
    | BalancerClosed
    | InvalidInstance
    | DuplicateInstance
    | InstanceNotFound
    | NoInstances

  /** What the balancer knows of one instance: a WeightedInstance read off the heap. */
  datatype Slot = Slot(instance: Instance, weight: int, current: int)

  type Table = map<string, Slot>

  function Weights(t: Table): map<string, int>
  {
    map id | id in t :: t[id].weight
  }

  function Currents(t: Table): map<string, int>
  {
    map id | id in t :: t[id].current
  }

  /** Restricted to the given instances. */
  function Only(t: Table, ids: set<string>): Table
  {
    map id | id in t && id in ids :: t[id]
  }

  ghost function TotalWeight(t: Table, ids: set<string>): int
  {
    Sum(Weights(Only(t, ids)))
  }

  ghost predicate PositiveWeights(t: Table)
  {
    forall id :: id in t ==> t[id].weight >= 1
  }

  /** One Select among the candidates: everyone gains its weight, one with the highest result is
      picked and pays the total. */
  ghost predicate SelectStep(t: Table, candidates: set<string>, picked: string, t': Table)
  {
    && picked in candidates && candidates <= t.Keys
    && t'.Keys == t.Keys
    && (forall id :: id in t && id !in candidates ==> t'[id] == t[id])
    && (forall id :: id in candidates ==>
          t'[id] == t[id].(current := t[id].current + t[id].weight
                                      - (if id == picked then TotalWeight(t, candidates) else 0)))
    && (forall id :: id in candidates ==>
          t[id].current + t[id].weight <= t[picked].current + t[picked].weight)
  }

  // ---------- conservation ----------

  /** A Select, filtered or not, leaves the sum of current weights unchanged. */
  lemma SelectConserves(t: Table, candidates: set<string>, picked: string, t': Table)
    requires SelectStep(t, candidates, picked, t')
    ensures Sum(Currents(t')) == Sum(Currents(t))
  {
    hide Sum, TotalWeight;
    var total := TotalWeight(t, candidates);
    var gains := map id | id in t :: if id in candidates then t[id].weight else 0;
    GainsAddUp(t, candidates, gains);
    var raised := map id | id in t :: t[id].current + gains[id];
    SumAdd(Currents(t), gains, raised);
    RaisedThenPaid(t, candidates, picked, t', raised);
    SumUpdate(raised, picked, raised[picked] - total);
  }

  lemma RaisedThenPaid(t: Table, candidates: set<string>, picked: string, t': Table, raised: map<string, int>)
    requires SelectStep(t, candidates, picked, t') && raised.Keys == t.Keys
    requires forall id :: id in t ==> raised[id] == t[id].current + if id in candidates then t[id].weight else 0
    ensures Currents(t') == raised[picked := raised[picked] - TotalWeight(t, candidates)]
  {
    hide TotalWeight;
  }

  lemma {:induction false} GainsAddUp(t: Table, candidates: set<string>, gains: map<string, int>)
    requires candidates <= t.Keys && gains.Keys == t.Keys
    requires forall id :: id in t ==> gains[id] == if id in candidates then t[id].weight else 0
    ensures Sum(gains) == TotalWeight(t, candidates)
    decreases t.Keys - candidates
  {
    if t.Keys == candidates {
      assert Weights(Only(t, candidates)) == gains;
    } else {
      var x :| x in t && x !in candidates;
      var t', gains' := t - {x}, gains - {x};
      SumRemove(gains, x);
      assert Only(t', candidates) == Only(t, candidates);
      assert t'.Keys - candidates < t.Keys - candidates by {
        assert x in t.Keys - candidates && x !in t'.Keys - candidates;
      }
      GainsAddUp(t', candidates, gains');
    }
  }

  datatype TableOp =
    | Joined(instance: Instance)
    | Left(id: string)
    | Reweighted(instance: Instance)
    | Selected(candidates: set<string>, picked: string)

  function EffectiveWeight(instance: Instance): int
  {
    if instance.weight <= 0 then 1 else instance.weight
  }

  /** The four operations on the table, with the conditions under which they succeed. */
  ghost predicate TableStep(t: Table, op: TableOp, t': Table)
  {
    match op
    case Joined(i) => i.id !in t && t' == t[i.id := Slot(i, EffectiveWeight(i), 0)]
    case Left(id) => id in t && t' == t - {id}
    case Reweighted(i) => i.id in t && t' == t[i.id := Slot(i, EffectiveWeight(i), t[i.id].current)]
    case Selected(c, p) => SelectStep(t, c, p, t')
  }

  /** The current weight that a history has removed together with its instances. */
  ghost function CarriedAway(ops: seq<TableOp>, tables: seq<Table>): int
    requires |tables| == |ops| + 1
  {
    if ops == [] then 0
    else
      var n := |ops| - 1;
      CarriedAway(ops[..n], tables[..n + 1])
      + if ops[n].Left? && ops[n].id in tables[n] then tables[n][ops[n].id].current else 0
  }

  ghost predicate History(ops: seq<TableOp>, tables: seq<Table>)
  {
    && |tables| == |ops| + 1
    && forall k :: 0 <= k < |ops| ==> TableStep(tables[k], ops[k], tables[k + 1])
  }

  /** Over any mixed history the sum of current weights changes only by what Remove takes away. */
  lemma {:induction false} HistoryConserves(ops: seq<TableOp>, tables: seq<Table>)
    requires History(ops, tables)
    ensures Sum(Currents(tables[|ops|])) == Sum(Currents(tables[0])) - CarriedAway(ops, tables)
  {
    if ops != [] {
      var n := |ops| - 1;
      HistoryConserves(ops[..n], tables[..n + 1]);
      assert TableStep(tables[n], ops[n], tables[n + 1]);
      OneStepConserves(tables[n], ops[n], tables[n + 1]);
    }
  }

  lemma OneStepConserves(t: Table, op: TableOp, t': Table)
    requires TableStep(t, op, t')
    ensures Sum(Currents(t')) == Sum(Currents(t)) - (if op.Left? then t[op.id].current else 0)
  {
    match op
    case Joined(i) =>
      assert Currents(t') == Currents(t)[i.id := 0];
      SumUpdate(Currents(t), i.id, 0);
    case Left(id) =>
      assert Currents(t') == Currents(t) - {id};
      SumRemove(Currents(t), id);
    case Reweighted(i) =>
      assert Currents(t') == Currents(t);
    case Selected(c, p) =>
      SelectConserves(t, c, p, t');
  }

  // ---------- counting ----------

  function Count(picks: seq<string>, id: string): nat
  {
    if picks == [] then 0
    else Count(picks[..|picks| - 1], id) + if picks[|picks| - 1] == id then 1 else 0
  }

  ghost predicate AllZero(t: Table)
  {
    forall id :: id in t ==> t[id].current == 0
  }

  /** Consecutive unfiltered Selects: tables[k] is the table before the k-th. */
  ghost predicate SelectRun(picks: seq<string>, tables: seq<Table>)
  {
    && |tables| == |picks| + 1
    && forall k :: 0 <= k < |picks| ==> SelectStep(tables[k], tables[k].Keys, picks[k], tables[k + 1])
  }

  lemma {:induction false} RunKeepsInstances(picks: seq<string>, tables: seq<Table>)
    requires SelectRun(picks, tables)
    ensures var t, t' := tables[0], tables[|picks|];
            t'.Keys == t.Keys && forall id :: id in t ==> t'[id].weight == t[id].weight
  {
    if picks != [] {
      var n := |picks| - 1;
      RunKeepsInstances(picks[..n], tables[..n + 1]);
      assert SelectStep(tables[n], tables[n].Keys, picks[n], tables[n + 1]);
    }
  }

  lemma TotalIsSum(t: Table)
    ensures TotalWeight(t, t.Keys) == Sum(Weights(t))
  {
    assert Only(t, t.Keys) == t;
  }

  lemma SelectEffect(t: Table, picked: string, t': Table, id: string)
    requires SelectStep(t, t.Keys, picked, t') && id in t
    ensures id in t'
    ensures t'[id].current == t[id].current + t[id].weight - (if picked == id then Sum(Weights(t)) else 0)
  {
    TotalIsSum(t);
  }

  /** The bookkeeping identity: gained k times its weight, paid the total once per pick. */
  lemma {:induction false} CurrentIsBalance(picks: seq<string>, tables: seq<Table>, id: string)
    requires SelectRun(picks, tables) && AllZero(tables[0]) && id in tables[0]
    ensures id in tables[|picks|]
    ensures tables[|picks|][id].current
            == |picks| * tables[0][id].weight - Sum(Weights(tables[0])) * Count(picks, id)
  {
    var n := |picks| - 1;
    if n >= 0 {
      var before := tables[..n + 1];
      var w, T, c := tables[0][id].weight, Sum(Weights(tables[0])), Count(picks[..n], id);
      CurrentIsBalance(picks[..n], before, id);
      assert tables[n][id].current == n * w - T * c;
      RunKeepsInstances(picks[..n], before);
      SelectEffect(tables[n], picks[n], tables[n + 1], id);
      assert Weights(tables[n]) == Weights(tables[0]);
      BalanceStep(n, w, T, c);
    }
  }

  lemma BalanceStep(n: int, w: int, T: int, c: int)
    ensures n * w - T * c + w == (n + 1) * w - T * c
    ensures n * w - T * c + w - T == (n + 1) * w - T * (c + 1)
  {
  }

  lemma SomeoneIsPositive(m: map<string, int>)
    requires Sum(m) > 0
    ensures exists id :: id in m && m[id] > 0
  {
    if forall id :: id in m ==> m[id] <= 0 {
      SumZeros(m.Keys);
      SumMonotone(m, Zeros(m.Keys));
    }
  }

  /** Whoever is picked had a positive raised weight, so nobody ever falls to -T or below. */
  lemma {:induction false} CurrentIsBounded(picks: seq<string>, tables: seq<Table>, id: string)
    requires SelectRun(picks, tables) && AllZero(tables[0]) && PositiveWeights(tables[0])
    requires id in tables[0]
    ensures Sum(Currents(tables[|picks|])) == 0
    ensures id in tables[|picks|] && tables[|picks|][id].current >= 1 - Sum(Weights(tables[0]))
  {
    WeightsSumPositive(tables[0], id);
    if picks == [] {
      assert Currents(tables[0]) == Zeros(tables[0].Keys);
      SumZeros(tables[0].Keys);
    } else {
      var n := |picks| - 1;
      CurrentIsBounded(picks[..n], tables[..n + 1], id);
      RunKeepsInstances(picks[..n], tables[..n + 1]);
      var t, t' := tables[n], tables[n + 1];
      assert SelectStep(t, t.Keys, picks[n], t');
      SelectConserves(t, t.Keys, picks[n], t');
      assert Weights(t) == Weights(tables[0]);
      TotalIsSum(t);
      var raised := map i | i in t :: t[i].current + t[i].weight;
      SumAdd(Currents(t), Weights(t), raised);
      SomeoneIsPositive(raised);
      var top :| top in raised && raised[top] > 0;
      assert raised[picks[n]] >= raised[top];
    }
  }

  lemma WeightsSumPositive(t: Table, id: string)
    requires PositiveWeights(t) && id in t
    ensures Sum(Weights(t)) >= 1
  {
    SumRemove(Weights(t), id);
    SumZeros((t - {id}).Keys);
    SumMonotone(Zeros((t - {id}).Keys), Weights(t) - {id});
  }

  /** No instance runs ahead: after k Selects from zero it was picked at most ceil(k*w/T) times. */
  lemma PicksAreBounded(picks: seq<string>, tables: seq<Table>, id: string)
    requires SelectRun(picks, tables) && AllZero(tables[0]) && PositiveWeights(tables[0])
    requires id in tables[0]
    ensures var T, w := Sum(Weights(tables[0])), tables[0][id].weight;
            T >= 1 && Count(picks, id) <= (|picks| * w + T - 1) / T
  {
    CurrentIsBalance(picks, tables, id);
    CurrentIsBounded(picks, tables, id);
    WeightsSumPositive(tables[0], id);
    var T, w := Sum(Weights(tables[0])), tables[0][id].weight;
    assert T * Count(picks, id) <= |picks| * w + T - 1;
    DivideBound(T, Count(picks, id), |picks| * w + T - 1);
  }

  lemma TimesMonotone(d: int, a: int, b: int)
    requires d >= 0 && a <= b
    ensures d * a <= d * b
  {
  }

  lemma TimesCancel(d: int, a: int, b: int)
    requires d >= 1 && d * a < d * b
    ensures a < b
  {
    if b <= a {
      TimesMonotone(d, b, a);
    }
  }

  lemma DivideBound(d: int, n: int, x: int)
    requires d >= 1 && d * n <= x
    ensures n <= x / d
  {
    assert d * (x / d + 1) == d * (x / d) + d > x;
    TimesCancel(d, n, x / d + 1);
  }

  function Counts(t: Table, picks: seq<string>): map<string, int>
  {
    map id | id in t :: Count(picks, id) as int
  }

  lemma {:induction false} CountsAddUp(picks: seq<string>, t: Table)
    requires forall k :: 0 <= k < |picks| ==> picks[k] in t
    ensures Sum(Counts(t, picks)) == |picks|
  {
    if picks == [] {
      assert Counts(t, picks) == Zeros(t.Keys);
      SumZeros(t.Keys);
    } else {
      var n := |picks| - 1;
      CountsAddUp(picks[..n], t);
      var earlier := Counts(t, picks[..n]);
      assert Counts(t, picks) == earlier[picks[n] := earlier[picks[n]] + 1];
      SumUpdate(earlier, picks[n], earlier[picks[n]] + 1);
    }
  }

  lemma {:induction false} PicksArePresent(picks: seq<string>, tables: seq<Table>)
    requires SelectRun(picks, tables)
    ensures forall k :: 0 <= k < |picks| ==> picks[k] in tables[0]
  {
    if picks != [] {
      var n := |picks| - 1;
      PicksArePresent(picks[..n], tables[..n + 1]);
      RunKeepsInstances(picks[..n], tables[..n + 1]);
      assert SelectStep(tables[n], tables[n].Keys, picks[n], tables[n + 1]);
      forall k | 0 <= k < |picks|
        ensures picks[k] in tables[0]
      {
        if k < n {
          assert picks[k] == picks[..n][k];
        }
      }
    }
  }

  /** Exact proportionality: m*T Selects from zero pick every instance exactly m*w times and
      bring every current weight back to zero, whatever the tie-breaks. */
  lemma WholeCyclesAreExact(picks: seq<string>, tables: seq<Table>, m: nat)
    requires SelectRun(picks, tables) && AllZero(tables[0]) && PositiveWeights(tables[0])
    requires |picks| == m * Sum(Weights(tables[0]))
    ensures forall id :: id in tables[0] ==> Count(picks, id) == m * tables[0][id].weight
    ensures tables[|picks|].Keys == tables[0].Keys && AllZero(tables[|picks|])
  {
    var t, T := tables[0], Sum(Weights(tables[0]));
    var quota := map id | id in t :: m * t[id].weight;
    forall id | id in t
      ensures Count(picks, id) <= quota[id]
    {
      CurrentIsBalance(picks, tables, id);
      CurrentIsBounded(picks, tables, id);
      WeightsSumPositive(t, id);
      QuotaBound(T, Count(picks, id), m, t[id].weight);
    }
    PicksArePresent(picks, tables);
    CountsAddUp(picks, t);
    SumScale(Weights(t), m, quota);
    SumMonotone(Counts(t, picks), quota);
    RunKeepsInstances(picks, tables);
    assert Counts(t, picks) == quota;
    forall id | id in t
      ensures Count(picks, id) == m * t[id].weight && tables[|picks|][id].current == 0
    {
      assert Counts(t, picks)[id] == quota[id];
      CurrentIsBalance(picks, tables, id);
      CycleBalance(m, T, t[id].weight);
    }
  }

  lemma CycleBalance(m: int, T: int, w: int)
    ensures (m * T) * w == T * (m * w)
  {
  }

  lemma QuotaBound(T: int, n: int, m: int, w: int)
    requires T >= 1
    requires (m * T) * w - T * n >= 1 - T
    ensures n <= m * w
  {
    CycleBalance(m, T, w);
    assert T * n < T * (m * w) + T == T * (m * w + 1);
    TimesCancel(T, n, m * w + 1);
  }

  // ---------- configured weights ----------

  /** The history's last word on the id: this instance was added or updated, and neither updated nor
      removed since. */
  ghost predicate LastGiven(ops: seq<TableOp>, id: string, instance: Instance)
  {
    exists k ::
      && 0 <= k < |ops| && (ops[k] == Joined(instance) || ops[k] == Reweighted(instance)) && instance.id == id
      && forall j :: k < j < |ops| ==> ops[j].Selected? || Subject(ops[j]) != id
  }

  function Subject(op: TableOp): string
  {
    match op
    case Joined(i) => i.id
    case Left(id) => id
    case Reweighted(i) => i.id
    case Selected(_, picked) => picked
  }

  /** Every slot holds the instance that was given last, with its configured weight if that is positive,
      and else with weight 1. */
  ghost predicate AsConfigured(ops: seq<TableOp>, t: Table)
  {
    forall id :: id in t ==>
      && LastGiven(ops, id, t[id].instance)
      && t[id].weight == if t[id].instance.weight > 0 then t[id].instance.weight else 1
  }

  lemma LastGivenStays(ops: seq<TableOp>, op: TableOp, id: string, instance: Instance)
    requires LastGiven(ops, id, instance) && (op.Selected? || Subject(op) != id)
    ensures LastGiven(ops + [op], id, instance)
  {
    var k :| && 0 <= k < |ops| && (ops[k] == Joined(instance) || ops[k] == Reweighted(instance)) && instance.id == id
             && forall j :: k < j < |ops| ==> ops[j].Selected? || Subject(ops[j]) != id;
    assert (ops + [op])[k] == ops[k];
  }

  lemma GivenLast(ops: seq<TableOp>, op: TableOp, instance: Instance)
    requires op == Joined(instance) || op == Reweighted(instance)
    ensures LastGiven(ops + [op], instance.id, instance)
  {
    assert (ops + [op])[|ops|] == op;
  }

  lemma StepConfigures(ops: seq<TableOp>, t: Table, op: TableOp, t': Table)
    requires AsConfigured(ops, t) && TableStep(t, op, t')
    ensures AsConfigured(ops + [op], t')
  {
    hide LastGiven, TotalWeight;
    forall id | id in t'
      ensures LastGiven(ops + [op], id, t'[id].instance)
      ensures t'[id].weight == if t'[id].instance.weight > 0 then t'[id].instance.weight else 1
    {
      if !op.Selected? && Subject(op) == id {
        GivenLast(ops, op, op.instance);
      } else {
        assert id in t && t'[id].instance == t[id].instance && t'[id].weight == t[id].weight;
        LastGivenStays(ops, op, id, t[id].instance);
      }
    }
  }

  /** In every table that Add, Remove, Update and Select make from the empty one. */
  lemma {:induction false} HistoryConfigures(ops: seq<TableOp>, tables: seq<Table>)
    requires History(ops, tables) && tables[0] == map[]
    ensures AsConfigured(ops, tables[|ops|])
  {
    hide AsConfigured, TableStep;
    if ops == [] {
      NothingConfigured(tables[0]);
    } else {
      var n := |ops| - 1;
      assert forall k :: 0 <= k < n ==> ops[..n][k] == ops[k];
      assert History(ops[..n], tables[..n + 1]);
      HistoryConfigures(ops[..n], tables[..n + 1]);
      assert TableStep(tables[n], ops[n], tables[n + 1]);
      StepConfigures(ops[..n], tables[n], ops[n], tables[n + 1]);
      assert ops[..n] + [ops[n]] == ops;
    }
  }

  lemma NothingConfigured(t: Table)
    requires t == map[]
    ensures AsConfigured([], t)
  {
  }

  /** Before the first Select every current weight is zero. */
  lemma {:induction false} StartsAtZero(ops: seq<TableOp>, tables: seq<Table>)
    requires History(ops, tables) && tables[0] == map[] && forall k :: 0 <= k < |ops| ==> !ops[k].Selected?
    ensures AllZero(tables[|ops|])
  {
    if ops != [] {
      var n := |ops| - 1;
      StartsAtZero(ops[..n], tables[..n + 1]);
      assert TableStep(tables[n], ops[n], tables[n + 1]);
    }
  }

  /** The weights that callers have configured, where anything that is not positive counts as 1. */
  function Configured(t: Table): map<string, int>
  {
    map id | id in t :: if t[id].instance.weight > 0 then t[id].instance.weight else 1
  }

  /** A table that came about by any history and has all its current weights at zero serves in
      proportion to the configured weights: m cycles pick every instance exactly m times its weight,
      and k Selects never more than the proportional share rounded up. */
  lemma ServesConfigured(ops: seq<TableOp>, tables: seq<Table>, picks: seq<string>, run: seq<Table>, id: string)
    requires History(ops, tables) && tables[0] == map[] && AllZero(tables[|ops|])
    requires SelectRun(picks, run) && run[0] == tables[|ops|] && id in run[0]
    ensures LastGiven(ops, id, run[0][id].instance)
    ensures var weights := Configured(run[0]);
            var T, w := Sum(weights), weights[id];
            && T >= 1 && Count(picks, id) <= (|picks| * w + T - 1) / T
            && forall m: nat {:trigger m * T} :: |picks| == m * T ==>
                 Count(picks, id) == m * w && AllZero(run[|picks|])
  {
    hide LastGiven, Sum, Count;
    HistoryConfigures(ops, tables);
    var t := run[0];
    assert Weights(t) == Configured(t);
    PicksAreBounded(picks, run, id);
    forall m: nat | |picks| == m * Sum(Weights(t))
      ensures Count(picks, id) == m * t[id].weight && AllZero(run[|picks|])
    {
      WholeCyclesAreExact(picks, run, m);
    }
  }

  // ---------- the balancer ----------

  class WeightedInstance {
    var instance: Instance
    var weight: int
    var currentWeight: int

    constructor (instance: Instance, weight: int)
      ensures this.instance == instance && this.weight == weight && currentWeight == 0
    {
      this.instance := instance;
      this.weight := weight;
      currentWeight := 0;
    }
  }

  predicate ValidInstance(instance: Instance)
  {
    instance.id != "" && instance.address != "" && instance.port > 0
  }

  class WeightedBalancer {
    var closed: bool
    var instances: map<string, Instance>
    var weightedInstances: map<string, WeightedInstance>
    ghost var table: Table  // the weighted instances, read off the heap
    ghost var objects: set<WeightedInstance>  // the objects they are kept in

    ghost predicate Valid()
      reads this, objects
    {
      && table.Keys == weightedInstances.Keys
      && (forall id :: id in table ==>
            var wi := weightedInstances[id];
            wi in objects && wi.weight >= 1 && wi.instance.id == id
            && table[id] == Slot(wi.instance, wi.weight, wi.currentWeight))
      && (!closed ==> instances.Keys == weightedInstances.Keys)
    }

    constructor ()
      ensures Valid() && !closed && table == map[] && objects == {}
    {
      closed := false;
      instances := map[];
      weightedInstances := map[];
      table, objects := map[], {};
    }

    method Add(instance: Instance) returns (err: Option<BalancerError>)
      requires Valid()
      modifies this
      ensures Valid() && closed == old(closed) && fresh(objects - old(objects))
      ensures err == if instance.id == "" || instance.address == "" || instance.port <= 0 then Some(InvalidInstance)
                     else if closed then Some(BalancerClosed)
                     else if instance.id in old(table) then Some(DuplicateInstance)
                     else None
      ensures err.None? ==> TableStep(old(table), Joined(instance), table)
      ensures err.None? ==> table[instance.id].weight == if instance.weight > 0 then instance.weight else 1
      ensures err.Some? ==> table == old(table)
    {
      if !ValidInstance(instance) {
        return Some(InvalidInstance);
      }
      if closed {
        return Some(BalancerClosed);
      }
      if instance.id in instances {
        return Some(DuplicateInstance);
      }
      instances := instances[instance.id := instance];
      var wi := new WeightedInstance(instance, EffectiveWeight(instance));
      weightedInstances := weightedInstances[instance.id := wi];
      table := table[instance.id := Slot(instance, EffectiveWeight(instance), 0)];
      objects := objects + {wi};
      return None;
    }

    method Remove(instanceId: string) returns (err: Option<BalancerError>)
      requires Valid()
      modifies this
      ensures Valid() && closed == old(closed) && fresh(objects - old(objects))
      ensures err == if closed then Some(BalancerClosed)
                     else if instanceId !in old(table) then Some(InstanceNotFound)
                     else None
      ensures err.None? ==> TableStep(old(table), Left(instanceId), table)
      ensures err.Some? ==> table == old(table)
    {
      if closed {
        return Some(BalancerClosed);
      }
      if instanceId !in instances {
        return Some(InstanceNotFound);
      }
      instances := instances - {instanceId};
      weightedInstances := weightedInstances - {instanceId};
      table := table - {instanceId};
      return None;
    }

    /** The current weight survives an update. */
    method Update(instance: Instance) returns (err: Option<BalancerError>)
      requires Valid()
      modifies this, objects
      ensures Valid() && closed == old(closed) && fresh(objects - old(objects))
      ensures err == if instance.id == "" || instance.address == "" || instance.port <= 0 then Some(InvalidInstance)
                     else if closed then Some(BalancerClosed)
                     else if instance.id !in old(table) then Some(InstanceNotFound)
                     else None
      ensures err.None? ==> TableStep(old(table), Reweighted(instance), table)
      ensures err.None? ==> table[instance.id].weight == if instance.weight > 0 then instance.weight else 1
      ensures err.Some? ==> table == old(table)
    {
      if !ValidInstance(instance) {
        return Some(InvalidInstance);
      }
      if closed {
        return Some(BalancerClosed);
      }
      if instance.id !in instances {
        return Some(InstanceNotFound);
      }
      instances := instances[instance.id := instance];
      var wi := weightedInstances[instance.id];
      wi.instance := instance;
      wi.weight := EffectiveWeight(instance);
      table := table[instance.id := Slot(instance, EffectiveWeight(instance), wi.currentWeight)];
      return None;
    }

    method Close()
      requires Valid()
      modifies this
      ensures Valid() && closed && instances == map[] && table == old(table)
    {
      closed := true;
      instances := map[];
    }

    ghost function Matching(filter: Option<Instance -> bool>): set<string>
      reads this
    {
      set id | id in table && (filter.Some? ==> filter.value(table[id].instance))
    }

    /** The filtering loop; without a filter everyone is a candidate. */
    method Candidates(filter: Option<Instance -> bool>) returns (candidates: set<string>)
      requires Valid()
      ensures candidates == Matching(filter)
    {
      candidates := {};
      var unvisited := weightedInstances.Keys;
      while unvisited != {}
        invariant unvisited <= weightedInstances.Keys
        invariant candidates == Matching(filter) - unvisited
        decreases unvisited
      {
        var id :| id in unvisited;
        unvisited := unvisited - {id};
        if filter.None? || filter.value(weightedInstances[id].instance) {
          candidates := candidates + {id};
        }
      }
    }

    /** currentWeight += delta for one instance. */
    method Shift(id: string, delta: int)
      requires Valid() && id in weightedInstances
      modifies this`table, weightedInstances[id]
      ensures Valid() && table.Keys == old(table.Keys)
      ensures table[id] == old(table)[id].(current := old(table)[id].current + delta)
      ensures forall x :: x in table && x != id ==> table[x] == old(table)[x]
    {
      var wi := weightedInstances[id];
      wi.currentWeight := wi.currentWeight + delta;
      table := table[id := table[id].(current := wi.currentWeight)];
    }

    /** One turn of the selection loop: is this the first candidate, or better than the best so far? */
    method RaiseOne(id: string, first: bool, selected: string, ghost before: Table, ghost done: set<string>)
      returns (better: bool)
      requires Valid() && Raised(before, done, table) && done <= table.Keys
      requires id in table && id !in done
      requires if first then done == {} else selected in done && Tops(table, done, selected)
      modifies this`table, objects
      ensures Valid() && Raised(before, done + {id}, table)
      ensures TotalWeight(before, done + {id}) == TotalWeight(before, done) + table[id].weight
      ensures better || selected in table
      ensures Tops(table, done + {id}, if better then id else selected)
      ensures better || !first
    {
      var wi := weightedInstances[id];
      ghost var t := table;
      Shift(id, wi.weight);
      RaisedGrows(before, done, t, id, table);
      if !first {
        TopsGrows(done, t, selected, id, table);
      }
      better := first || wi.currentWeight > weightedInstances[selected].currentWeight;
    }

    /** The selection loop, over the candidates in arbitrary order: each gains its weight, and the
        first with the highest result is kept. */
    method RaiseAll(candidates: set<string>) returns (totalWeight: int, selected: string)
      requires Valid() && candidates <= table.Keys && candidates != {}
      modifies this`table, objects
      ensures Valid() && Raised(old(table), candidates, table)
      ensures totalWeight == TotalWeight(old(table), candidates)
      ensures selected in candidates && Tops(table, candidates, selected)
    {
      hide Sum, Raised, Tops;
      ghost var before, done := table, {};
      var unvisited := candidates;
      totalWeight, selected := 0, "";
      NothingRaised(before);
      while unvisited != {}
        invariant done !! unvisited && done + unvisited == candidates
        invariant Valid() && Raised(before, done, table)
        invariant totalWeight == TotalWeight(before, done)
        invariant done == {} || (selected in done && Tops(table, done, selected))
        decreases unvisited
      {
        var id :| id in unvisited;
        var better := RaiseOne(id, unvisited == candidates, selected, before, done);
        totalWeight := totalWeight + weightedInstances[id].weight;
        if better {
          selected := id;
        }
        unvisited, done := unvisited - {id}, done + {id};
      }
      assert done == candidates;
    }

    method Select(filter: Option<Instance -> bool>) returns (r: Result<Instance, BalancerError>)
      requires Valid()
      modifies this`table, objects
      ensures Valid() && closed == old(closed) && fresh(objects - old(objects))
      ensures old(Matching(filter))
              == set id | id in old(table) && (filter.None? || filter.value(old(table)[id].instance))
      ensures r.Err? <==> closed || old(Matching(filter)) == {}
      ensures r.Err? ==> table == old(table) && r.error == if closed then BalancerClosed else NoInstances
      ensures r.Ok? ==> SelectStep(old(table), old(Matching(filter)), r.value.id, table)
      ensures r.Ok? ==> r.value == old(table)[r.value.id].instance
    {
      hide Sum, TotalWeight, Raised, Tops, SelectStep;
      if closed {
        return Err(BalancerClosed);
      }
      var candidates := Candidates(filter);
      if candidates == {} {
        return Err(NoInstances);
      }
      ghost var before := table;
      var totalWeight, selected := RaiseAll(candidates);
      ghost var raised := table;
      Shift(selected, -totalWeight);
      PaidIsStep(before, candidates, selected, raised, table);
      return Ok(weightedInstances[selected].instance);
    }
  }

  /** The first half of a Select: exactly the given instances gained their weight. */
  ghost predicate Raised(t: Table, ids: set<string>, t': Table)
  {
    && t'.Keys == t.Keys
    && forall id :: id in t ==> t'[id] == if id in ids then t[id].(current := t[id].current + t[id].weight) else t[id]
  }

  /** Nobody listed has a higher current weight than the picked one. */
  ghost predicate Tops(t: Table, ids: set<string>, picked: string)
    requires picked in t && ids <= t.Keys
  {
    forall id :: id in ids ==> t[id].current <= t[picked].current
  }

  lemma NothingRaised(t: Table)
    ensures Raised(t, {}, t) && TotalWeight(t, {}) == 0
  {
    assert Only(t, {}) == map[];
  }

  /** The second half: one with the highest current weight pays the total. */
  lemma PaidIsStep(t: Table, candidates: set<string>, picked: string, raised: Table, t': Table)
    requires Raised(t, candidates, raised) && candidates <= t.Keys && picked in candidates
    requires Tops(raised, candidates, picked)
    requires t'.Keys == raised.Keys && (forall x :: x in raised && x != picked ==> t'[x] == raised[x])
    requires t'[picked] == raised[picked].(current := raised[picked].current - TotalWeight(t, candidates))
    ensures SelectStep(t, candidates, picked, t') && t'[picked].instance == t[picked].instance
  {
    hide TotalWeight;
  }

  lemma RaisedGrows(before: Table, done: set<string>, t: Table, id: string, t': Table)
    requires Raised(before, done, t) && id in t && id !in done && t'.Keys == t.Keys
    requires t'[id] == t[id].(current := t[id].current + t[id].weight)
    requires forall x :: x in t && x != id ==> t'[x] == t[x]
    ensures Raised(before, done + {id}, t')
    ensures TotalWeight(before, done + {id}) == TotalWeight(before, done) + t'[id].weight
  {
    TotalGrows(before, done, id);
  }

  lemma TopsGrows(done: set<string>, t: Table, selected: string, id: string, t': Table)
    requires done <= t.Keys && selected in done && Tops(t, done, selected)
    requires id in t && id !in done && t'.Keys == t.Keys
    requires forall x :: x in t && x != id ==> t'[x] == t[x]
    ensures Tops(t', done + {id}, if t'[id].current > t'[selected].current then id else selected)
  {
  }

  lemma TotalGrows(t: Table, ids: set<string>, id: string)
    requires id in t && id !in ids
    ensures TotalWeight(t, ids + {id}) == TotalWeight(t, ids) + t[id].weight
  {
    SumRemove(Weights(Only(t, ids + {id})), id);
    assert Weights(Only(t, ids + {id})) - {id} == Weights(Only(t, ids));
  }
}
