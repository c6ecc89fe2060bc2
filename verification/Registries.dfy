/**
 What the engine looks up or calls: registered types, graphs and units (pkg/dag/memory/registry.go),
 and the code of others.

 The registry does not change during a run.  Field predicates and payload merging are arbitrary
 functions; what happens during one public call (the clock, map iteration order, unit and
 compensator results) is an arbitrary `World` that differs from call to call.
 */
module Registries {
  import opened Wrappers
  import opened Entities
  import opened Graphs
  import opened Routing
  import opened Lines

  datatype TypeRegistration = TypeRegistration(payloadTypeUrl: string, compatibleInputs: set<TypeKey>)

  datatype UnitDef = UnitDef(inputType: TypeKey, outputTypes: set<TypeKey>, maxAttempts: int)

  datatype Registry = Registry(
    types: map<TypeKey, TypeRegistration>,
    graphs: map<GraphVersion, GraphSpec>,
    units: map<string, UnitDef>,
    unitImpls: set<string>,
    compensators: set<string>,
    defaultMaxAttempts: int,
    eval: Evaluator,
    merge: (Payload, string, Payload) -> Option<Payload>)

  /** RegisterGraph stores validated graphs only. */
  ghost predicate ValidRegistry(reg: Registry)
  {
    forall v :: v in reg.graphs ==> WellFormed(reg.graphs[v])
  }

  function GetGraph(reg: Registry, v: GraphVersion): Result<GraphSpec, DagError>
  {
    if v.graphId == "" || v.version == "" || v !in reg.graphs then Err(InvalidGraph) else Ok(reg.graphs[v])
  }

  /** A policy of zero or less falls back to the engine's default, and that one to 3. */
  function MaxAttempts(reg: Registry, unitId: string): int
  {
    var default := if reg.defaultMaxAttempts <= 0 then 3 else reg.defaultMaxAttempts;
    if unitId == "" || unitId !in reg.units || reg.units[unitId].maxAttempts <= 0 then default
    else reg.units[unitId].maxAttempts
  }

  /** A unit without a budget of its own has the engine's, and if that has none three attempts. */
  lemma BudgetIs(reg: Registry, unitId: string)
    ensures var own := if unitId in reg.units && unitId != "" then reg.units[unitId].maxAttempts else 0;
            && (own > 0 ==> MaxAttempts(reg, unitId) == own)
            && (own <= 0 < reg.defaultMaxAttempts ==> MaxAttempts(reg, unitId) == reg.defaultMaxAttempts)
            && (own <= 0 && reg.defaultMaxAttempts <= 0 ==> MaxAttempts(reg, unitId) == 3)
  {
  }

  // ---------- what units answer ----------

  datatype WaitSignal = WaitSignal(
    signalName: string,
    acceptedSignals: seq<string>,
    deadline: Option<int>,
    onTimeoutTarget: string)

  datatype SpawnSpec = SpawnSpec(
    entityId: string,
    typeKey: TypeKey,
    payload: Option<Payload>,
    graph: GraphVersion,
    correlationId: string)

  datatype Mutation =
    | NoIntent
    | WaitIntent(wait: Option<WaitSignal>)
    | FailIntent(triggerCompensation: bool)
    | SpawnIntent(specs: seq<SpawnSpec>)
    | UpdateIntent(update: Snapshot)
    | CompleteIntent(outcome: TerminalOutcome)

  /** An error, or a mutation that may be nil. */
  datatype ExecuteResult = ExecuteFailed | Executed(mutation: Option<Mutation>)

  // ---------- one public call ----------

  /** The places where the engine ranges over the instances. */
  datatype Site =
    | TimeoutSite
    | RunnableSite
    | CorrelationSite(entityId: string, barrier: nat)
    | PrefixSite(entityId: string, barrier: nat)

  datatype World = World(
    now: int,
    order: (Site, set<string>) -> seq<string>,
    execute: (string, string, Snapshot) -> ExecuteResult,
    compensate: (string, Frame, int, Option<Payload>) -> bool)

  /** Whatever order a range takes, it visits every instance once. */
  ghost predicate ValidWorld(w: World)
  {
    forall site, keys :: Enumerates(w.order(site, keys), keys)
  }
}
