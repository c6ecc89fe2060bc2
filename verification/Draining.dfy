/** DrainInstance (pkg/dag/memory/drain.go) as a function: ticks until the instance has nothing more
    to do by itself. */
module Draining {
  import opened Wrappers
  import opened Entities
  import opened Lines
  import opened Registries
  import opened Scheduling

  const DEFAULT_DRAIN_FACTOR := 4
  const DEFAULT_DRAIN_ABSOLUTE_MAX := 1000
  const DEFAULT_DRAIN_MIN_HOPS := 1
  const DRAIN_FALLBACK_MAX_HOPS := 100

  /** Zero or less means the default. */
  datatype DrainOptions = DrainOptions(maxHops: int, factor: int, absoluteMax: int, minHops: int)

  function OrDefault(n: int, default: int): int
  {
    if n <= 0 then default else n
  }

  predicate DrainDone(s: Status)
  {
    s == Completed || s == Failed || s == Compensated || s == Cancelled || s == Waiting
  }

  function DeriveDrainMaxHops(reg: Registry, st: Store, id: string, o: DrainOptions): int
  {
    var absoluteMax := OrDefault(o.absoluteMax, DEFAULT_DRAIN_ABSOLUTE_MAX);
    var fallback := if DRAIN_FALLBACK_MAX_HOPS > absoluteMax then absoluteMax else DRAIN_FALLBACK_MAX_HOPS;
    if id !in st.instances then fallback
    else
      var g := GetGraph(reg, st.instances[id].graph);
      if g.Err? || |g.value.nodes| == 0 then fallback
      else
        var derived := |g.value.nodes| * OrDefault(o.factor, DEFAULT_DRAIN_FACTOR);
        var atLeast :=
          if derived < OrDefault(o.minHops, DEFAULT_DRAIN_MIN_HOPS) then OrDefault(o.minHops, DEFAULT_DRAIN_MIN_HOPS)
          else derived;
        if atLeast > absoluteMax then absoluteMax else atLeast
  }

  function DrainLimit(reg: Registry, st: Store, id: string, o: DrainOptions): int
  {
    if o.maxHops <= 0 then DeriveDrainMaxHops(reg, st, id, o) else o.maxHops
  }

  /** How a drain ends: the instance is done, a tick failed, the limit is used up, or there is no
      such instance. */
  datatype Outcome = Finished | Interrupted(error: DagError) | Exceeded | Missing

  /** The instance handed back is the one read before the last tick. */
  datatype Drained = Drained(store: Store, instance: Option<Record>, outcome: Outcome)

  function DrainFrom(reg: Registry, worlds: nat -> World, st: Store, id: string, maxHops: int, hops: nat): Drained
    decreases maxHops - hops
  {
    if id !in st.instances then Drained(st, None, Missing)
    else
      var rec := st.instances[id];
      if DrainDone(rec.status) then Drained(st, Some(rec), Finished)
      else if hops >= maxHops then Drained(st, Some(rec), Exceeded)
      else
        var s := RunOnce(reg, worlds(hops), st);
        if s.error.Some? then Drained(s.store, Some(rec), Interrupted(s.error.value))
        else DrainFrom(reg, worlds, s.store, id, maxHops, hops + 1)
  }

  function DrainInstance(reg: Registry, worlds: nat -> World, st: Store, id: string, o: DrainOptions): Drained
  {
    if id == "" then Drained(st, None, Missing)
    else DrainFrom(reg, worlds, st, id, DrainLimit(reg, st, id, o), 0)
  }

  function OutcomeError(o: Outcome): Option<DagError>
  {
    match o
    case Finished => None
    case Interrupted(e) => Some(e)
    case Exceeded => Some(DrainExceeded)
    case Missing => Some(InstanceNotFound)
  }

  /** The derived limit is nodes * factor, but at least the least and at most the absolute limit, which
      come first to last: 4, 1 and 1000 if the options do not say; without a graph it is 100. */
  lemma DerivedLimit(reg: Registry, st: Store, id: string, o: DrainOptions)
    ensures var top := if o.absoluteMax > 0 then o.absoluteMax else 1000;
            var least := if o.minHops > 0 then o.minHops else 1;
            var limit := DeriveDrainMaxHops(reg, st, id, o);
            && 1 <= limit <= top
            && if id in st.instances && GetGraph(reg, st.instances[id].graph).Ok?
                  && |GetGraph(reg, st.instances[id].graph).value.nodes| > 0
               then
                 var n := |GetGraph(reg, st.instances[id].graph).value.nodes|;
                 var wanted := n * if o.factor > 0 then o.factor else 4;
                 && (wanted >= top || least >= top ==> limit == top)
                 && (wanted <= least <= top ==> limit == least)
                 && (least <= wanted <= top ==> limit == wanted)
               else limit == if top < 100 then top else 100
  {
    if id in st.instances && GetGraph(reg, st.instances[id].graph).Ok? {
      var n := |GetGraph(reg, st.instances[id].graph).value.nodes|;
      var factor := OrDefault(o.factor, DEFAULT_DRAIN_FACTOR);
      assert n > 0 ==> n * factor >= 1;
    }
  }
}
