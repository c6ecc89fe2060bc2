/** Entities, payloads and errors shared by the engine (pkg/dag/entity, pkg/dag/errors.go). */
module Entities {
  import opened Wrappers

  datatype DagError =
    | InstanceNotFound
    | InstanceAlreadyExists
    | InvalidEntityType
    | InvalidGraph
    | InvalidSpawn
    | NoTransition
    | TypeMismatch
    | IncompatibleSchema
    | SignalMismatch
    | UnitNotFound
    | CompensatorNotFound
    | NilMutation
    | EvaluationFailed
    | MergeFailed
    | ExecutionFailed
    | CompensationFailed
    | FramesExceeded
    | DrainExceeded

  datatype TypeKey = TypeKey(entityType: string, schemaVersion: string)

  /** An Any: its type url and opaque bytes. */
  datatype Payload = Payload(typeUrl: string, value: string)

  datatype Snapshot = Snapshot(typeKey: TypeKey, sequence: int, payload: Option<Payload>)

  predicate ValidTypeKey(key: TypeKey)
  {
    key.entityType != "" && key.schemaVersion != ""
  }
}
