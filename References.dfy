/**
 * Reference implementations and the two registries that resolve reference
 * identifiers: one process-wide, and one per open shard.
 */
module References {
  import opened Values
  import opened Symbols
  import opened ShardIdExpressions

  /** The closed set of value accessors a registry can hold. */
  datatype ReferenceImplementation =
    /** A node-level expression whose current value is fixed for the call. */
    | ConstantExpression(constant: Value)
    /** The shard-id system column of one shard. */
    | ShardIdImplementation(expression: ShardIdExpression)
  {
    function Value(): Value
    {
      match this
      case ConstantExpression(v) => v
      case ShardIdImplementation(e) => IntValue(e.Value())
    }
  }

  type Registry = map<ReferenceIdent, ReferenceImplementation>

  /**
   * The resolver of a shard context: the shard's own implementations shadow
   * the process-wide ones, which remain reachable.
   */
  function ShardResolver(global: Registry, shard: Registry): (r: Registry)
    ensures r.Keys == global.Keys + shard.Keys
    ensures forall id | id in shard :: r[id] == shard[id]
    ensures forall id | id in global && id !in shard :: r[id] == global[id]
  {
    global + shard
  }
}
