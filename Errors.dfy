/** The ways a collect call fails. */
module Errors {
  import opened Values
  import opened Symbols

  datatype CollectError =
    /** The routing has no entry for the executing node. */
    | UnsupportedRouting
    /** A reference whose identifier no reachable registry holds. */
    | UnknownReference(ident: ReferenceIdent)
    /** A function call whose identifier the function registry does not hold. */
    | UnknownFunction(functionIdent: FunctionIdent)
    /** A routed shard for which no shard-level registry is open on this node. */
    | ShardNotAvailable(table: string, shard: Int32)
    /** An order-by position outside the outputs, or flags not matching the positions. */
    | InvalidOrderBy
    /** A function applied to arguments it cannot evaluate. */
    | EvaluationError(functionName: string)

  /** The message text each error carries. */
  function Message(e: CollectError): string
  {
    match e
    case UnsupportedRouting => "unsupported routing"
    case UnknownReference(_) => "Unknown Reference"
    case UnknownFunction(_) => "Unknown Function"
    case ShardNotAvailable(_, _) => "shard not available"
    case InvalidOrderBy => "invalid order by"
    case EvaluationError(_) => "evaluation failed"
  }
}
