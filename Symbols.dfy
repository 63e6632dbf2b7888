/**
 * The symbol model: identifiers and typed descriptions of columns and
 * functions, and the closed expression tree the planner hands to a collect.
 */
module Symbols {
  import opened Values

  /** The scope at which a reference's value is determined. */
  datatype RowGranularity = Node | Shard

  datatype TableIdent = TableIdent(schema: string, name: string)

  datatype ReferenceIdent = ReferenceIdent(table: TableIdent, column: string)

  datatype ReferenceInfo = ReferenceInfo(ident: ReferenceIdent, granularity: RowGranularity, dataType: DataType)

  /** A function name together with its argument types: the overload key. */
  datatype FunctionIdent = FunctionIdent(name: string, argumentTypes: seq<DataType>)

  datatype FunctionInfo = FunctionInfo(ident: FunctionIdent, returnType: DataType, isAggregate: bool)

  /** An expression node: a column reference, a function call, a constant, or NULL. */
  datatype Symbol =
    | Reference(info: ReferenceInfo)
    | Function(functionInfo: FunctionInfo, arguments: seq<Symbol>)
    | Literal(value: Value)
    | Null

  /** True when some reference reachable from `s` is determined per shard. */
  predicate HasShardReference(s: Symbol)
  {
    match s
    case Reference(info) => info.granularity == Shard
    case Function(_, args) => exists i | 0 <= i < |args| :: HasShardReference(args[i])
    case Literal(_) => false
    case Null => false
  }

  predicate AnyShardReference(ss: seq<Symbol>)
  {
    exists i | 0 <= i < |ss| :: HasShardReference(ss[i])
  }

  /** Every reference identifier reachable from `s`. */
  function ReferenceIdents(s: Symbol): set<ReferenceIdent>
  {
    match s
    case Reference(info) => {info.ident}
    case Function(_, args) => set i, id | 0 <= i < |args| && id in ReferenceIdents(args[i]) :: id
    case Literal(_) => {}
    case Null => {}
  }
}
