/**
 * The local collect operation: evaluates one collect plan on the executing
 * node and returns its row matrix, or the error that stopped it.
 */
module LocalDataCollect {
  import opened Wrappers
  import opened Values
  import opened Symbols
  import opened Errors
  import opened References
  import opened Functions
  import opened Evaluation
  import opened Routing
  import opened Pipeline

  const NO_OFFSET: nat := 0

  /**
   * A collect plan: where it runs, an optional filter, the ordered outputs,
   * LIMIT (`None` is unlimited), OFFSET, and the order-by output positions
   * with one descending flag per position.
   */
  datatype CollectNode = CollectNode(
    id: string,
    routing: Routing,
    whereClause: Option<Symbol>,
    outputs: seq<Symbol>,
    limit: Option<nat>,
    offset: nat,
    orderBy: seq<nat>,
    reverseFlags: seq<bool>)

  /** The filter, if any, followed by the outputs. */
  function PlanSymbols(node: CollectNode): seq<Symbol>
  {
    (if node.whereClause.Some? then [node.whereClause.value] else []) + node.outputs
  }

  /** Order-by positions index into the outputs and each has its flag. */
  predicate ValidOrderBy(node: CollectNode)
  {
    |node.orderBy| == |node.reverseFlags| && forall i | 0 <= i < |node.orderBy| :: node.orderBy[i] < |node.outputs|
  }

  function OrderKeys(node: CollectNode): seq<OrderKey>
    requires ValidOrderBy(node)
  {
    seq(|node.orderBy|, i requires 0 <= i < |node.orderBy| => OrderKey(node.orderBy[i], node.reverseFlags[i]))
  }

  /** One evaluation context: the node itself, or one routed shard. */
  datatype Context = NodeContext | ShardContext(key: ShardKey)

  function ShardContexts(keys: seq<ShardKey>): (r: seq<Context>)
    ensures |r| == |keys| && forall i | 0 <= i < |keys| :: r[i] == ShardContext(keys[i])
  {
    seq(|keys|, i requires 0 <= i < |keys| => ShardContext(keys[i]))
  }

  /** Each key has its shard context, and the contexts keep the keys' order. */
  lemma ShardContextsOfKeys(keys: seq<ShardKey>)
    ensures forall k | k in keys :: ShardContext(k) in ShardContexts(keys)
    ensures forall i | 0 <= i < |keys| :: ShardContexts(keys)[i].key == keys[i]
  {
    var r := ShardContexts(keys);
    forall k | k in keys ensures ShardContext(k) in r {
      var i :| 0 <= i < |keys| && keys[i] == k;
      assert r[i] == ShardContext(k);
    }
  }

  /** The errors a single context can raise. */
  predicate ContextError(e: CollectError)
  {
    e.UnknownReference? || e.UnknownFunction? || e.ShardNotAvailable? || e.EvaluationError?
  }

  /** Whether a bound filter admits the row: only a strict `true` does. */
  function Admits(filter: Option<BoundSymbol>): Result<bool, CollectError>
  {
    match filter
    case None => Success(true)
    case Some(f) =>
      var v :- Eval(f);
      Success(v == BoolValue(true))
  }

  function BindFilter(whereClause: Option<Symbol>, refs: Registry, fns: FunctionRegistry): Result<Option<BoundSymbol>, CollectError>
  {
    match whereClause
    case None => Success(None)
    case Some(f) =>
      var b :- Bind(f, refs, fns);
      Success(Some(b))
  }

  /**
   * The operation as configured on one node: the node's id, the function
   * registry, the process-wide reference registry and the registries of the
   * shards open on this node.
   */
  datatype CollectOperation = CollectOperation(
    localNodeId: string,
    functions: FunctionRegistry,
    globalReferences: Registry,
    shardReferences: map<ShardKey, Registry>)
  {
    /** The reference resolver of a context. */
    function ResolverFor(ctx: Context): Result<Registry, CollectError>
    {
      match ctx
      case NodeContext => Success(globalReferences)
      case ShardContext(k) =>
        if k in shardReferences then Success(ShardResolver(globalReferences, shardReferences[k]))
        else Failure(ShardNotAvailable(k.table, k.id))
    }

    /**
     * Evaluates one context: bind the filter and the outputs, then evaluate
     * the filter and, if it admits the row, the outputs in declared order.
     */
    function CollectContext(ctx: Context, node: CollectNode): (r: Result<Option<Row>, CollectError>)
      ensures r.Failure? ==> ContextError(r.error)
      ensures r.Success? && r.value.Some? ==> |r.value.value| == |node.outputs|
    {
      var refs :- ResolverFor(ctx);
      var filter :- BindFilter(node.whereClause, refs, functions);
      var outs :- BindAll(node.outputs, refs, functions);
      var admitted :- Admits(filter);
      if admitted then
        var row :- EvalAll(outs);
        Success(Some(row))
      else Success(None)
    }

    /**
     * The contexts of a call: one per routed shard of the local node when a
     * shard-level reference occurs in the plan, otherwise the node alone.
     */
    function Contexts(node: CollectNode): (r: seq<Context>)
      requires localNodeId in node.routing.locations
      ensures !AnyShardReference(PlanSymbols(node)) ==> r == [NodeContext]
      ensures AnyShardReference(PlanSymbols(node)) ==>
        var routed := RoutedShards(node.routing.locations[localNodeId]);
        && |r| == |routed|
        && (forall i | 0 <= i < |r| :: r[i].ShardContext? && r[i].key in routed)
        && (forall k | k in routed :: ShardContext(k) in r)
        && (forall i, j | 0 <= i < j < |r| :: CompareKeys(r[i].key, r[j].key) < 0)
    {
      if AnyShardReference(PlanSymbols(node)) then
        var keys := ShardKeysOf(node.routing.locations[localNodeId]);
        ShardContextsOfKeys(keys);
        ShardContexts(keys)
      else [NodeContext]
    }

    /** The rows of all contexts in context order; the first failing context fails the whole gather. */
    function GatherRows(contexts: seq<Context>, node: CollectNode): (r: Result<Matrix, CollectError>)
      ensures r.Failure? ==> ContextError(r.error)
      ensures r.Success? ==> |r.value| <= |contexts| && forall row | row in r.value :: |row| == |node.outputs|
    {
      if contexts == [] then Success([])
      else
        var first :- CollectContext(contexts[0], node);
        var rest :- GatherRows(contexts[1..], node);
        Success((if first.Some? then [first.value] else []) + rest)
    }

    /** Evaluates the contexts one after another and appends each admitted row. */
    method Gather(contexts: seq<Context>, node: CollectNode) returns (r: Result<Matrix, CollectError>)
      ensures r == GatherRows(contexts, node)
    {
      var rows: Matrix := [];
      var i := 0;
      while i < |contexts|
        invariant 0 <= i <= |contexts|
        invariant GatherRows(contexts[..i], node) == Success(rows)
      {
        var one := CollectContext(contexts[i], node);
        if one.Failure? {
          GatherStopsAt(contexts, i, node);
          return Failure(one.error);
        }
        GatherExtend(contexts[..i], contexts[i], node);
        assert contexts[..i + 1] == contexts[..i] + [contexts[i]];
        rows := rows + if one.value.Some? then [one.value.value] else [];
        i := i + 1;
      }
      assert contexts[..i] == contexts;
      r := Success(rows);
    }

    /** Once every earlier context succeeded, the first failing context decides the gather's error. */
    lemma GatherStopsAt(contexts: seq<Context>, i: nat, node: CollectNode)
      requires i < |contexts| && GatherRows(contexts[..i], node).Success?
      requires CollectContext(contexts[i], node).Failure?
      ensures GatherRows(contexts, node) == Failure(CollectContext(contexts[i], node).error)
    {
      GatherExtend(contexts[..i], contexts[i], node);
      assert contexts[..i + 1] == contexts[..i] + [contexts[i]];
      GatherAppend(contexts[..i + 1], contexts[i + 1..], node);
      assert contexts == contexts[..i + 1] + contexts[i + 1..];
    }

    /** Gathering one more context appends its row, or fails with its error. */
    lemma GatherExtend(cs: seq<Context>, c: Context, node: CollectNode)
      ensures GatherRows(cs + [c], node) ==
        match GatherRows(cs, node)
        case Failure(e) => Failure(e)
        case Success(rows) =>
          match CollectContext(c, node)
          case Failure(e) => Failure(e)
          case Success(one) => Success(rows + if one.Some? then [one.value] else [])
    {
      GatherAppend(cs, [c], node);
      assert [c][1..] == [];
      if CollectContext(c, node).Success? {
        var one := CollectContext(c, node).value;
        var added: Matrix := if one.Some? then [one.value] else [];
        assert added + [] == added;
      }
    }

    /** Gathering a concatenation gathers each part, the first failure winning. */
    lemma {:induction false} GatherAppend(a: seq<Context>, b: seq<Context>, node: CollectNode)
      ensures GatherRows(a + b, node) ==
        match GatherRows(a, node)
        case Failure(e) => Failure(e)
        case Success(ra) =>
          match GatherRows(b, node)
          case Failure(e) => Failure(e)
          case Success(rb) => Success(ra + rb)
    {
      if a != [] {
        assert (a + b)[0] == a[0] && (a + b)[1..] == a[1..] + b;
        GatherAppend(a[1..], b, node);
        var first := CollectContext(a[0], node);
        if first.Success? && GatherRows(a[1..], node).Success? && GatherRows(b, node).Success? {
          var f := if first.value.Some? then [first.value.value] else [];
          assert f + (GatherRows(a[1..], node).value + GatherRows(b, node).value)
              == (f + GatherRows(a[1..], node).value) + GatherRows(b, node).value;
        }
      } else {
        assert a + b == b;
        if GatherRows(b, node).Success? {
          assert [] + GatherRows(b, node).value == GatherRows(b, node).value;
        }
      }
    }

    /**
     * Collects the plan on this node: check the routing and the order-by,
     * answer an empty plan or LIMIT 0 without evaluating anything, gather the
     * rows of every context, then apply ORDER BY, OFFSET and LIMIT.
     */
    function Collect(node: CollectNode): (r: Result<Matrix, CollectError>)
      ensures r == Failure(UnsupportedRouting) <==> localNodeId !in node.routing.locations
      ensures r.Failure? ==> r.error == UnsupportedRouting || r.error == InvalidOrderBy || ContextError(r.error)
      ensures r.Success? ==> forall row | row in r.value :: |row| == |node.outputs|
      ensures r.Success? && node.limit.Some? ==> |r.value| <= node.limit.value
    {
      if localNodeId !in node.routing.locations then Failure(UnsupportedRouting)
      else if !ValidOrderBy(node) then Failure(InvalidOrderBy)
      else if node.outputs == [] || node.limit == Some(0) then Success([])
      else
        var rows :- GatherRows(Contexts(node), node);
        Success(OrderOffsetLimit(rows, OrderKeys(node), node.offset, node.limit))
    }
  }
}
