/** What a collect call guarantees, stated over all plans and registries. */
module CollectProperties {
  import opened Wrappers
  import opened Values
  import opened Symbols
  import opened Errors
  import opened References
  import opened Functions
  import opened Evaluation
  import opened Routing
  import opened Pipeline
  import opened LocalDataCollect

  /** The filter, if present, evaluates to `true` under the resolver. */
  predicate FilterHolds(node: CollectNode, refs: Registry, fns: FunctionRegistry)
  {
    node.whereClause.None? || ValueOf(node.whereClause.value, refs, fns) == Success(BoolValue(true))
  }

  /** `row` holds the value of every output, in declared order, under the resolver. */
  predicate ProjectsOutputs(row: Row, node: CollectNode, refs: Registry, fns: FunctionRegistry)
  {
    |row| == |node.outputs| && forall j | 0 <= j < |row| :: ValueOf(node.outputs[j], refs, fns) == Success(row[j])
  }

  /** A context contributes a row exactly when its filter holds, and the row is the projection of the outputs. */
  lemma ContextRow(op: CollectOperation, ctx: Context, node: CollectNode)
    requires op.CollectContext(ctx, node).Success?
    ensures op.ResolverFor(ctx).Success?
    ensures var refs := op.ResolverFor(ctx).value;
      && (op.CollectContext(ctx, node).value.Some? <==> FilterHolds(node, refs, op.functions))
      && (op.CollectContext(ctx, node).value.Some? ==>
            ProjectsOutputs(op.CollectContext(ctx, node).value.value, node, refs, op.functions))
  {
  }

  /** A successful gather holds exactly the rows the contexts contribute. */
  lemma {:induction false} GatherRowsExact(op: CollectOperation, cs: seq<Context>, node: CollectNode)
    requires op.GatherRows(cs, node).Success?
    ensures forall i | 0 <= i < |cs| :: op.CollectContext(cs[i], node).Success?
    ensures forall row :: row in op.GatherRows(cs, node).value <==>
      exists i | 0 <= i < |cs| :: op.CollectContext(cs[i], node) == Success(Some(row))
  {
    GatherRowsAllSucceed(op, cs, node);
    GatherRowsMultiplicity(op, cs, node);
    var rows := op.GatherRows(cs, node).value;
    var os := Outcomes(op, cs, node);
    forall row ensures row in rows <==> exists i | 0 <= i < |cs| :: op.CollectContext(cs[i], node) == Success(Some(row)) {
      assert row in rows <==> multiset(rows)[row] > 0;
      assert Success(Some(row)) in os <==> multiset(os)[Success(Some(row))] > 0;
      if Success(Some(row)) in os {
        var i :| 0 <= i < |os| && os[i] == Success(Some(row));
      }
      if exists i | 0 <= i < |cs| :: op.CollectContext(cs[i], node) == Success(Some(row)) {
        var i :| 0 <= i < |cs| && op.CollectContext(cs[i], node) == Success(Some(row));
        assert os[i] == Success(Some(row));
      }
    }
  }

  /** A gather succeeds only when every context does. */
  lemma {:induction false} GatherRowsAllSucceed(op: CollectOperation, cs: seq<Context>, node: CollectNode)
    requires op.GatherRows(cs, node).Success?
    ensures forall i | 0 <= i < |cs| :: op.CollectContext(cs[i], node).Success?
  {
    if cs != [] {
      GatherRowsAllSucceed(op, cs[1..], node);
      forall i | 0 < i < |cs| ensures cs[i] == cs[1..][i - 1] { }
    }
  }

  /** What each context yields on its own, in context order. */
  function Outcomes(op: CollectOperation, cs: seq<Context>, node: CollectNode): seq<Result<Option<Row>, CollectError>>
  {
    seq(|cs|, i requires 0 <= i < |cs| => op.CollectContext(cs[i], node))
  }

  /**
   * A successful gather holds each row as many times as contexts yield it,
   * so its length is the number of contexts that admit a row.
   */
  lemma {:induction false} GatherRowsMultiplicity(op: CollectOperation, cs: seq<Context>, node: CollectNode)
    requires op.GatherRows(cs, node).Success?
    ensures forall row :: multiset(op.GatherRows(cs, node).value)[row] == multiset(Outcomes(op, cs, node))[Success(Some(row))]
    ensures |op.GatherRows(cs, node).value| == |cs| - multiset(Outcomes(op, cs, node))[Success(None)]
  {
    if cs != [] {
      GatherRowsMultiplicity(op, cs[1..], node);
      var o := op.CollectContext(cs[0], node);
      OutcomesCons(op, cs, node);
      var f: Matrix := if o.value.Some? then [o.value.value] else [];
      var rest := op.GatherRows(cs[1..], node).value;
      assert op.GatherRows(cs, node).value == f + rest;
      OneOutcomeCount(o, f);
      var os := Outcomes(op, cs[1..], node);
      assert multiset([o] + os) == multiset([o]) + multiset(os);
      assert multiset(f + rest) == multiset(f) + multiset(rest);
    }
  }

  lemma OutcomesCons(op: CollectOperation, cs: seq<Context>, node: CollectNode)
    requires cs != []
    ensures Outcomes(op, cs, node) == [op.CollectContext(cs[0], node)] + Outcomes(op, cs[1..], node)
  {
  }

  /** The rows one successful context contributes, counted against its outcome. */
  lemma OneOutcomeCount(o: Result<Option<Row>, CollectError>, f: Matrix)
    requires o.Success? && f == if o.value.Some? then [o.value.value] else []
    ensures forall row :: multiset(f)[row] == multiset([o])[Success(Some(row))]
    ensures |f| == 1 - multiset([o])[Success(None)]
  {
  }

  /** Without a filter a successful gather holds one row per context. */
  lemma {:induction false} GatherRowsCount(op: CollectOperation, cs: seq<Context>, node: CollectNode)
    requires op.GatherRows(cs, node).Success?
    ensures node.whereClause.None? ==> |op.GatherRows(cs, node).value| == |cs|
  {
    if cs != [] {
      GatherRowsCount(op, cs[1..], node);
      if node.whereClause.None? {
        ContextRow(op, cs[0], node);
      }
    }
  }

  /** A plan without outputs, or with LIMIT 0, yields the empty matrix without evaluating any context. */
  lemma EmptyPlanOrLimitZero(op: CollectOperation, node: CollectNode)
    requires op.localNodeId in node.routing.locations && ValidOrderBy(node)
    requires node.outputs == [] || node.limit == Some(0)
    ensures op.Collect(node) == Success([])
  {
  }

  /** The rows of a successful call, before ORDER BY, OFFSET and LIMIT. */
  lemma CollectGathers(op: CollectOperation, node: CollectNode)
    requires op.Collect(node).Success?
    requires node.outputs != [] && node.limit != Some(0)
    ensures op.localNodeId in node.routing.locations && ValidOrderBy(node)
    ensures op.GatherRows(op.Contexts(node), node).Success?
    ensures op.Collect(node).value ==
      OrderOffsetLimit(op.GatherRows(op.Contexts(node), node).value, OrderKeys(node), node.offset, node.limit)
  {
  }

  /**
   * ORDER BY, then OFFSET, then LIMIT: the result is the window of the
   * ordered gathered rows that starts at the offset, at most LIMIT long,
   * empty once the offset reaches the number of gathered rows.
   */
  lemma CollectWindow(op: CollectOperation, node: CollectNode)
    requires op.Collect(node).Success?
    requires node.outputs != [] && node.limit != Some(0)
    ensures op.localNodeId in node.routing.locations && ValidOrderBy(node)
    ensures op.GatherRows(op.Contexts(node), node).Success?
    ensures var n := |op.GatherRows(op.Contexts(node), node).value|;
      var available := if node.offset >= n then 0 else n - node.offset;
      |op.Collect(node).value| == (if node.limit.Some? then Min(node.limit.value, available) else available)
    ensures node.offset >= |op.GatherRows(op.Contexts(node), node).value| ==> |op.Collect(node).value| == 0
  {
    CollectGathers(op, node);
    WindowLength(op.Collect(node).value, op.GatherRows(op.Contexts(node), node).value, OrderKeys(node), node.offset, node.limit);
  }

  /** With an order-by the rows come out in order of the listed columns and directions. */
  lemma CollectSorted(op: CollectOperation, node: CollectNode)
    requires op.Collect(node).Success? && node.orderBy != []
    ensures ValidOrderBy(node) && Sorted(op.Collect(node).value, OrderKeys(node))
  {
    if node.outputs != [] && node.limit != Some(0) {
      CollectGathers(op, node);
      OrderOffsetLimitSorted(op.GatherRows(op.Contexts(node), node).value, OrderKeys(node), node.offset, node.limit);
    }
  }

  /** Every returned row is the declared-order projection of a context whose filter evaluated to `true`. */
  lemma RowFromAdmittedContext(op: CollectOperation, node: CollectNode, row: Row)
    requires op.Collect(node).Success? && row in op.Collect(node).value
    ensures op.localNodeId in node.routing.locations
    ensures exists i | 0 <= i < |op.Contexts(node)| ::
      && op.ResolverFor(op.Contexts(node)[i]).Success?
      && FilterHolds(node, op.ResolverFor(op.Contexts(node)[i]).value, op.functions)
      && ProjectsOutputs(row, node, op.ResolverFor(op.Contexts(node)[i]).value, op.functions)
  {
    CollectGathers(op, node);
    var cs := op.Contexts(node);
    var g := op.GatherRows(cs, node).value;
    GatherRowsExact(op, cs, node);
    var i :| 0 <= i < |cs| && op.CollectContext(cs[i], node) == Success(Some(row));
    ContextRow(op, cs[i], node);
  }

  /**
   * Without OFFSET and LIMIT, every context whose filter evaluates to `true`
   * contributes its projected row.
   */
  lemma AdmittedContextIncluded(op: CollectOperation, node: CollectNode, i: nat)
    requires op.Collect(node).Success? && node.outputs != []
    requires node.offset == 0 && node.limit.None?
    requires op.localNodeId in node.routing.locations && i < |op.Contexts(node)|
    requires op.ResolverFor(op.Contexts(node)[i]).Success?
    requires FilterHolds(node, op.ResolverFor(op.Contexts(node)[i]).value, op.functions)
    ensures exists row | row in op.Collect(node).value ::
      ProjectsOutputs(row, node, op.ResolverFor(op.Contexts(node)[i]).value, op.functions)
  {
    CollectGathers(op, node);
    var cs := op.Contexts(node);
    var g := op.GatherRows(cs, node).value;
    GatherRowsExact(op, cs, node);
    ContextRow(op, cs[i], node);
    var row := op.CollectContext(cs[i], node).value.value;
    assert row in g;
    var keys := OrderKeys(node);
    var sorted := if keys == [] then g else SortRows(g, keys);
    assert row in multiset(sorted);
    assert op.Collect(node).value == sorted;
  }

  /**
   * Without OFFSET and LIMIT the call returns each row as many times as
   * contexts yield it: one row per context whose filter evaluates to `true`.
   */
  lemma CollectMultiplicity(op: CollectOperation, node: CollectNode)
    requires op.Collect(node).Success? && node.outputs != []
    requires node.offset == 0 && node.limit.None?
    ensures op.localNodeId in node.routing.locations
    ensures forall row :: multiset(op.Collect(node).value)[row] == multiset(Outcomes(op, op.Contexts(node), node))[Success(Some(row))]
    ensures |op.Collect(node).value| == |op.Contexts(node)| - multiset(Outcomes(op, op.Contexts(node), node))[Success(None)]
  {
    CollectGathers(op, node);
    var cs := op.Contexts(node);
    var g := op.GatherRows(cs, node).value;
    GatherRowsMultiplicity(op, cs, node);
    var keys := OrderKeys(node);
    var sorted := if keys == [] then g else SortRows(g, keys);
    assert op.Collect(node).value == sorted;
    assert multiset(sorted) == multiset(g);
  }

  /** Without shard-level references the call evaluates the node alone and yields at most one row. */
  lemma NodeScopeAtMostOneRow(op: CollectOperation, node: CollectNode)
    requires op.Collect(node).Success? && !AnyShardReference(PlanSymbols(node))
    ensures |op.Collect(node).value| <= 1
  {
    if node.outputs != [] && node.limit != Some(0) {
      CollectWindow(op, node);
      GatherRowsCount(op, op.Contexts(node), node);
    }
  }

  /** ... and exactly one row when there are outputs and no filter, OFFSET or LIMIT 0. */
  lemma NodeScopeOneRow(op: CollectOperation, node: CollectNode)
    requires op.Collect(node).Success? && !AnyShardReference(PlanSymbols(node))
    requires node.outputs != [] && node.whereClause.None? && node.offset == 0 && node.limit != Some(0)
    ensures |op.Collect(node).value| == 1
  {
    CollectWindow(op, node);
    GatherRowsCount(op, op.Contexts(node), node);
  }

  /**
   * With a shard-level reference and no filter, OFFSET or LIMIT, the call
   * yields one row per routed (table, shard) pair of the local node.
   */
  lemma ShardScopeRowPerShard(op: CollectOperation, node: CollectNode)
    requires op.Collect(node).Success? && AnyShardReference(PlanSymbols(node))
    requires node.whereClause.None? && node.offset == 0 && node.limit.None?
    ensures op.localNodeId in node.routing.locations
    ensures |op.Collect(node).value| == |RoutedShards(node.routing.locations[op.localNodeId])|
  {
    assert node.outputs != [] by {
      var i :| 0 <= i < |PlanSymbols(node)| && HasShardReference(PlanSymbols(node)[i]);
    }
    CollectWindow(op, node);
    GatherRowsCount(op, op.Contexts(node), node);
  }

  /** No shard registry of this node holds any of the identifiers. */
  predicate NotShadowedByShards(op: CollectOperation, ids: set<ReferenceIdent>)
  {
    forall k, id | k in op.shardReferences && id in ids :: id !in op.shardReferences[k]
  }

  /**
   * An output reaching only node-level implementations has on every row the
   * value it has in the node context: node values repeat on every shard row.
   */
  lemma NodeColumnReplicated(op: CollectOperation, node: CollectNode, row: Row, j: nat)
    requires op.Collect(node).Success? && row in op.Collect(node).value
    requires j < |node.outputs| && NotShadowedByShards(op, ReferenceIdents(node.outputs[j]))
    ensures j < |row| && ValueOf(node.outputs[j], op.globalReferences, op.functions) == Success(row[j])
  {
    RowFromAdmittedContext(op, node, row);
    var cs := op.Contexts(node);
    var i :| 0 <= i < |cs| && op.ResolverFor(cs[i]).Success?
      && FilterHolds(node, op.ResolverFor(cs[i]).value, op.functions)
      && ProjectsOutputs(row, node, op.ResolverFor(cs[i]).value, op.functions);
    ProjectedValueIsGlobal(op, node, cs[i], row, j);
  }

  lemma ProjectedValueIsGlobal(op: CollectOperation, node: CollectNode, ctx: Context, row: Row, j: nat)
    requires op.ResolverFor(ctx).Success? && ProjectsOutputs(row, node, op.ResolverFor(ctx).value, op.functions)
    requires j < |node.outputs| && NotShadowedByShards(op, ReferenceIdents(node.outputs[j]))
    ensures j < |row| && ValueOf(node.outputs[j], op.globalReferences, op.functions) == Success(row[j])
  {
    ResolverAgreesWithGlobal(op, ctx, ReferenceIdents(node.outputs[j]));
    BindAgree(node.outputs[j], op.ResolverFor(ctx).value, op.globalReferences, op.functions);
  }

  lemma ResolverAgreesWithGlobal(op: CollectOperation, ctx: Context, ids: set<ReferenceIdent>)
    requires op.ResolverFor(ctx).Success? && NotShadowedByShards(op, ids)
    ensures AgreeOn(op.ResolverFor(ctx).value, op.globalReferences, ids)
  {
    if ctx.ShardContext? {
      var shard := op.shardReferences[ctx.key];
      assert op.ResolverFor(ctx).value == ShardResolver(op.globalReferences, shard);
      assert forall id | id in ids :: id !in shard;
    }
  }

  /** In node scope the call succeeds or fails as the node context does. */
  lemma NodeScopeIsNodeContext(op: CollectOperation, node: CollectNode)
    requires op.localNodeId in node.routing.locations && ValidOrderBy(node)
    requires node.outputs != [] && node.limit != Some(0)
    requires !AnyShardReference(PlanSymbols(node))
    ensures op.Collect(node).Failure? <==> op.CollectContext(NodeContext, node).Failure?
    ensures op.Collect(node).Failure? ==> op.Collect(node).error == op.CollectContext(NodeContext, node).error
  {
    assert op.Contexts(node) == [NodeContext];
    assert [NodeContext][1..] == [];
    var c := op.CollectContext(NodeContext, node);
    assert op.GatherRows([], node) == Success([]);
    if c.Success? {
      assert op.GatherRows([NodeContext], node) == Success((if c.value.Some? then [c.value.value] else []) + []);
    } else {
      assert op.GatherRows([NodeContext], node) == Failure(c.error);
    }
  }

  /** Positions of the filter and of the outputs within the plan's symbols. */
  lemma PlanSymbolsLayout(node: CollectNode)
    ensures var off := if node.whereClause.Some? then 1 else 0;
      && |PlanSymbols(node)| == off + |node.outputs|
      && (node.whereClause.Some? ==> PlanSymbols(node)[0] == node.whereClause.value)
      && forall i | 0 <= i < |node.outputs| :: PlanSymbols(node)[off + i] == node.outputs[i]
  {
  }

  /** All identifiers the plan reaches are registered. */
  predicate AllRegistered(ss: seq<Symbol>, refs: Registry, fns: FunctionRegistry)
  {
    forall i | 0 <= i < |ss| :: Registered(ss[i], refs, fns)
  }

  /** The first binding failure of a plan: the filter's, else the outputs'. */
  function BindPlanError(node: CollectNode, refs: Registry, fns: FunctionRegistry): Option<CollectError>
  {
    var filter := BindFilter(node.whereClause, refs, fns);
    var outs := BindAll(node.outputs, refs, fns);
    if filter.Failure? then Some(filter.error)
    else if outs.Failure? then Some(outs.error)
    else None
  }

  /** Every identifier `s` reaches is registered. */
  predicate Registered(s: Symbol, refs: Registry, fns: FunctionRegistry)
  {
    ReferenceIdents(s) <= refs.Keys && FunctionIdents(s) <= fns.Keys
  }

  lemma AllRegisteredSplit(node: CollectNode, refs: Registry, fns: FunctionRegistry)
    ensures AllRegistered(PlanSymbols(node), refs, fns) <==>
      (node.whereClause.Some? ==> Registered(node.whereClause.value, refs, fns)) &&
      forall i | 0 <= i < |node.outputs| :: Registered(node.outputs[i], refs, fns)
  {
    if AllRegistered(PlanSymbols(node), refs, fns) {
      AllRegisteredParts(node, refs, fns);
    }
    if (node.whereClause.Some? ==> Registered(node.whereClause.value, refs, fns)) &&
       forall i | 0 <= i < |node.outputs| :: Registered(node.outputs[i], refs, fns)
    {
      AllRegisteredFromParts(node, refs, fns);
    }
  }

  lemma AllRegisteredParts(node: CollectNode, refs: Registry, fns: FunctionRegistry)
    requires AllRegistered(PlanSymbols(node), refs, fns)
    ensures node.whereClause.Some? ==> Registered(node.whereClause.value, refs, fns)
    ensures forall i | 0 <= i < |node.outputs| :: Registered(node.outputs[i], refs, fns)
  {
    var pre := if node.whereClause.Some? then [node.whereClause.value] else [];
    var ps := PlanSymbols(node);
    assert ps == pre + node.outputs;
    if node.whereClause.Some? {
      assert ps[0] == node.whereClause.value;
    }
    forall i | 0 <= i < |node.outputs| ensures Registered(node.outputs[i], refs, fns) {
      assert ps[|pre| + i] == node.outputs[i];
    }
  }

  lemma AllRegisteredFromParts(node: CollectNode, refs: Registry, fns: FunctionRegistry)
    requires node.whereClause.Some? ==> Registered(node.whereClause.value, refs, fns)
    requires forall i | 0 <= i < |node.outputs| :: Registered(node.outputs[i], refs, fns)
    ensures AllRegistered(PlanSymbols(node), refs, fns)
  {
    var pre := if node.whereClause.Some? then [node.whereClause.value] else [];
    var ps := PlanSymbols(node);
    assert ps == pre + node.outputs;
    forall i | 0 <= i < |ps| ensures Registered(ps[i], refs, fns) {
      if i >= |pre| {
        assert ps[i] == node.outputs[i - |pre|];
      } else {
        assert ps[i] == node.whereClause.value;
      }
    }
  }

  lemma MissingInOutput(e: CollectError, node: CollectNode, i: nat, refs: Registry, fns: FunctionRegistry)
    requires i < |node.outputs| && MissingIdent(e, node.outputs[i], refs, fns)
    ensures exists k | 0 <= k < |PlanSymbols(node)| :: MissingIdent(e, PlanSymbols(node)[k], refs, fns)
  {
    PlanSymbolsLayout(node);
    var off := if node.whereClause.Some? then 1 else 0;
    assert PlanSymbols(node)[off + i] == node.outputs[i];
  }

  /** Binding the plan fails exactly when an identifier is missing, and reports a missing one. */
  lemma BindPlanErrorIff(node: CollectNode, refs: Registry, fns: FunctionRegistry)
    ensures BindPlanError(node, refs, fns).None? <==> AllRegistered(PlanSymbols(node), refs, fns)
    ensures BindPlanError(node, refs, fns).Some? ==>
      exists i | 0 <= i < |PlanSymbols(node)| :: MissingIdent(BindPlanError(node, refs, fns).value, PlanSymbols(node)[i], refs, fns)
  {
    AllRegisteredSplit(node, refs, fns);
    PlanSymbolsLayout(node);
    if node.whereClause.Some? {
      BindSucceedsIff(node.whereClause.value, refs, fns);
    }
    BindAllSucceedsIff(node.outputs, refs, fns);
    var filter := BindFilter(node.whereClause, refs, fns);
    var outs := BindAll(node.outputs, refs, fns);
    if filter.Failure? {
      assert MissingIdent(filter.error, PlanSymbols(node)[0], refs, fns);
    } else if outs.Failure? {
      var i :| 0 <= i < |node.outputs| && MissingIdent(outs.error, node.outputs[i], refs, fns);
      MissingInOutput(outs.error, node, i, refs, fns);
    }
  }

  /** Once its resolver exists, a context fails on the plan's first binding failure, or else only in evaluation. */
  lemma ContextFailureCause(op: CollectOperation, ctx: Context, node: CollectNode)
    requires op.ResolverFor(ctx).Success?
    ensures var c := op.CollectContext(ctx, node);
      var b := BindPlanError(node, op.ResolverFor(ctx).value, op.functions);
      && (b.Some? ==> c == Failure(b.value))
      && (b.None? && c.Failure? ==> c.error.EvaluationError?)
  {
  }

  /** A context fails with an unknown identifier exactly when one of the plan's identifiers is missing from its resolver. */
  lemma ContextUnknownIdentifier(op: CollectOperation, ctx: Context, node: CollectNode)
    requires op.ResolverFor(ctx).Success?
    ensures var c := op.CollectContext(ctx, node);
      var refs := op.ResolverFor(ctx).value;
      && ((c.Failure? && (c.error.UnknownReference? || c.error.UnknownFunction?))
            <==> !AllRegistered(PlanSymbols(node), refs, op.functions))
      && (c.Failure? && (c.error.UnknownReference? || c.error.UnknownFunction?) ==>
            exists i | 0 <= i < |PlanSymbols(node)| :: MissingIdent(c.error, PlanSymbols(node)[i], refs, op.functions))
  {
    BindPlanErrorIff(node, op.ResolverFor(ctx).value, op.functions);
    ContextFailureCause(op, ctx, node);
  }

  /**
   * In node scope, and past the routing, order-by and fast-path checks, the
   * call fails with "Unknown Reference" or "Unknown Function" exactly when
   * some reference or function of the plan is not registered, and the error
   * names one of the missing identifiers.
   */
  lemma UnknownIdentifierFails(op: CollectOperation, node: CollectNode)
    requires op.localNodeId in node.routing.locations && ValidOrderBy(node)
    requires node.outputs != [] && node.limit != Some(0)
    requires !AnyShardReference(PlanSymbols(node))
    ensures (op.Collect(node).Failure? && (op.Collect(node).error.UnknownReference? || op.Collect(node).error.UnknownFunction?))
      <==> !AllRegistered(PlanSymbols(node), op.globalReferences, op.functions)
    ensures op.Collect(node).Failure? && (op.Collect(node).error.UnknownReference? || op.Collect(node).error.UnknownFunction?) ==>
      && (exists i | 0 <= i < |PlanSymbols(node)| ::
            MissingIdent(op.Collect(node).error, PlanSymbols(node)[i], op.globalReferences, op.functions))
      && Message(op.Collect(node).error) == (if op.Collect(node).error.UnknownReference? then "Unknown Reference" else "Unknown Function")
  {
    NodeScopeIsNodeContext(op, node);
    ContextUnknownIdentifier(op, NodeContext, node);
  }

  /**
   * Some function of the plan is not registered, or some reference of the
   * plan is registered neither process-wide nor by any of the given shards.
   */
  predicate UnknownInEveryShard(op: CollectOperation, node: CollectNode, shards: set<ShardKey>)
  {
    exists i | 0 <= i < |PlanSymbols(node)| ::
      || !(FunctionIdents(PlanSymbols(node)[i]) <= op.functions.Keys)
      || exists id | id in ReferenceIdents(PlanSymbols(node)[i]) ::
           id !in op.globalReferences && forall k | k in shards && k in op.shardReferences :: id !in op.shardReferences[k]
  }

  /**
   * In shard scope, past the routing, order-by and fast-path checks: when
   * the local node routes at least one shard, every routed shard is open,
   * and an identifier of the plan is unknown in every shard, the call fails
   * with "Unknown Reference" or "Unknown Function", naming an identifier
   * missing from the resolver of a routed shard.
   */
  lemma ShardScopeUnknownIdentifierFails(op: CollectOperation, node: CollectNode)
    requires op.localNodeId in node.routing.locations && ValidOrderBy(node)
    requires node.outputs != [] && node.limit != Some(0)
    requires AnyShardReference(PlanSymbols(node))
    requires var routed := RoutedShards(node.routing.locations[op.localNodeId]);
      && routed != {}
      && (forall k | k in routed :: k in op.shardReferences)
      && UnknownInEveryShard(op, node, routed)
    ensures op.Collect(node).Failure?
    ensures op.Collect(node).error.UnknownReference? || op.Collect(node).error.UnknownFunction?
    ensures exists k | k in RoutedShards(node.routing.locations[op.localNodeId]) && k in op.shardReferences ::
      exists i | 0 <= i < |PlanSymbols(node)| ::
        MissingIdent(op.Collect(node).error, PlanSymbols(node)[i], ShardResolver(op.globalReferences, op.shardReferences[k]), op.functions)
  {
    var routed := RoutedShards(node.routing.locations[op.localNodeId]);
    var cs := op.Contexts(node);
    FirstShardContext(op, node);
    var c0 := cs[0];
    var refs := ShardResolver(op.globalReferences, op.shardReferences[c0.key]);
    assert op.ResolverFor(c0) == Success(refs);
    UnknownInResolver(op, node, routed, c0.key);
    ContextUnknownIdentifier(op, c0, node);
    var c := op.CollectContext(c0, node);
    var i :| 0 <= i < |PlanSymbols(node)| && MissingIdent(c.error, PlanSymbols(node)[i], refs, op.functions);
    GatherFirstFailure(op, cs, node);
    CollectFailsAsGather(op, node);
    assert op.Collect(node).error == c.error;
  }

  /** In shard scope with a routed shard, the first context is that of a routed shard. */
  lemma FirstShardContext(op: CollectOperation, node: CollectNode)
    requires op.localNodeId in node.routing.locations && AnyShardReference(PlanSymbols(node))
    requires RoutedShards(node.routing.locations[op.localNodeId]) != {}
    ensures |op.Contexts(node)| > 0
    ensures op.Contexts(node)[0].ShardContext?
    ensures op.Contexts(node)[0].key in RoutedShards(node.routing.locations[op.localNodeId])
  {
    var k0 :| k0 in RoutedShards(node.routing.locations[op.localNodeId]);
    assert ShardContext(k0) in op.Contexts(node);
  }

  /** Past the routing, order-by and fast-path checks, a failing gather fails the call with its error. */
  lemma CollectFailsAsGather(op: CollectOperation, node: CollectNode)
    requires op.localNodeId in node.routing.locations && ValidOrderBy(node)
    requires node.outputs != [] && node.limit != Some(0)
    requires op.GatherRows(op.Contexts(node), node).Failure?
    ensures op.Collect(node) == Failure(op.GatherRows(op.Contexts(node), node).error)
  {
  }

  lemma UnknownInResolver(op: CollectOperation, node: CollectNode, shards: set<ShardKey>, k: ShardKey)
    requires UnknownInEveryShard(op, node, shards) && k in shards && k in op.shardReferences
    ensures !AllRegistered(PlanSymbols(node), ShardResolver(op.globalReferences, op.shardReferences[k]), op.functions)
  {
    var refs := ShardResolver(op.globalReferences, op.shardReferences[k]);
    var i :| 0 <= i < |PlanSymbols(node)| &&
      (|| !(FunctionIdents(PlanSymbols(node)[i]) <= op.functions.Keys)
       || exists id | id in ReferenceIdents(PlanSymbols(node)[i]) ::
            id !in op.globalReferences && forall k | k in shards && k in op.shardReferences :: id !in op.shardReferences[k]);
    assert !Registered(PlanSymbols(node)[i], refs, op.functions);
  }

  /** A gather fails with the error of its first context when that context fails. */
  lemma GatherFirstFailure(op: CollectOperation, cs: seq<Context>, node: CollectNode)
    requires cs != [] && op.CollectContext(cs[0], node).Failure?
    ensures op.GatherRows(cs, node) == Failure(op.CollectContext(cs[0], node).error)
  {
  }

  /** A context whose filter evaluates to `true` contributes exactly the projection of the outputs. */
  lemma ContextRowFromValues(op: CollectOperation, ctx: Context, node: CollectNode, row: Row)
    requires op.ResolverFor(ctx).Success?
    requires FilterHolds(node, op.ResolverFor(ctx).value, op.functions)
    requires ProjectsOutputs(row, node, op.ResolverFor(ctx).value, op.functions)
    ensures op.CollectContext(ctx, node) == Success(Some(row))
  {
    var refs, fns := op.ResolverFor(ctx).value, op.functions;
    var filter := BindFilter(node.whereClause, refs, fns);
    assert filter.Success? && Admits(filter.value) == Success(true);
    forall j | 0 <= j < |node.outputs| ensures Bind(node.outputs[j], refs, fns).Success? {
      assert ValueOf(node.outputs[j], refs, fns).Success?;
    }
    OutputsBind(node, refs, fns);
    var outs := BindAll(node.outputs, refs, fns);
    var vs := EvalAll(outs.value);
    assert vs.Success? by {
      forall j | 0 <= j < |outs.value| ensures Eval(outs.value[j]).Success? {
        assert ValueOf(node.outputs[j], refs, fns) == Eval(outs.value[j]);
      }
    }
    assert vs.value == row by {
      forall j | 0 <= j < |row| ensures vs.value[j] == row[j] {
        assert ValueOf(node.outputs[j], refs, fns) == Eval(outs.value[j]);
      }
    }
  }

  /** Outputs that all have a value all bind. */
  lemma OutputsBind(node: CollectNode, refs: Registry, fns: FunctionRegistry)
    requires forall j | 0 <= j < |node.outputs| :: Bind(node.outputs[j], refs, fns).Success?
    ensures BindAll(node.outputs, refs, fns).Success?
  {
    BindAllSucceedsIff(node.outputs, refs, fns);
    forall j | 0 <= j < |node.outputs| ensures Registered(node.outputs[j], refs, fns) {
      BindSucceedsIff(node.outputs[j], refs, fns);
    }
  }

  /**
   * A context whose filter evaluates to anything but `true` (false, NULL,
   * another value) contributes no row, provided its outputs bind.
   */
  lemma ContextRejects(op: CollectOperation, ctx: Context, node: CollectNode, v: Value)
    requires op.ResolverFor(ctx).Success? && node.whereClause.Some?
    requires ValueOf(node.whereClause.value, op.ResolverFor(ctx).value, op.functions) == Success(v)
    requires v != BoolValue(true)
    requires forall j | 0 <= j < |node.outputs| :: Bind(node.outputs[j], op.ResolverFor(ctx).value, op.functions).Success?
    ensures op.CollectContext(ctx, node) == Success(None)
  {
    OutputsBind(node, op.ResolverFor(ctx).value, op.functions);
  }
}
