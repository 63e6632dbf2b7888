/**
 * The fixture of the collector test suite and the outcome of each of its
 * scenarios, proved about the model: one node "test_node", a node-level
 * expression `default.collect.truth` worth 42, the function `twoTimes`, the
 * AND and equality operators, and shards 0 and 1 of "test_table", each with
 * its `sys.shards.id` expression.
 */
module CollectorTest {
  import opened Wrappers
  import opened Values
  import opened Symbols
  import opened Errors
  import opened ShardIdExpressions
  import opened References
  import opened Functions
  import opened Evaluation
  import opened Routing
  import opened Pipeline
  import opened LocalDataCollect
  import opened CollectProperties

  const TEST_NODE_ID: string := "test_node"
  const TEST_TABLE_NAME: string := "test_table"

  const TRUTH_IDENT: ReferenceIdent := ReferenceIdent(TableIdent("default", "collect"), "truth")
  const TRUTH_INFO: ReferenceInfo := ReferenceInfo(TRUTH_IDENT, Node, IntegerType)

  /** The node-level test expression: always 42. */
  const TEST_EXPRESSION: ReferenceImplementation := ConstantExpression(IntValue(42))

  const NODE_REFERENCE: Symbol := Reference(TRUTH_INFO)
  const SHARD_ID_REFERENCE: Symbol := Reference(INFO_ID)

  const SHARD_0: ShardKey := ShardKey(TEST_TABLE_NAME, 0)
  const SHARD_1: ShardKey := ShardKey(TEST_TABLE_NAME, 1)

  function ShardRegistry(id: Int32): Registry
  {
    map[INFO_ID.ident := ShardIdImplementation(ShardIdExpression(ShardId(TEST_TABLE_NAME, id)))]
  }

  const FUNCTIONS: FunctionRegistry := map[
    TWO_TIMES_IDENT := TwoTimes,
    AND_IDENT := AndOperator,
    EqIdent(IntegerType) := EqOperator,
    EqIdent(BooleanType) := EqOperator,
    EqIdent(StringType) := EqOperator]

  /** The operation as the suite configures it before each scenario. */
  const OPERATION: CollectOperation := CollectOperation(
    TEST_NODE_ID,
    FUNCTIONS,
    map[TRUTH_IDENT := TEST_EXPRESSION],
    map[SHARD_0 := ShardRegistry(0), SHARD_1 := ShardRegistry(1)])

  /** The local node, participating with no tables. */
  const TEST_ROUTING: Routing := Routing(map[TEST_NODE_ID := map[]])

  /** The local node scanning the given shards of the test table. */
  function ShardRouting(shardIds: set<Int32>): Routing
  {
    Routing(map[TEST_NODE_ID := map[TEST_TABLE_NAME := shardIds]])
  }

  function Plan(routing: Routing, whereClause: Option<Symbol>, outputs: seq<Symbol>): CollectNode
  {
    CollectNode("collect", routing, whereClause, outputs, None, NO_OFFSET, [], [])
  }

  function PlanWindow(routing: Routing, outputs: seq<Symbol>, limit: Option<nat>, offset: nat): CollectNode
  {
    CollectNode("collect", routing, None, outputs, limit, offset, [], [])
  }

  function PlanOrdered(routing: Routing, outputs: seq<Symbol>, orderBy: seq<nat>, reverseFlags: seq<bool>): CollectNode
  {
    CollectNode("collect", routing, None, outputs, None, NO_OFFSET, orderBy, reverseFlags)
  }

  /** A node routed to two shards of one table evaluates them lower shard number first. */
  lemma ContextsOfTwoShards(node: CollectNode, t: string, a: Int32, b: Int32)
    requires TEST_NODE_ID in node.routing.locations && node.routing.locations[TEST_NODE_ID] == map[t := {a, b}]
    requires a < b && AnyShardReference(PlanSymbols(node))
    ensures OPERATION.Contexts(node) == [ShardContext(ShardKey(t, a)), ShardContext(ShardKey(t, b))]
  {
    ShardKeysOfTwoShards(t, a, b);
    var cs := ShardContexts([ShardKey(t, a), ShardKey(t, b)]);
    assert cs == [ShardContext(ShardKey(t, a)), ShardContext(ShardKey(t, b))];
  }

  lemma ShardContextsOfTwoShards(node: CollectNode)
    requires node.routing == ShardRouting({0, 1}) && AnyShardReference(PlanSymbols(node))
    ensures OPERATION.Contexts(node) == [ShardContext(SHARD_0), ShardContext(SHARD_1)]
  {
    ContextsOfTwoShards(node, TEST_TABLE_NAME, 0, 1);
  }

  function RowsOf(o: Option<Row>): Matrix
  {
    if o.Some? then [o.value] else []
  }

  /** In node scope the call is the node context's contribution, ordered and windowed. */
  lemma NodeScope(node: CollectNode, o: Result<Option<Row>, CollectError>)
    requires TEST_NODE_ID in node.routing.locations && ValidOrderBy(node)
    requires node.outputs != [] && node.limit != Some(0) && !AnyShardReference(PlanSymbols(node))
    requires OPERATION.CollectContext(NodeContext, node) == o
    ensures o.Failure? ==> OPERATION.Collect(node) == Failure(o.error)
    ensures o.Success? ==>
      OPERATION.Collect(node) == Success(OrderOffsetLimit(RowsOf(o.value), OrderKeys(node), node.offset, node.limit))
  {
    assert OPERATION.Contexts(node) == [NodeContext];
    assert [NodeContext][1..] == [];
    assert OPERATION.GatherRows([], node) == Success([]);
    if o.Success? {
      assert RowsOf(o.value) + [] == RowsOf(o.value);
    }
  }

  /** Over shards {0, 1} the call gathers shard 0's contribution, then shard 1's. */
  lemma ShardScope(node: CollectNode, o0: Option<Row>, o1: Option<Row>)
    requires node.routing == ShardRouting({0, 1}) && ValidOrderBy(node)
    requires node.outputs != [] && node.limit != Some(0) && AnyShardReference(PlanSymbols(node))
    requires OPERATION.CollectContext(ShardContext(SHARD_0), node) == Success(o0)
    requires OPERATION.CollectContext(ShardContext(SHARD_1), node) == Success(o1)
    ensures OPERATION.Collect(node) ==
      Success(OrderOffsetLimit(RowsOf(o0) + RowsOf(o1), OrderKeys(node), node.offset, node.limit))
  {
    ShardContextsOfTwoShards(node);
    GatherTwo(ShardContext(SHARD_0), ShardContext(SHARD_1), node, o0, o1);
    CollectOfGather(node, RowsOf(o0) + RowsOf(o1));
  }

  lemma GatherTwo(c0: Context, c1: Context, node: CollectNode, o0: Option<Row>, o1: Option<Row>)
    requires OPERATION.CollectContext(c0, node) == Success(o0)
    requires OPERATION.CollectContext(c1, node) == Success(o1)
    ensures OPERATION.GatherRows([c0, c1], node) == Success(RowsOf(o0) + RowsOf(o1))
  {
    GatherOne(c0, node, o0);
    GatherOne(c1, node, o1);
    OPERATION.GatherAppend([c0], [c1], node);
    assert [c0] + [c1] == [c0, c1];
  }

  lemma CollectOfGather(node: CollectNode, rows: Matrix)
    requires TEST_NODE_ID in node.routing.locations && ValidOrderBy(node)
    requires node.outputs != [] && node.limit != Some(0)
    requires OPERATION.GatherRows(OPERATION.Contexts(node), node) == Success(rows)
    ensures OPERATION.Collect(node) == Success(OrderOffsetLimit(rows, OrderKeys(node), node.offset, node.limit))
  {
  }

  lemma GatherOne(ctx: Context, node: CollectNode, o: Option<Row>)
    requires OPERATION.CollectContext(ctx, node) == Success(o)
    ensures OPERATION.GatherRows([ctx], node) == Success(RowsOf(o))
  {
    assert [ctx][1..] == [];
    assert OPERATION.GatherRows([], node) == Success([]);
    assert RowsOf(o) + [] == RowsOf(o);
  }

  /** A node-scope call whose node context contributes `row`. */
  lemma NodeCollectRow(node: CollectNode, row: Row)
    requires TEST_NODE_ID in node.routing.locations && ValidOrderBy(node)
    requires node.outputs != [] && node.limit != Some(0) && !AnyShardReference(PlanSymbols(node))
    requires OPERATION.CollectContext(NodeContext, node) == Success(Some(row))
    ensures OPERATION.Collect(node) == Success(OrderOffsetLimit([row], OrderKeys(node), node.offset, node.limit))
  {
    NodeScope(node, Success(Some(row)));
    assert RowsOf(Some(row)) == [row];
  }

  /** A node-scope call whose node context rejects the row yields nothing. */
  lemma NodeCollectNone(node: CollectNode)
    requires TEST_NODE_ID in node.routing.locations && ValidOrderBy(node)
    requires node.outputs != [] && node.limit != Some(0) && !AnyShardReference(PlanSymbols(node))
    requires OPERATION.CollectContext(NodeContext, node) == Success(None)
    ensures OPERATION.Collect(node) == Success([])
  {
    NodeScope(node, Success(None));
    assert RowsOf(None) == [];
  }

  /** A call over shards {0, 1} where both shards contribute. */
  lemma TwoShardCollect(node: CollectNode, r0: Row, r1: Row)
    requires node.routing == ShardRouting({0, 1}) && ValidOrderBy(node)
    requires node.outputs != [] && node.limit != Some(0) && AnyShardReference(PlanSymbols(node))
    requires OPERATION.CollectContext(ShardContext(SHARD_0), node) == Success(Some(r0))
    requires OPERATION.CollectContext(ShardContext(SHARD_1), node) == Success(Some(r1))
    ensures OPERATION.Collect(node) == Success(OrderOffsetLimit([r0, r1], OrderKeys(node), node.offset, node.limit))
  {
    RowsOfTwo(r0, r1);
    ShardScope(node, Some(r0), Some(r1));
  }

  lemma RowsOfTwo(r0: Row, r1: Row)
    ensures RowsOf(Some(r0)) + RowsOf(Some(r1)) == [r0, r1]
  {
  }

  /** A call over shards {0, 1} where only shard 0 contributes. */
  lemma FirstShardCollect(node: CollectNode, r0: Row)
    requires node.routing == ShardRouting({0, 1}) && ValidOrderBy(node)
    requires node.outputs != [] && node.limit != Some(0) && AnyShardReference(PlanSymbols(node))
    requires OPERATION.CollectContext(ShardContext(SHARD_0), node) == Success(Some(r0))
    requires OPERATION.CollectContext(ShardContext(SHARD_1), node) == Success(None)
    ensures OPERATION.Collect(node) == Success(OrderOffsetLimit([r0], OrderKeys(node), node.offset, node.limit))
  {
    ShardScope(node, Some(r0), None);
    assert RowsOf(Some(r0)) + RowsOf(None) == [r0];
  }

  /** The shard-id column among the outputs puts the call in shard scope. */
  lemma ShardIdOutput(node: CollectNode, j: nat)
    requires j < |node.outputs| && node.outputs[j] == SHARD_ID_REFERENCE
    ensures AnyShardReference(PlanSymbols(node))
  {
    var pre := if node.whereClause.Some? then [node.whereClause.value] else [];
    var ps := PlanSymbols(node);
    assert ps == pre + node.outputs;
    assert ps[|pre| + j] == SHARD_ID_REFERENCE;
    assert HasShardReference(SHARD_ID_REFERENCE);
  }

  /** Without order-by, OFFSET or LIMIT the gathered rows are the result. */
  lemma NoWindow(rows: Matrix, node: CollectNode)
    requires node.orderBy == [] && node.reverseFlags == [] && node.offset == 0 && node.limit.None?
    ensures ValidOrderBy(node) && OrderOffsetLimit(rows, OrderKeys(node), node.offset, node.limit) == rows
  {
    assert OrderKeys(node) == [];
    if rows != [] {
      assert rows[0..] == rows;
    }
  }

  lemma BindOne(s: Symbol, refs: Registry, b: BoundSymbol)
    requires Bind(s, refs, FUNCTIONS) == Success(b)
    ensures BindAll([s], refs, FUNCTIONS) == Success([b])
  {
    assert [s][0] == s && [s][1..] == [];
    assert BindAll([], refs, FUNCTIONS) == Success([]);
    assert [b] + [] == [b];
  }

  lemma EvalOne(b: BoundSymbol, v: Value)
    requires Eval(b) == Success(v)
    ensures EvalAll([b]) == Success([v])
  {
    assert [b][0] == b && [b][1..] == [];
    assert EvalAll([]) == Success([]);
    assert [v] + [] == [v];
  }

  lemma BindTwo(s0: Symbol, s1: Symbol, refs: Registry, b0: BoundSymbol, b1: BoundSymbol)
    requires Bind(s0, refs, FUNCTIONS) == Success(b0) && Bind(s1, refs, FUNCTIONS) == Success(b1)
    ensures BindAll([s0, s1], refs, FUNCTIONS) == Success([b0, b1])
  {
    assert [s0, s1][0] == s0 && [s0, s1][1..] == [s1];
    BindOne(s1, refs, b1);
    assert [b0] + [b1] == [b0, b1];
  }

  lemma EvalTwo(b0: BoundSymbol, b1: BoundSymbol, v0: Value, v1: Value)
    requires Eval(b0) == Success(v0) && Eval(b1) == Success(v1)
    ensures EvalAll([b0, b1]) == Success([v0, v1])
  {
    assert [b0, b1][0] == b0 && [b0, b1][1..] == [b1];
    EvalOne(b1, v1);
    assert [v0] + [v1] == [v0, v1];
  }

  /** The value of a binary call whose operands bind to `b0` and `b1` and evaluate to `v0` and `v1`. */
  lemma BinaryCall(info: FunctionInfo, s0: Symbol, s1: Symbol, refs: Registry,
                   b0: BoundSymbol, b1: BoundSymbol, v0: Value, v1: Value)
    requires info.ident in FUNCTIONS
    requires Bind(s0, refs, FUNCTIONS) == Success(b0) && Bind(s1, refs, FUNCTIONS) == Success(b1)
    requires Eval(b0) == Success(v0) && Eval(b1) == Success(v1)
    ensures Bind(Function(info, [s0, s1]), refs, FUNCTIONS).Success?
    ensures ValueOf(Function(info, [s0, s1]), refs, FUNCTIONS) == Evaluate(FUNCTIONS[info.ident], [v0, v1])
  {
    BindTwo(s0, s1, refs, b0, b1);
    EvalTwo(b0, b1, v0, v1);
  }

  /** The resolver of shard `id` of the test table: its shard-id expression, then the node expression. */
  function ShardRefs(id: Int32): Registry
  {
    ShardResolver(OPERATION.globalReferences, ShardRegistry(id))
  }

  lemma ShardResolverOf(id: Int32)
    requires id == 0 || id == 1
    ensures OPERATION.ResolverFor(ShardContext(ShardKey(TEST_TABLE_NAME, id))) == Success(ShardRefs(id))
    ensures Bind(SHARD_ID_REFERENCE, ShardRefs(id), FUNCTIONS) == Success(BoundInput(IntValue(id)))
    ensures Bind(NODE_REFERENCE, ShardRefs(id), FUNCTIONS) == Success(BoundInput(IntValue(42)))
  {
    assert TRUTH_IDENT != INFO_ID.ident;
  }

  const TWICE_TRUTH: Symbol := Function(TWO_TIMES_INFO, [NODE_REFERENCE])

  const NODE_REFS: Registry := OPERATION.globalReferences

  lemma NodeValues()
    ensures ValueOf(NODE_REFERENCE, NODE_REFS, FUNCTIONS) == Success(IntValue(42))
    ensures ValueOf(TWICE_TRUTH, NODE_REFS, FUNCTIONS) == Success(IntValue(84))
  {
    BindOne(NODE_REFERENCE, NODE_REFS, BoundInput(IntValue(42)));
    EvalOne(BoundInput(IntValue(42)), IntValue(42));
    assert Evaluate(TwoTimes, [IntValue(42)]) == Success(IntValue(84));
  }

  /** The node context contributes `row` when the filter holds and `row` projects the outputs. */
  lemma NodeRow(node: CollectNode, row: Row)
    requires FilterHolds(node, NODE_REFS, FUNCTIONS)
    requires ProjectsOutputs(row, node, NODE_REFS, FUNCTIONS)
    ensures OPERATION.CollectContext(NodeContext, node) == Success(Some(row))
  {
    assert OPERATION.ResolverFor(NodeContext) == Success(NODE_REFS);
    ContextRowFromValues(OPERATION, NodeContext, node, row);
  }

  /** The node context contributes nothing when the filter evaluates to `v`, which is not `true`. */
  lemma NodeRejects(node: CollectNode, v: Value)
    requires node.whereClause.Some? && ValueOf(node.whereClause.value, NODE_REFS, FUNCTIONS) == Success(v)
    requires v != BoolValue(true)
    requires forall j | 0 <= j < |node.outputs| :: Bind(node.outputs[j], NODE_REFS, FUNCTIONS).Success?
    ensures OPERATION.CollectContext(NodeContext, node) == Success(None)
  {
    assert OPERATION.ResolverFor(NodeContext) == Success(NODE_REFS);
    ContextRejects(OPERATION, NodeContext, node, v);
  }

  // testCollectExpressions
  lemma CollectExpressions()
    ensures OPERATION.Collect(Plan(TEST_ROUTING, None, [NODE_REFERENCE])) == Success([[IntValue(42)]])
  {
    var node := Plan(TEST_ROUTING, None, [NODE_REFERENCE]);
    NodeValues();
    NodeRow(node, [IntValue(42)]);
    assert PlanSymbols(node) == [NODE_REFERENCE];
    NodeCollectRow(node, [IntValue(42)]);
    NoWindow([[IntValue(42)]], node);
  }

  // testWrongRouting
  lemma WrongRouting()
    ensures var routing := Routing(map["bla" := map["my_index" := {1}]]);
      var result := OPERATION.Collect(CollectNode("wrong", routing, None, [], None, NO_OFFSET, [], []));
      result == Failure(UnsupportedRouting) && Message(result.error) == "unsupported routing"
  {
  }

  // testCollectNothing
  lemma CollectNothing()
    ensures OPERATION.Collect(Plan(TEST_ROUTING, None, [])) == Success([])
  {
  }

  const UNKNOWN_IDENT: ReferenceIdent := ReferenceIdent(TableIdent("", ""), "")

  /** Binding an unregistered reference fails the node context. */
  lemma UnknownReferenceContext(node: CollectNode)
    requires node.whereClause.None? && node.outputs == [Reference(ReferenceInfo(UNKNOWN_IDENT, Node, BooleanType))]
    ensures OPERATION.CollectContext(NodeContext, node) == Failure(UnknownReference(UNKNOWN_IDENT))
  {
    assert OPERATION.ResolverFor(NodeContext) == Success(NODE_REFS);
    assert UNKNOWN_IDENT !in NODE_REFS by {
      assert NODE_REFS.Keys == {TRUTH_IDENT};
    }
    assert Bind(node.outputs[0], NODE_REFS, FUNCTIONS) == Failure(UnknownReference(UNKNOWN_IDENT));
    assert BindAll(node.outputs, NODE_REFS, FUNCTIONS) == Failure(UnknownReference(UNKNOWN_IDENT));
  }

  // testCollectUnknownReference
  lemma CollectUnknownReference()
    ensures var result := OPERATION.Collect(Plan(TEST_ROUTING, None, [Reference(ReferenceInfo(UNKNOWN_IDENT, Node, BooleanType))]));
      result == Failure(UnknownReference(UNKNOWN_IDENT)) && Message(result.error) == "Unknown Reference"
  {
    var node := Plan(TEST_ROUTING, None, [Reference(ReferenceInfo(UNKNOWN_IDENT, Node, BooleanType))]);
    UnknownReferenceContext(node);
    assert PlanSymbols(node) == node.outputs;
    NodeScope(node, Failure(UnknownReference(UNKNOWN_IDENT)));
  }

  // testCollectFunction
  lemma CollectFunction()
    ensures OPERATION.Collect(Plan(TEST_ROUTING, None, [TWICE_TRUTH, NODE_REFERENCE])) == Success([[IntValue(84), IntValue(42)]])
  {
    var node := Plan(TEST_ROUTING, None, [TWICE_TRUTH, NODE_REFERENCE]);
    FunctionRow(node);
    assert PlanSymbols(node) == [TWICE_TRUTH, NODE_REFERENCE];
    assert !HasShardReference(TWICE_TRUTH) by {
      assert TWICE_TRUTH.arguments == [NODE_REFERENCE];
    }
    NodeCollectRow(node, [IntValue(84), IntValue(42)]);
    NoWindow([[IntValue(84), IntValue(42)]], node);
  }

  lemma FunctionRow(node: CollectNode)
    requires node == Plan(TEST_ROUTING, None, [TWICE_TRUTH, NODE_REFERENCE])
    ensures OPERATION.CollectContext(NodeContext, node) == Success(Some([IntValue(84), IntValue(42)]))
  {
    NodeValues();
    assert ProjectsOutputs([IntValue(84), IntValue(42)], node, NODE_REFS, FUNCTIONS);
    NodeRow(node, [IntValue(84), IntValue(42)]);
  }

  const UNKNOWN_FUNCTION: FunctionIdent := FunctionIdent("", [])

  // testUnknownFunction
  lemma UnknownFunctionFails()
    ensures var result := OPERATION.Collect(Plan(TEST_ROUTING, None, [Function(FunctionInfo(UNKNOWN_FUNCTION, BooleanType, false), [])]));
      result == Failure(UnknownFunction(UNKNOWN_FUNCTION)) && Message(result.error) == "Unknown Function"
  {
    var call := Function(FunctionInfo(UNKNOWN_FUNCTION, BooleanType, false), []);
    var node := Plan(TEST_ROUTING, None, [call]);
    assert PlanSymbols(node) == [call];
    assert [call][1..] == [];
    assert Bind(call, NODE_REFS, FUNCTIONS) == Failure(UnknownFunction(UNKNOWN_FUNCTION));
    NodeScope(node, Failure(UnknownFunction(UNKNOWN_FUNCTION)));
  }

  const LITERALS: seq<Symbol> := [Literal(StringValue("foobar")), Literal(BoolValue(true)), Literal(IntValue(1))]

  const LITERAL_ROW: Row := [StringValue("foobar"), BoolValue(true), IntValue(1)]

  /** A literal evaluates to itself. */
  lemma LiteralsProjection(node: CollectNode)
    requires node.outputs == LITERALS
    ensures ProjectsOutputs(LITERAL_ROW, node, NODE_REFS, FUNCTIONS)
  {
    forall j | 0 <= j < 3 ensures ValueOf(LITERALS[j], NODE_REFS, FUNCTIONS) == Success(LITERAL_ROW[j]) {
      assert LITERALS[j] == Literal(LITERAL_ROW[j]);
    }
  }

  // testCollectLiterals
  lemma CollectLiterals()
    ensures OPERATION.Collect(Plan(TEST_ROUTING, None, LITERALS)) ==
      Success([LITERAL_ROW])
  {
    var node := Plan(TEST_ROUTING, None, LITERALS);
    LiteralsProjection(node);
    NodeRow(node, LITERAL_ROW);
    assert PlanSymbols(node) == LITERALS;
    NodeCollectRow(node, LITERAL_ROW);
    NoWindow([LITERAL_ROW], node);
  }

  function AndOf(x: bool, y: bool): Symbol
  {
    Function(AND_INFO, [Literal(BoolValue(x)), Literal(BoolValue(y))])
  }

  lemma AndValue(x: bool, y: bool, refs: Registry)
    ensures ValueOf(AndOf(x, y), refs, FUNCTIONS) == Success(BoolValue(x && y))
  {
    BinaryCall(AND_INFO, Literal(BoolValue(x)), Literal(BoolValue(y)), refs,
      BoundLiteral(BoolValue(x)), BoundLiteral(BoolValue(y)), BoolValue(x), BoolValue(y));
  }

  lemma NoShardReferenceInAnd(x: bool, y: bool)
    ensures !HasShardReference(AndOf(x, y))
  {
    assert AndOf(x, y).arguments == [Literal(BoolValue(x)), Literal(BoolValue(y))];
  }

  // testCollectWithFalseWhereClause
  lemma CollectWithFalseWhereClause()
    ensures OPERATION.Collect(Plan(TEST_ROUTING, Some(AndOf(false, false)), [NODE_REFERENCE])) == Success([])
  {
    var node := Plan(TEST_ROUTING, Some(AndOf(false, false)), [NODE_REFERENCE]);
    AndValue(false, false, NODE_REFS);
    NodeValues();
    NodeRejects(node, BoolValue(false));
    NoShardReferenceInAnd(false, false);
    assert PlanSymbols(node) == [AndOf(false, false), NODE_REFERENCE];
    NodeCollectNone(node);
  }

  // testCollectWithTrueWhereClause
  lemma CollectWithTrueWhereClause()
    ensures OPERATION.Collect(Plan(TEST_ROUTING, Some(AndOf(true, true)), [NODE_REFERENCE])) == Success([[IntValue(42)]])
  {
    var node := Plan(TEST_ROUTING, Some(AndOf(true, true)), [NODE_REFERENCE]);
    AndValue(true, true, NODE_REFS);
    NodeValues();
    NodeRow(node, [IntValue(42)]);
    NoShardReferenceInAnd(true, true);
    assert PlanSymbols(node) == [AndOf(true, true), NODE_REFERENCE];
    NodeCollectRow(node, [IntValue(42)]);
    NoWindow([[IntValue(42)]], node);
  }

  const EQ_NULL_NULL: Symbol := Function(EqInfo(IntegerType), [Null, Null])

  // testCollectWithNullWhereClause
  lemma CollectWithNullWhereClause()
    ensures OPERATION.Collect(Plan(TEST_ROUTING, Some(EQ_NULL_NULL), [NODE_REFERENCE])) == Success([])
  {
    var node := Plan(TEST_ROUTING, Some(EQ_NULL_NULL), [NODE_REFERENCE]);
    BinaryCall(EqInfo(IntegerType), Null, Null, NODE_REFS, BoundNull, BoundNull, NullValue, NullValue);
    NodeValues();
    NodeRejects(node, NullValue);
    assert !HasShardReference(EQ_NULL_NULL) by {
      assert EQ_NULL_NULL.arguments == [Null, Null];
    }
    assert PlanSymbols(node) == [EQ_NULL_NULL, NODE_REFERENCE];
    NodeCollectNone(node);
  }

  /** The shard-id column of shard `id` is `id`; the node expression is 42 on every shard. */
  lemma ShardValues(id: Int32)
    requires id == 0 || id == 1
    ensures ValueOf(SHARD_ID_REFERENCE, ShardRefs(id), FUNCTIONS) == Success(IntValue(id))
    ensures ValueOf(NODE_REFERENCE, ShardRefs(id), FUNCTIONS) == Success(IntValue(42))
    ensures OPERATION.ResolverFor(ShardContext(ShardKey(TEST_TABLE_NAME, id))) == Success(ShardRefs(id))
  {
    ShardResolverOf(id);
  }

  /** Shard `id` contributes `row` when the filter holds and `row` projects the outputs there. */
  lemma ShardRow(node: CollectNode, id: Int32, row: Row)
    requires id == 0 || id == 1
    requires FilterHolds(node, ShardRefs(id), FUNCTIONS)
    requires ProjectsOutputs(row, node, ShardRefs(id), FUNCTIONS)
    ensures OPERATION.CollectContext(ShardContext(ShardKey(TEST_TABLE_NAME, id)), node) == Success(Some(row))
  {
    ShardValues(id);
    ContextRowFromValues(OPERATION, ShardContext(ShardKey(TEST_TABLE_NAME, id)), node, row);
  }

  /** Projecting only the shard-id column on shard `id` gives `[id]`. */
  lemma ShardIdProjection(node: CollectNode, id: Int32)
    requires id == 0 || id == 1
    requires node.outputs == [SHARD_ID_REFERENCE]
    ensures ProjectsOutputs([IntValue(id)], node, ShardRefs(id), FUNCTIONS)
  {
    ShardValues(id);
  }

  // testCollectShardExpressions
  lemma CollectShardExpressions()
    ensures OPERATION.Collect(Plan(ShardRouting({0, 1}), None, [SHARD_ID_REFERENCE])) ==
      Success([[IntValue(0)], [IntValue(1)]])
  {
    var node := Plan(ShardRouting({0, 1}), None, [SHARD_ID_REFERENCE]);
    ShardIdProjection(node, 0);
    ShardIdProjection(node, 1);
    ShardRow(node, 0, [IntValue(0)]);
    ShardRow(node, 1, [IntValue(1)]);
    ShardIdOutput(node, 0);
    TwoShardCollect(node, [IntValue(0)], [IntValue(1)]);
    NoWindow([[IntValue(0)], [IntValue(1)]], node);
  }

  const SHARD_ID_IS_0: Symbol := Function(EqInfo(IntegerType), [SHARD_ID_REFERENCE, Literal(IntValue(0))])

  /** `sys.shards.id = 0` holds on shard 0 only. */
  lemma ShardIdIs0(id: Int32)
    requires id == 0 || id == 1
    ensures ValueOf(SHARD_ID_IS_0, ShardRefs(id), FUNCTIONS) == Success(BoolValue(id == 0))
  {
    ShardResolverOf(id);
    BinaryCall(EqInfo(IntegerType), SHARD_ID_REFERENCE, Literal(IntValue(0)), ShardRefs(id),
      BoundInput(IntValue(id)), BoundLiteral(IntValue(0)), IntValue(id), IntValue(0));
  }

  /** Shard `id` contributes nothing when the filter evaluates to `v`, which is not `true`. */
  lemma ShardRejects(node: CollectNode, id: Int32, v: Value)
    requires id == 0 || id == 1
    requires node.whereClause.Some? && ValueOf(node.whereClause.value, ShardRefs(id), FUNCTIONS) == Success(v)
    requires v != BoolValue(true)
    requires node.outputs == [SHARD_ID_REFERENCE]
    ensures OPERATION.CollectContext(ShardContext(ShardKey(TEST_TABLE_NAME, id)), node) == Success(None)
  {
    ShardValues(id);
    ContextRejects(OPERATION, ShardContext(ShardKey(TEST_TABLE_NAME, id)), node, v);
  }

  // testCollectShardExpressionsWhereShardIdIs0
  lemma CollectShardExpressionsWhereShardIdIs0()
    ensures OPERATION.Collect(Plan(ShardRouting({0, 1}), Some(SHARD_ID_IS_0), [SHARD_ID_REFERENCE])) ==
      Success([[IntValue(0)]])
  {
    var node := Plan(ShardRouting({0, 1}), Some(SHARD_ID_IS_0), [SHARD_ID_REFERENCE]);
    ShardIdIs0(0);
    ShardIdIs0(1);
    ShardIdProjection(node, 0);
    ShardRow(node, 0, [IntValue(0)]);
    ShardRejects(node, 1, BoolValue(false));
    ShardIdOutput(node, 0);
    FirstShardCollect(node, [IntValue(0)]);
    NoWindow([[IntValue(0)]], node);
  }

  const LITERAL_TRUE: Symbol := Literal(BoolValue(true))
  const MIXED_OUTPUTS: seq<Symbol> := [SHARD_ID_REFERENCE, LITERAL_TRUE, NODE_REFERENCE]
  const PAIR_OUTPUTS: seq<Symbol> := [SHARD_ID_REFERENCE, NODE_REFERENCE]

  /** The row of shard `id` for the outputs shard id, `true`, node expression. */
  lemma MixedProjection(node: CollectNode, id: Int32)
    requires id == 0 || id == 1
    requires node.outputs == MIXED_OUTPUTS
    ensures ProjectsOutputs([IntValue(id), BoolValue(true), IntValue(42)], node, ShardRefs(id), FUNCTIONS)
  {
    ShardValues(id);
    assert ValueOf(LITERAL_TRUE, ShardRefs(id), FUNCTIONS) == Success(BoolValue(true));
  }

  // testCollectShardExpressionsLiteralsAndNodeExpressions
  lemma CollectShardExpressionsLiteralsAndNodeExpressions()
    ensures OPERATION.Collect(Plan(ShardRouting({0, 1}), None, MIXED_OUTPUTS)) ==
      Success([[IntValue(0), BoolValue(true), IntValue(42)], [IntValue(1), BoolValue(true), IntValue(42)]])
  {
    var node := Plan(ShardRouting({0, 1}), None, MIXED_OUTPUTS);
    var r0, r1 := [IntValue(0), BoolValue(true), IntValue(42)], [IntValue(1), BoolValue(true), IntValue(42)];
    MixedProjection(node, 0);
    MixedProjection(node, 1);
    ShardRow(node, 0, r0);
    ShardRow(node, 1, r1);
    ShardIdOutput(node, 0);
    TwoShardCollect(node, r0, r1);
    NoWindow([r0, r1], node);
  }

  /** The rows of the shard-id and node-expression columns on shards 0 and 1, in context order. */
  const PAIR_ROW_0: Row := [IntValue(0), IntValue(42)]
  const PAIR_ROW_1: Row := [IntValue(1), IntValue(42)]
  const PAIR_ROWS: Matrix := [PAIR_ROW_0, PAIR_ROW_1]

  lemma PairProjection(node: CollectNode, id: Int32)
    requires id == 0 || id == 1
    requires node.outputs == PAIR_OUTPUTS
    ensures ProjectsOutputs([IntValue(id), IntValue(42)], node, ShardRefs(id), FUNCTIONS)
  {
    ShardValues(id);
  }

  /** Any unfiltered shard collect of the pair outputs windows the two pair rows. */
  lemma PairRows(node: CollectNode)
    requires node.routing == ShardRouting({0, 1}) && node.whereClause.None? && node.outputs == PAIR_OUTPUTS
    requires ValidOrderBy(node) && node.limit != Some(0)
    ensures OPERATION.Collect(node) == Success(OrderOffsetLimit(PAIR_ROWS, OrderKeys(node), node.offset, node.limit))
  {
    PairProjection(node, 0);
    PairProjection(node, 1);
    ShardRow(node, 0, PAIR_ROW_0);
    ShardRow(node, 1, PAIR_ROW_1);
    ShardIdOutput(node, 0);
    TwoShardCollect(node, PAIR_ROW_0, PAIR_ROW_1);
  }

  // testCollectShardExpressionsLimit1
  lemma CollectShardExpressionsLimit1()
    ensures OPERATION.Collect(PlanWindow(ShardRouting({0, 1}), PAIR_OUTPUTS, Some(1), NO_OFFSET)) ==
      Success([PAIR_ROW_0])
  {
    var node := PlanWindow(ShardRouting({0, 1}), PAIR_OUTPUTS, Some(1), NO_OFFSET);
    PairRows(node);
    assert OrderKeys(node) == [];
    assert PAIR_ROWS[0..] == PAIR_ROWS;
    assert PAIR_ROWS[..1] == [PAIR_ROW_0];
  }

  // testCollectShardExpressionsNoLimitOffset2
  lemma CollectShardExpressionsNoLimitOffset2()
    ensures OPERATION.Collect(PlanWindow(ShardRouting({0, 1}), PAIR_OUTPUTS, None, 2)) == Success([])
  {
    var node := PlanWindow(ShardRouting({0, 1}), PAIR_OUTPUTS, None, 2);
    PairRows(node);
    assert OrderKeys(node) == [];
  }

  // testCollectShardExpressionsLimit0
  lemma CollectShardExpressionsLimit0()
    ensures OPERATION.Collect(PlanWindow(ShardRouting({0, 1}), PAIR_OUTPUTS, Some(0), NO_OFFSET)) == Success([])
  {
    EmptyPlanOrLimitZero(OPERATION, PlanWindow(ShardRouting({0, 1}), PAIR_OUTPUTS, Some(0), NO_OFFSET));
  }

  // testCollectNodeExpressionsLimit0
  lemma CollectNodeExpressionsLimit0()
    ensures OPERATION.Collect(PlanWindow(TEST_ROUTING, [NODE_REFERENCE], Some(0), NO_OFFSET)) == Success([])
  {
    EmptyPlanOrLimitZero(OPERATION, PlanWindow(TEST_ROUTING, [NODE_REFERENCE], Some(0), NO_OFFSET));
  }

  // testCollectNodeExpressionsOffset1
  lemma CollectNodeExpressionsOffset1()
    ensures OPERATION.Collect(PlanWindow(TEST_ROUTING, [NODE_REFERENCE], None, 1)) == Success([])
  {
    var node := PlanWindow(TEST_ROUTING, [NODE_REFERENCE], None, 1);
    NodeValues();
    NodeRow(node, [IntValue(42)]);
    assert PlanSymbols(node) == [NODE_REFERENCE];
    NodeCollectRow(node, [IntValue(42)]);
    assert OrderKeys(node) == [];
  }

  // testCollectShardExpressionsOrderByAsc
  lemma CollectShardExpressionsOrderByAsc()
    ensures OPERATION.Collect(PlanOrdered(ShardRouting({0, 1}), PAIR_OUTPUTS, [0], [false])) == Success(PAIR_ROWS)
  {
    var node := PlanOrdered(ShardRouting({0, 1}), PAIR_OUTPUTS, [0], [false]);
    PairRows(node);
    assert OrderKeys(node) == [OrderKey(0, false)];
    AscendingPairRows();
  }

  /** Ascending on the shard-id column keeps shard 0 first. */
  lemma AscendingPairRows()
    ensures OrderOffsetLimit(PAIR_ROWS, [OrderKey(0, false)], NO_OFFSET, None) == PAIR_ROWS
  {
    var keys := [OrderKey(0, false)];
    assert RowLeq(PAIR_ROW_0, PAIR_ROW_1, keys);
    SortRowsKeepsSorted(PAIR_ROWS, keys);
    assert PAIR_ROWS[0..] == PAIR_ROWS;
  }

  // testCollectShardExpressionsOrderByDesc
  lemma CollectShardExpressionsOrderByDesc()
    ensures OPERATION.Collect(PlanOrdered(ShardRouting({0, 1}), PAIR_OUTPUTS, [0], [true])) ==
      Success([PAIR_ROW_1, PAIR_ROW_0])
  {
    var node := PlanOrdered(ShardRouting({0, 1}), PAIR_OUTPUTS, [0], [true]);
    PairRows(node);
    assert OrderKeys(node) == [OrderKey(0, true)];
    DescendingPairRows();
  }

  /** Descending on the shard-id column puts shard 1 first. */
  lemma DescendingPairRows()
    ensures OrderOffsetLimit(PAIR_ROWS, [OrderKey(0, true)], NO_OFFSET, None) == [PAIR_ROW_1, PAIR_ROW_0]
  {
    var keys := [OrderKey(0, true)];
    assert PAIR_ROWS[0] == PAIR_ROW_0 && PAIR_ROWS[1..] == [PAIR_ROW_1];
    assert SortRows([PAIR_ROW_1], keys) == [PAIR_ROW_1];
    assert !RowLeq(PAIR_ROW_0, PAIR_ROW_1, keys);
    assert InsertRow(PAIR_ROW_0, [PAIR_ROW_1], keys) == [PAIR_ROW_1] + InsertRow(PAIR_ROW_0, [], keys);
    assert SortRows(PAIR_ROWS, keys) == [PAIR_ROW_1, PAIR_ROW_0];
    var sorted := [PAIR_ROW_1, PAIR_ROW_0];
    assert sorted[0..] == sorted;
  }
}
