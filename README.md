# Local data collect, modelled in Dafny

This project models CrateDB's **local collect operation**: one node evaluating a
collect plan and returning a row matrix. A plan (`CollectNode`) holds:

- a routing: node id → table name → set of shard numbers;
- an optional filter (the WHERE clause);
- the output symbols, in declared order;
- LIMIT, OFFSET, and the ORDER BY positions with their descending flags.

A symbol is one of:

- a reference, at NODE or SHARD granularity;
- a function call;
- a literal;
- NULL.

`CollectOperation.Collect` works as follows:

1. It fails with "unsupported routing" when the routing has no entry for the local node.
2. It fails with "invalid order by" when an order-by position lies outside the outputs or the descending flags do not match the positions.
3. It returns the empty matrix when there are no outputs or LIMIT is 0.
4. Otherwise it chooses the evaluation contexts:
   - the node alone when no symbol is shard-level;
   - otherwise one context per routed (table, shard) pair, in ascending order.
5. In each context it binds every identifier and evaluates the filter and the outputs. The resolver of a shard context is the process-wide reference registry merged with that shard's registry; the shard entry wins.
6. An unknown reference or function makes the whole call fail ("Unknown Reference", "Unknown Function").
7. The filter uses SQL three-valued logic, and only `true` admits a row.
8. The gathered rows go through ORDER BY (stable; NULL sorts lowest; a descending key reverses the whole comparison), then OFFSET, then LIMIT.

The gather step exists twice:

- `CollectOperation.GatherRows`, a fold;
- `CollectOperation.Gather`, a loop proved equal to it.

`ShardIdExpression` (`sys.shards.id`) is modelled as an immutable value built for one shard. Its value is that shard's number.

The module `CollectorTest` rebuilds the fixture of `LocalDataCollectorTest`:

- node `test_node`;
- the node-level expression `default.collect.truth` = 42;
- `twoTimes`, AND and `=`;
- shards 0 and 1 of `test_table`, each with its shard-id expression.

It proves the outcome of every test scenario as a lemma, from the general lemmas in `CollectProperties`.

Several behaviours come from classes whose Java code is not available, so the model reconstructs them from the collector test and each is a documented choice:

- Routing `{test_node: {}}`: node-level plans get one node context whatever tables the local entry lists (`LocalDataCollectorTest.java:237-248`); shard-level plans get one context per routed shard, so none here.
- `AndOperator` and `EqOperator`: AND is Kleene three-valued. `=` is NULL when either operand is NULL. A call with an arity other than 2 fails with an evaluation error.
- `SystemReferences.registerShardReference`: `INFO_ID` is taken to be the column `sys.shards.id`, of type INTEGER at SHARD granularity, matching the test's own copy at `LocalDataCollectorTest.java:119-120`.
- Java `int`: the model uses the subset type `Int32`, and `twoTimes` wraps modulo 2^32 as Java's `*` does.

## Model

| member | source | states |
|---|---|---|
| Values.WrapInt32 | sql/src/test/java/io/crate/operator/collector/LocalDataCollectorTest.java:103-104 | the Java `int` result of an operation is congruent to the exact result modulo 2^32 and equals it when in range |
| Values.CompareValuesZero | sql/src/test/java/io/crate/operator/collector/LocalDataCollectorTest.java:471-489 | two cell values compare equal exactly when they are the same value |
| Values.CompareValuesAntisymmetric | sql/src/test/java/io/crate/operator/collector/LocalDataCollectorTest.java:471-489 | swapping the operands negates the comparison of cell values |
| Values.CompareValuesTransitive | sql/src/test/java/io/crate/operator/collector/LocalDataCollectorTest.java:471-489 | the order on cell values used by ORDER BY is transitive |
| ShardIdExpressions.ShardIdExpression.Value | sql/src/main/java/io/crate/operator/reference/sys/shard/ShardIdExpression.java:47-50 | `value()`: the shard number of the expression; ValueIsConstructedShard states it for every shard |
| ShardIdExpressions.ShardIdExpression.Info | sql/src/main/java/io/crate/operator/reference/sys/shard/ShardIdExpression.java:33-55 | `info()`, the constant `INFO_ID`, describes the INTEGER column `sys.shards.id` at shard granularity |
| ShardIdExpressions.ValueIsConstructedShard | sql/src/main/java/io/crate/operator/reference/sys/shard/ShardIdExpression.java:42-50 | `value()` is the number of the shard the expression was constructed with |
| ShardIdExpressions.ValueDeterminedByShard | sql/src/main/java/io/crate/operator/reference/sys/shard/ShardIdExpression.java:40-45 | two expressions built for the same shard report the same value; immutability itself comes from the datatype |
| ShardIdExpressions.InfoIndependentOfShard | sql/src/main/java/io/crate/operator/reference/sys/shard/ShardIdExpression.java:52-55 | `info()` is `INFO_ID` whatever the shard |
| References.ShardResolver | sql/src/test/java/io/crate/operator/collector/LocalDataCollectorTest.java:184-190 | a shard context resolves every global and every shard identifier; a shard entry shadows a global one and global entries stay reachable |
| Functions.Evaluate | sql/src/test/java/io/crate/operator/collector/LocalDataCollectorTest.java:100-105 | a function result has the function's return type (INTEGER for `twoTimes`, BOOLEAN or NULL for AND and `=`); a failure is an evaluation error; TwoTimesDoubles, AndThreeValued and EqThreeValued give the values |
| Functions.TwoTimesDoubles | sql/src/test/java/io/crate/operator/collector/LocalDataCollectorTest.java:100-105 | `twoTimes()` is 0; `twoTimes(x)` is `2*x` with 32-bit wrap-around (exactly `2*x` when it fits); a non-integer first argument fails |
| Functions.AndThreeValued | sql/src/test/java/io/crate/operator/collector/LocalDataCollectorTest.java:347-373 | AND is true iff both operands are true, false iff either is false, NULL otherwise |
| Functions.EqThreeValued | sql/src/test/java/io/crate/operator/collector/LocalDataCollectorTest.java:375-387 | `=` is true iff the operands are equal and non-NULL, false iff they are unequal and non-NULL, and NULL iff either operand is NULL |
| Evaluation.Bind | sql/src/test/java/io/crate/operator/collector/LocalDataCollectorTest.java:272-327 | binding a symbol in a context fails only with "Unknown Reference" or "Unknown Function"; BindSucceedsIff says exactly when |
| Evaluation.BindAll | sql/src/test/java/io/crate/operator/collector/LocalDataCollectorTest.java:293-307 | binding the outputs keeps their number and declared order, each output bound on its own; a failure is an unknown reference or function |
| Evaluation.Eval | sql/src/test/java/io/crate/operator/collector/LocalDataCollectorTest.java:100-105 | evaluating a bound symbol fails only with an evaluation error raised inside a function |
| Evaluation.EvalAll | sql/src/test/java/io/crate/operator/collector/LocalDataCollectorTest.java:329-345 | evaluation succeeds iff every element does, and yields the values in declared order; a failure is an evaluation error |
| Evaluation.BindSucceedsIff | sql/src/test/java/io/crate/operator/collector/LocalDataCollectorTest.java:272-327 | binding a symbol succeeds iff every reference and function it reaches is registered; a failure names an identifier it reaches that is missing |
| Evaluation.BindAllSucceedsIff | sql/src/test/java/io/crate/operator/collector/LocalDataCollectorTest.java:272-327 | the same for a list of outputs, the failure coming from one of them |
| Evaluation.BindAgree | sql/src/test/java/io/crate/operator/collector/LocalDataCollectorTest.java:415-426 | two registries that agree on the identifiers a symbol reaches bind it identically |
| Evaluation.BindAllAgree | sql/src/test/java/io/crate/operator/collector/LocalDataCollectorTest.java:415-426 | the same for a list of symbols |
| Routing.CompareKeysAntisymmetric | sql/src/test/java/io/crate/operator/collector/LocalDataCollectorTest.java:419-425 | the order on (table, shard) keys is antisymmetric and distinguishes distinct keys |
| Routing.CompareKeysTransitive | sql/src/test/java/io/crate/operator/collector/LocalDataCollectorTest.java:419-425 | the order on (table, shard) keys is transitive |
| Routing.Least | sql/src/test/java/io/crate/operator/collector/LocalDataCollectorTest.java:229-235 | a non-empty set of routed keys has a least key |
| Routing.SortedKeys | sql/src/test/java/io/crate/operator/collector/LocalDataCollectorTest.java:229-235 | enumerates each key of the set once, and nothing else, in strictly ascending order |
| Routing.SortedKeysOfTwo | sql/src/test/java/io/crate/operator/collector/LocalDataCollectorTest.java:419-425 | two keys are enumerated lower key first |
| Routing.ShardKeysOf | sql/src/test/java/io/crate/operator/collector/LocalDataCollectorTest.java:229-235 | the shard keys of a node's routing entry: each routed (table, shard) pair once, in strictly ascending key order |
| Routing.ShardKeysOfTwoShards | sql/src/test/java/io/crate/operator/collector/LocalDataCollectorTest.java:229-235 | two shards of one table are enumerated lower shard number first |
| Routing.ShardKeysOfExact | sql/src/test/java/io/crate/operator/collector/LocalDataCollectorTest.java:229-235 | a key is enumerated iff its table is routed with that shard, once per routed pair, without repeats |
| Pipeline.CompareRowsAntisymmetric | sql/src/test/java/io/crate/operator/collector/LocalDataCollectorTest.java:471-489 | swapping two rows negates their comparison on the order-by keys |
| Pipeline.CompareRowsTransitive | sql/src/test/java/io/crate/operator/collector/LocalDataCollectorTest.java:471-489 | the row order on the order-by keys is transitive |
| Pipeline.RowLeqTotal | sql/src/test/java/io/crate/operator/collector/LocalDataCollectorTest.java:471-489 | any two rows are ordered one way or the other |
| Pipeline.InsertRow | sql/src/test/java/io/crate/operator/collector/LocalDataCollectorTest.java:471-489 | inserting a row adds exactly that row |
| Pipeline.InsertRowSorted | sql/src/test/java/io/crate/operator/collector/LocalDataCollectorTest.java:471-489 | inserting into sorted rows keeps them sorted |
| Pipeline.SortRows | sql/src/test/java/io/crate/operator/collector/LocalDataCollectorTest.java:471-489 | ORDER BY returns a permutation of the gathered rows: same multiset, same count |
| Pipeline.SortRowsSorted | sql/src/test/java/io/crate/operator/collector/LocalDataCollectorTest.java:471-489 | ORDER BY puts the rows in key order |
| Pipeline.InsertRowStable | sql/src/test/java/io/crate/operator/collector/LocalDataCollectorTest.java:471-489 | inserting a row puts it ahead of the rows that compare equal to it and keeps their order |
| Pipeline.SortRowsStable | sql/src/test/java/io/crate/operator/collector/LocalDataCollectorTest.java:471-489 | ORDER BY is stable: the rows that compare equal on the keys keep their gathered order |
| Pipeline.SortRowsKeepsSorted | sql/src/test/java/io/crate/operator/collector/LocalDataCollectorTest.java:471-479 | rows already in key order are left where they are |
| Pipeline.OrderOffsetLimit | sql/src/test/java/io/crate/operator/collector/LocalDataCollectorTest.java:428-469 | the rows left after ORDER BY, OFFSET and LIMIT are gathered rows, no more than were gathered and no more than LIMIT |
| Pipeline.OrderOffsetLimitWindow | sql/src/test/java/io/crate/operator/collector/LocalDataCollectorTest.java:428-469 | the result is the run of the ordered rows starting at OFFSET, at most LIMIT long |
| Pipeline.OrderOffsetLimitLength | sql/src/test/java/io/crate/operator/collector/LocalDataCollectorTest.java:428-469 | the result has min(LIMIT, rows left after OFFSET) rows |
| Pipeline.WindowLength | sql/src/test/java/io/crate/operator/collector/LocalDataCollectorTest.java:438-469 | the same count, and an OFFSET at or past the row count gives no rows |
| Pipeline.OrderOffsetLimitSorted | sql/src/test/java/io/crate/operator/collector/LocalDataCollectorTest.java:471-489 | with order-by keys the returned rows are in key order |
| LocalDataCollect.CollectOperation.CollectContext | sql/src/test/java/io/crate/operator/collector/LocalDataCollectorTest.java:347-426 | a context fails only with an unknown identifier, a missing shard or an evaluation error, and a row it contributes has one cell per output; ContextRow and ContextRowFromValues say which row |
| LocalDataCollect.CollectOperation.Contexts | sql/src/test/java/io/crate/operator/collector/LocalDataCollectorTest.java:389-426 | the node alone without shard-level symbols; otherwise one shard context per routed (table, shard) pair, each once, in strictly ascending key order |
| LocalDataCollect.CollectOperation.GatherRows | sql/src/test/java/io/crate/operator/collector/LocalDataCollectorTest.java:389-426 | a gather fails only with a context's error, and holds at most one row per context, each with one cell per output; GatherRowsExact and GatherRowsMultiplicity say which rows and how many times |
| LocalDataCollect.CollectOperation.Gather | sql/src/test/java/io/crate/operator/collector/LocalDataCollectorTest.java:389-398 | the loop that appends each context's row returns what the fold `GatherRows` specifies, failing on the first failing context |
| LocalDataCollect.CollectOperation.Collect | sql/src/test/java/io/crate/operator/collector/LocalDataCollectorTest.java:237-489 | fails with "unsupported routing" iff the routing lacks the local node, otherwise only with "invalid order by" or a context's error; every row has one cell per output; never more rows than LIMIT |
| LocalDataCollect.CollectOperation.GatherAppend | sql/src/test/java/io/crate/operator/collector/LocalDataCollectorTest.java:389-398 | gathering two runs of contexts is gathering each and concatenating, the first failure winning |
| CollectProperties.ContextRow | sql/src/test/java/io/crate/operator/collector/LocalDataCollectorTest.java:347-387 | a context contributes a row iff its filter evaluates to `true`, and the row is the declared-order projection of the outputs |
| CollectProperties.GatherRowsExact | sql/src/test/java/io/crate/operator/collector/LocalDataCollectorTest.java:389-426 | a successful gather holds exactly the rows the contexts contribute |
| CollectProperties.GatherRowsMultiplicity | sql/src/test/java/io/crate/operator/collector/LocalDataCollectorTest.java:389-426 | a successful gather holds each row as many times as contexts yield it, so its length is the number of contexts that admit a row |
| CollectProperties.GatherRowsCount | sql/src/test/java/io/crate/operator/collector/LocalDataCollectorTest.java:389-426 | a gather holds at most one row per context, and one per context without a filter |
| CollectProperties.EmptyPlanOrLimitZero | sql/src/test/java/io/crate/operator/collector/LocalDataCollectorTest.java:265-270 | no outputs, or LIMIT 0, gives the empty matrix without evaluating anything |
| CollectProperties.CollectWindow | sql/src/test/java/io/crate/operator/collector/LocalDataCollectorTest.java:428-469 | the call returns min(LIMIT, rows left after OFFSET) rows, and none once OFFSET reaches the row count |
| CollectProperties.CollectSorted | sql/src/test/java/io/crate/operator/collector/LocalDataCollectorTest.java:471-489 | with an order-by the returned rows are in order of the listed columns and directions |
| CollectProperties.RowFromAdmittedContext | sql/src/test/java/io/crate/operator/collector/LocalDataCollectorTest.java:347-426 | every returned row is the projection of the outputs in a context whose filter is `true` |
| CollectProperties.CollectMultiplicity | sql/src/test/java/io/crate/operator/collector/LocalDataCollectorTest.java:400-410 | without OFFSET and LIMIT the call returns each row as many times as contexts yield it, one row per context whose filter is `true` |
| CollectProperties.AdmittedContextIncluded | sql/src/test/java/io/crate/operator/collector/LocalDataCollectorTest.java:347-426 | without OFFSET and LIMIT, every context whose filter is `true` contributes its row |
| CollectProperties.NodeScopeAtMostOneRow | sql/src/test/java/io/crate/operator/collector/LocalDataCollectorTest.java:237-248 | without shard-level symbols the call returns at most one row |
| CollectProperties.NodeScopeOneRow | sql/src/test/java/io/crate/operator/collector/LocalDataCollectorTest.java:237-248 | ... and exactly one with outputs and no filter, OFFSET or LIMIT 0 |
| CollectProperties.ShardScopeRowPerShard | sql/src/test/java/io/crate/operator/collector/LocalDataCollectorTest.java:389-398 | with a shard-level symbol and no filter, OFFSET or LIMIT, one row per routed (table, shard) pair |
| CollectProperties.NodeColumnReplicated | sql/src/test/java/io/crate/operator/collector/LocalDataCollectorTest.java:412-426 | an output that reaches only node-level implementations has its node value on every row |
| CollectProperties.ProjectedValueIsGlobal | sql/src/test/java/io/crate/operator/collector/LocalDataCollectorTest.java:412-426 | in any context, such an output projects its node value |
| CollectProperties.ResolverAgreesWithGlobal | sql/src/test/java/io/crate/operator/collector/LocalDataCollectorTest.java:184-213 | a context's resolver agrees with the global registry on identifiers no shard registers |
| CollectProperties.NodeScopeIsNodeContext | sql/src/test/java/io/crate/operator/collector/LocalDataCollectorTest.java:272-291 | without shard-level symbols the call fails iff the node context fails, with its error |
| CollectProperties.AllRegisteredSplit | sql/src/test/java/io/crate/operator/collector/LocalDataCollectorTest.java:272-327 | all plan identifiers are registered iff those of the filter and of every output are |
| CollectProperties.BindPlanErrorIff | sql/src/test/java/io/crate/operator/collector/LocalDataCollectorTest.java:272-327 | binding a plan fails iff some identifier is unregistered, and reports one that is |
| CollectProperties.ContextFailureCause | sql/src/test/java/io/crate/operator/collector/LocalDataCollectorTest.java:272-327 | a context fails on the plan's binding failure, or else only with an evaluation error |
| CollectProperties.ContextUnknownIdentifier | sql/src/test/java/io/crate/operator/collector/LocalDataCollectorTest.java:272-327 | a context fails with an unknown identifier iff the plan reaches an unregistered one |
| CollectProperties.ShardScopeUnknownIdentifierFails | sql/src/test/java/io/crate/operator/collector/LocalDataCollectorTest.java:272-327 | in shard scope, with at least one routed shard, every routed shard open and an identifier unknown in every shard, the call fails with "Unknown Reference" or "Unknown Function", naming an identifier missing from a routed shard's resolver |
| CollectProperties.UnknownIdentifierFails | sql/src/test/java/io/crate/operator/collector/LocalDataCollectorTest.java:272-327 | in node scope the call fails with "Unknown Reference" or "Unknown Function" iff an identifier it reaches is unregistered |
| CollectProperties.ContextRowFromValues | sql/src/test/java/io/crate/operator/collector/LocalDataCollectorTest.java:347-373 | a context whose filter holds and whose outputs have these values contributes exactly that row |
| CollectProperties.ContextRejects | sql/src/test/java/io/crate/operator/collector/LocalDataCollectorTest.java:347-387 | a context whose filter is not `true` contributes nothing |
| CollectorTest.CollectExpressions | sql/src/test/java/io/crate/operator/collector/LocalDataCollectorTest.java:237-248 | routing `{test_node: {}}` with output truth gives `[[42]]` |
| CollectorTest.WrongRouting | sql/src/test/java/io/crate/operator/collector/LocalDataCollectorTest.java:250-263 | routing without the local node fails with "unsupported routing" |
| CollectorTest.CollectNothing | sql/src/test/java/io/crate/operator/collector/LocalDataCollectorTest.java:265-270 | a plan without outputs gives the empty matrix |
| CollectorTest.CollectUnknownReference | sql/src/test/java/io/crate/operator/collector/LocalDataCollectorTest.java:272-291 | an unregistered reference fails with "Unknown Reference" |
| CollectorTest.CollectFunction | sql/src/test/java/io/crate/operator/collector/LocalDataCollectorTest.java:293-307 | `twoTimes(truth), truth` gives `[[84, 42]]` |
| CollectorTest.UnknownFunctionFails | sql/src/test/java/io/crate/operator/collector/LocalDataCollectorTest.java:310-327 | an unregistered function fails with "Unknown Function" |
| CollectorTest.CollectLiterals | sql/src/test/java/io/crate/operator/collector/LocalDataCollectorTest.java:329-345 | literals give their own values, in declared order |
| CollectorTest.CollectWithFalseWhereClause | sql/src/test/java/io/crate/operator/collector/LocalDataCollectorTest.java:347-358 | filter `false AND false` gives no rows |
| CollectorTest.CollectWithTrueWhereClause | sql/src/test/java/io/crate/operator/collector/LocalDataCollectorTest.java:360-373 | filter `true AND true` gives `[[42]]` |
| CollectorTest.CollectWithNullWhereClause | sql/src/test/java/io/crate/operator/collector/LocalDataCollectorTest.java:375-387 | filter `NULL = NULL` gives no rows |
| CollectorTest.CollectShardExpressions | sql/src/test/java/io/crate/operator/collector/LocalDataCollectorTest.java:389-398 | shard id over shards {0, 1} gives `[[0], [1]]` |
| CollectorTest.CollectShardExpressionsWhereShardIdIs0 | sql/src/test/java/io/crate/operator/collector/LocalDataCollectorTest.java:400-410 | filter `sys.shards.id = 0` keeps only `[[0]]` |
| CollectorTest.CollectShardExpressionsLiteralsAndNodeExpressions | sql/src/test/java/io/crate/operator/collector/LocalDataCollectorTest.java:412-426 | shard id, `true`, truth give `[[0, true, 42], [1, true, 42]]` |
| CollectorTest.CollectShardExpressionsLimit1 | sql/src/test/java/io/crate/operator/collector/LocalDataCollectorTest.java:428-437 | LIMIT 1 over the two shard rows gives `[[0, 42]]` |
| CollectorTest.CollectShardExpressionsNoLimitOffset2 | sql/src/test/java/io/crate/operator/collector/LocalDataCollectorTest.java:439-445 | OFFSET 2 over the two shard rows gives no rows |
| CollectorTest.CollectShardExpressionsLimit0 | sql/src/test/java/io/crate/operator/collector/LocalDataCollectorTest.java:447-453 | LIMIT 0 in shard scope gives no rows |
| CollectorTest.CollectNodeExpressionsLimit0 | sql/src/test/java/io/crate/operator/collector/LocalDataCollectorTest.java:455-461 | LIMIT 0 in node scope gives no rows |
| CollectorTest.CollectNodeExpressionsOffset1 | sql/src/test/java/io/crate/operator/collector/LocalDataCollectorTest.java:463-469 | OFFSET 1 over the single node row gives no rows |
| CollectorTest.CollectShardExpressionsOrderByAsc | sql/src/test/java/io/crate/operator/collector/LocalDataCollectorTest.java:471-479 | ascending on column 0 gives `[[0, 42], [1, 42]]` |
| CollectorTest.CollectShardExpressionsOrderByDesc | sql/src/test/java/io/crate/operator/collector/LocalDataCollectorTest.java:481-489 | descending on column 0 gives `[[1, 42], [0, 42]]` |

## Left out

- Thread pool, futures and `.get()`: the call is modelled synchronously, over the contexts in a fixed order. A failure that the source raises before the future is returned is not told apart from one in the awaited result: both are `Failure`.
- Dependency injection, Guice modules and Mockito mocks: the registries, the function registry and the local node id are explicit fields of `CollectOperation`.
- `normalizeSymbol`: it is the identity in the test function, so it is not modelled.
- `getChildImplementation` (nested column implementations): it returns `null` in both test classes (the production `ShardIdExpression` inherits it from `SysShardExpression`, which is not part of this model), so sub-columns are not modelled.
- Shard closing during evaluation and retryable errors: no shown code exhibits them. A routed shard without an open registry fails with `ShardNotAvailable`.
- Arguments of a function call are evaluated before the call, not lazily through `Input.value()`. A failure in an argument that the function never reads therefore fails the model's call: `twoTimes(truth, twoTimes(true))` is a failure in the model, while `TestFunction.evaluate` reads only its first argument and would return 84.
- `LocalDataCollectOperation`, `AndOperator`, `EqOperator`, `SystemReferences`, `Routing` and `CollectNode`: their Java code is not available, so the model reconstructs their behaviour from the collector test (as `CollectOperation`, the AND and `=` cases of `Evaluate`, `ShardResolver`, `Routing`/`ShardKeysOf` and the `CollectNode` datatype); choices the test leaves open are listed above.
- Unknown identifiers are reported only when a context is evaluated. LIMIT 0, a plan without outputs, and a shard-level plan whose local entry routes no shard return no rows without binding anything, even if the plan names an unknown reference or function.
- CollectorTest.CollectLiterals: omits the fourth output `DoubleLiteral(4.2)`, because floating point is not modelled; the other three literals and their order are proved.
- CollectorTest.CollectShardExpressions: without an ORDER BY the source leaves the shard row order open (the test accepts either id in either row); the model fixes ascending (table, shard) order, so its exact result is one of the orders the source allows.
