# Distributed read coordinator of `StorageDistributed`

A Dafny model of how a distributed table answers a read. `StorageDistributed::read`
turns one logical SELECT into one lazily evaluated stream per participant — a remote
stream for each shard's connection pool, in cluster order, then an interpreter stream
for each executor inside this process. It also reports the processing stage the
caller must expect. `rewriteQuery` points a copy of the query at the physical remote
database and table. `selectToString` formats the rewritten tree for shipping to shards.

The model is functional. Queries, settings, clusters, contexts and stream descriptors
are immutable datatypes, so "the caller's query and settings are not modified" holds
by construction. The collaborators the read calls but does not contain are the fields
of a `Collaborators` record of total functions. Apart from what "total function"
implies (see "## Left out"), nothing is assumed about what they compute:

- `Cluster::saturate`, which is not part of this model and is not assumed to be `min`;
- `formatAST`, as `format: SelectQuery -> string`;
- `InterpreterSelectQuery::execute`, as `execute: (Query, Context, Stage) -> StreamHandle`.

Modules, one per file:

- `Results` (results.dfy): `Option`, `Result`, and the `BadCast` error that a failing
  `dynamic_cast` raises.
- `QueryAst` (query_ast.dfy): the statement root, SELECT with database/table
  identifiers, `RewriteQuery`, `SelectToString`.
- `QuerySettings` (query_settings.dfy): the settings fields the read touches, and
  `DeriveSettings`.
- `ProcessingStage` (processing_stage.dfy): `QueryProcessingStage::Enum` and the stage
  choice.
- `ClusterModel` (cluster_model.dfy): pools and the local-node count.
- `ExecutionContext` (execution_context.dfy): contexts and the external-table registry
  merge.
- `StorageDistributed` (storage_distributed.dfy): stream descriptors, the declarative
  `ReadSpec`, and the loop-based `Read` proved equal to it.
- `ReadProperties` (read_properties.dfy): the properties of a read, stated over `ReadSpec`.

`ReadResult` holds what a caller observes after `read`:

- the returned streams, or the exception;
- the `processed_stage` out-parameter;
- the table's registry afterwards.

Three details of the code are easy to misread, and the model follows the code in each:

- `processed_stage` is assigned (line 101) before the query is rewritten (line 106).
  A non-SELECT root therefore still reports a stage.
- `external_tables.clear()` (line 137) is not reached when the rewrite throws. On that
  path the registry keeps its contents; it is cleared only by a read that dispatches.
- The code builds one derived context (line 124) and hands it to every local
  interpreter, rather than one context per interpreter. Either way every local stream
  sees an equal context value.

## Model

| member | source | states |
|---|---|---|
| `QueryAst.RewriteQuery` | dbms/src/Storages/StorageDistributed.cpp:65-76 | succeeds exactly for a SELECT root; the result reads `remote_database` tagged Database and `remote_table` tagged Table, with the rest of the statement unchanged; any other root fails with a bad cast |
| `QueryAst.SelectToString` | dbms/src/Storages/StorageDistributed.cpp:78-84 | succeeds exactly for a SELECT root, giving the formatter's text of that SELECT; any other root is a bad cast |
| `QueryAst.RewriteIsIdempotent` | dbms/src/Storages/StorageDistributed.cpp:70-73 | rewriting an already rewritten query gives the same query |
| `QueryAst.RewriteDependsOnlyOnBody` | dbms/src/Storages/StorageDistributed.cpp:67-73 | two SELECTs rewrite to the same query if and only if they agree outside their database and table children |
| `QueryAst.FormatAfterRewriteSucceeds` | dbms/src/Storages/StorageDistributed.cpp:106-111 | formatting the output of a successful rewrite never fails, so the per-shard cast in `selectToString` cannot throw |
| `QuerySettings.DeriveSettings` | dbms/src/Storages/StorageDistributed.cpp:94-97 | the derived settings have rewriting suppressed and the queue wait equal to `saturate(queue_max_wait_ms, limits.max_execution_time)`; every other field equals the caller's |
| `QuerySettings.NestedDerivationKeepsSuppression` | dbms/src/Storages/StorageDistributed.cpp:94-97 | deriving again, as a nested distributed table would, keeps rewriting suppressed and keeps the outer caller's limits |
| `ProcessingStage.StageFor` | dbms/src/Storages/StorageDistributed.cpp:99-103 | `Complete` if and only if there is exactly one participant, `WithMergeableState` otherwise, zero included |
| `ExecutionContext.AddMissing` | dbms/src/Storages/StorageDistributed.cpp:126-128 | the merged tables are named by the union of both name sets; an existing entry is never overwritten; a new name gets the registry's data |
| `ExecutionContext.AddExternalTables` | dbms/src/Storages/StorageDistributed.cpp:124-128 | the loop that adds each registry entry the context lacks yields exactly `AddMissing` of the context's tables, and keeps the context's settings and other parts |
| `ExecutionContext.AddNothingIsIdentity` | dbms/src/Storages/StorageDistributed.cpp:126-128 | merging an empty registry leaves a context's tables as they were |
| `StorageDistributed.RemoteStreams` | dbms/src/Storages/StorageDistributed.cpp:108-119 | one remote stream per pool, the i-th bound to the i-th pool, each with the same text, settings, registry snapshot and stage |
| `StorageDistributed.LocalStreams` | dbms/src/Storages/StorageDistributed.cpp:130-134 | exactly n local streams, each built by the interpreter over the same query, context and stage |
| `StorageDistributed.Read` | dbms/src/Storages/StorageDistributed.cpp:86-139 | the read as written — settings derivation, stage choice, one rewrite, the shard loop formatting per shard, the local loop over one derived context, registry clearing — computes exactly the declarative `ReadSpec` |
| `ReadProperties.StageCompleteIffSingleParticipant` | dbms/src/Storages/StorageDistributed.cpp:99-103 | the reported stage is `Complete` if and only if `pools.size() + getLocalNodesNum() == 1`, `WithMergeableState` otherwise, on the failure path too |
| `ReadProperties.StreamLayout` | dbms/src/Storages/StorageDistributed.cpp:105-134 | exactly `pools.size() + getLocalNodesNum()` streams; the first `pools.size()` are remote, the i-th bound to the i-th pool; the rest are local |
| `ReadProperties.EveryStreamCarriesReportedStage` | dbms/src/Storages/StorageDistributed.cpp:101-132 | every returned stream, remote or local, carries the stage `read` reports |
| `ReadProperties.DerivedSettingsReachEveryStream` | dbms/src/Storages/StorageDistributed.cpp:94-125 | every remote stream and every local stream's context carries the derived settings |
| `ReadProperties.NonSelectDispatchesNothing` | dbms/src/Storages/StorageDistributed.cpp:101-106 | a non-SELECT root yields the bad-cast error and no streams, and leaves the registry unchanged |
| `ReadProperties.SingleRewriteSharedByAllStreams` | dbms/src/Storages/StorageDistributed.cpp:106-132 | every remote stream gets the formatted text of the one rewritten tree, and every local stream gets that tree |
| `ReadProperties.ExternalTablesReachEveryStream` | dbms/src/Storages/StorageDistributed.cpp:113-128 | remote streams carry the registry as it was at the call; local contexts hold their prior tables plus every registry entry not already present, none overwritten |
| `ReadProperties.RegistryClearedAfterRead` | dbms/src/Storages/StorageDistributed.cpp:137-138 | after a read that dispatches, the registry is empty whatever it held |
| `ReadProperties.SecondReadSeesNoExternalTables` | dbms/src/Storages/StorageDistributed.cpp:117-137 | a second read without re-registering sends no external tables to shards, and its local contexts hold only their own tables |
| `ReadProperties.ZeroParticipants` | dbms/src/Storages/StorageDistributed.cpp:99-138 | with no shards and no local nodes a SELECT yields no streams, stage `WithMergeableState`, and an empty registry |
| `ReadProperties.ThreeShards` | dbms/src/Storages/StorageDistributed.cpp:105-119 | three shards and no local node, with a query on `logical_db.logical_tbl`, give three remote streams, the i-th bound to the i-th pool, each sent the text of the query aimed at the remote database and table, stage `WithMergeableState` |
| `ReadProperties.SingleLocalNode` | dbms/src/Storages/StorageDistributed.cpp:99-134 | one local node and no shard give a single local stream and stage `Complete` |

## Left out

- Constructors and the two `create` overloads (lines 18-63): cluster lookup and
  owned-versus-borrowed cluster lifetime, which are memory management with no
  behaviour to state.
- `alter` (lines 141-144): it passes straight through to `alterColumns`, which is not
  part of this model.
- `Cluster::saturate`, `formatAST`, `RemoteBlockInputStream`,
  `InterpreterSelectQuery::execute` and `Context` internals are not part of this
  model. They are uninterpreted functions or opaque values.
- `Collaborators`: modelling the collaborators as total pure functions assumes three
  things the source does not guarantee. First, they never throw: a throwing
  `RemoteBlockInputStream` or `InterpreterSelectQuery` constructor (lines 113, 132)
  would leave the stage set and skip the clear at line 137, and the model has no such
  path. Second, they are deterministic, so the local streams are equal values. Third,
  no interpreter mutates the one rewritten tree that line 132 hands to all of them.
- The behaviour "`saturate` returns the smaller value when a limit is set" is
  therefore not proved.
- `Context::addExternalTable` is modelled as inserting a new name. It is only called
  for names `tryGetExternalTable` did not find.
- Stream evaluation, network transport, connection pooling and thread scheduling:
  these are I/O and concurrency that happen after `read` returns.
- The `column_names`, `max_block_size` and `threads` parameters: `read` does not use
  them.
- The lifetime of `&new_settings` (line 116), a pointer to a local variable that is
  kept in a lazy stream. Settings are modelled by value, so pointer validity is not
  modelled.
- Whether remote streams copy or alias `external_tables` (line 117). Each remote stream
  holds a snapshot of the registry as it was at dispatch.
- The order in which the loop at line 126 visits registry entries. `AddExternalTables`
  picks entries in any order, and its result does not depend on the order.
