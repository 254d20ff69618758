/** Properties of the distributed read, stated over its declarative
    definition `ReadSpec`, which the loop-based `Read` is proved equal to. */
module ReadProperties {
  import opened Results
  import opened QueryAst
  import opened QuerySettings
  import opened ProcessingStage
  import opened ClusterModel
  import opened ExecutionContext
  import opened StorageDistributed

  /** The reported stage is `Complete` exactly when there is one participant,
      and `WithMergeableState` otherwise, zero participants included. The
      stage is reported on the failure path too, since it is assigned before
      the query is rewritten. */
  lemma StageCompleteIffSingleParticipant(env: Collaborators, table: DistributedTable, query: Query, settings: Settings, registry: Registry)
    ensures var r := ReadSpec(env, table, query, settings, registry);
      && (r.stage == Complete <==> |table.cluster.pools| + table.cluster.localNodesNum == 1)
      && (r.stage == WithMergeableState <==> |table.cluster.pools| + table.cluster.localNodesNum != 1)
  {
  }

  /** One stream per participant: the first `|pools|` are remote, the i-th
      bound to the i-th pool, and the rest are local. */
  lemma StreamLayout(env: Collaborators, table: DistributedTable, query: Query, settings: Settings, registry: Registry)
    requires ReadSpec(env, table, query, settings, registry).streams.Ok?
    ensures var s := ReadSpec(env, table, query, settings, registry).streams.value;
      && |s| == |table.cluster.pools| + table.cluster.localNodesNum
      && (forall i :: 0 <= i < |table.cluster.pools| ==> s[i].Remote? && s[i].pool == table.cluster.pools[i])
      && (forall i :: |table.cluster.pools| <= i < |s| ==> s[i].Local?)
  {
  }

  /** Every stream, remote or local, is asked for the stage `read` reports. */
  lemma EveryStreamCarriesReportedStage(env: Collaborators, table: DistributedTable, query: Query, settings: Settings, registry: Registry)
    requires ReadSpec(env, table, query, settings, registry).streams.Ok?
    ensures var r := ReadSpec(env, table, query, settings, registry);
      forall i :: 0 <= i < |r.streams.value| ==> r.streams.value[i].stage == r.stage
  {
  }

  /** Every participant runs with the derived settings: remote streams carry
      them directly, local streams through their context. */
  lemma DerivedSettingsReachEveryStream(env: Collaborators, table: DistributedTable, query: Query, settings: Settings, registry: Registry)
    requires ReadSpec(env, table, query, settings, registry).streams.Ok?
    ensures var s := ReadSpec(env, table, query, settings, registry).streams.value;
      forall i :: 0 <= i < |s| ==>
        (if s[i].Remote? then s[i].settings else s[i].context.settings) == DeriveSettings(settings, env.saturate)
  {
  }

  /** A non-SELECT root aborts the read before any dispatch: no streams are
      returned and, since the clearing statement is never reached, the
      registry keeps what it held. */
  lemma NonSelectDispatchesNothing(env: Collaborators, table: DistributedTable, query: Query, settings: Settings, registry: Registry)
    requires query.Other?
    ensures var r := ReadSpec(env, table, query, settings, registry);
      r.streams == Err(BadCast(query.statement)) && r.registry == registry
  {
  }

  /** The query is rewritten once: every remote stream gets the text of that
      one rewritten tree and every local stream gets the tree itself. */
  lemma SingleRewriteSharedByAllStreams(env: Collaborators, table: DistributedTable, query: Query, settings: Settings, registry: Registry)
    requires query.Select?
    ensures var modified := RewriteQuery(query, table.remoteDatabase, table.remoteTable).value;
      var s := ReadSpec(env, table, query, settings, registry).streams.value;
      forall i :: 0 <= i < |s| ==>
        if s[i].Remote? then SelectToString(env.format, modified) == Ok(s[i].text) else s[i].query == modified
  {
  }

  /** Remote streams carry the registry as it was when `read` was called;
      local streams see the table context's own external tables plus every
      registry entry whose name the context did not already hold. */
  lemma ExternalTablesReachEveryStream(env: Collaborators, table: DistributedTable, query: Query, settings: Settings, registry: Registry)
    requires ReadSpec(env, table, query, settings, registry).streams.Ok?
    ensures var s := ReadSpec(env, table, query, settings, registry).streams.value;
      var prior := table.context.externalTables;
      forall i :: 0 <= i < |s| ==>
        if s[i].Remote? then s[i].externalTables == registry
        else
          && s[i].context.externalTables.Keys == prior.Keys + registry.Keys
          && (forall name :: name in prior ==> s[i].context.externalTables[name] == prior[name])
          && (forall name :: name in registry && name !in prior ==> s[i].context.externalTables[name] == registry[name])
  {
  }

  /** A read that dispatches leaves the registry empty, whatever it held. */
  lemma RegistryClearedAfterRead(env: Collaborators, table: DistributedTable, query: Query, settings: Settings, registry: Registry)
    requires query.Select?
    ensures ReadSpec(env, table, query, settings, registry).registry == map[]
  {
  }

  /** External tables are one-shot: a second read that is not given new ones
      sends no external tables to remote shards, and its local streams see only
      the tables the table's own context registers. */
  lemma SecondReadSeesNoExternalTables(env: Collaborators, table: DistributedTable, query: Query, settings: Settings, registry: Registry)
    requires query.Select?
    ensures var first := ReadSpec(env, table, query, settings, registry);
      var s := ReadSpec(env, table, query, settings, first.registry).streams.value;
      forall i :: 0 <= i < |s| ==>
        if s[i].Remote? then s[i].externalTables == map[]
        else s[i].context.externalTables == table.context.externalTables
  {
  }

  /** With no shards and no local nodes a SELECT yields no streams at all and
      the stage is still reported, as `WithMergeableState`. */
  lemma ZeroParticipants(env: Collaborators, table: DistributedTable, query: Query, settings: Settings, registry: Registry)
    requires query.Select?
    requires table.cluster.pools == [] && table.cluster.localNodesNum == 0
    ensures ReadSpec(env, table, query, settings, registry) == ReadResult(Ok([]), WithMergeableState, map[])
  {
    assert |ReadSpec(env, table, query, settings, registry).streams.value| == 0;
  }

  /** Three shards, no local node, a query on `logical_db.logical_tbl`: three
      remote streams, in pool order, each sent the text of the same query on
      `remote_db.remote_table`. */
  lemma ThreeShards(env: Collaborators, table: DistributedTable, body: string, settings: Settings, registry: Registry)
    requires table.cluster == Cluster([7, 8, 9], 0)
    ensures var target := SelectQuery(Some(Identifier(table.remoteDatabase, Database)), Some(Identifier(table.remoteTable, Table)), body);
      var query := Select(SelectQuery(Some(Identifier("logical_db", Database)), Some(Identifier("logical_tbl", Table)), body));
      var r := ReadSpec(env, table, query, settings, registry);
      && r.stage == WithMergeableState
      && r.streams.Ok?
      && |r.streams.value| == 3
      && (forall i :: 0 <= i < 3 ==>
            && r.streams.value[i].Remote?
            && r.streams.value[i].pool == [7, 8, 9][i]
            && r.streams.value[i].text == env.format(target))
  {
  }

  /** One local node and no shard: a single local stream and a `Complete`
      stage, so the caller needs no merge step. */
  lemma SingleLocalNode(env: Collaborators, table: DistributedTable, query: Query, settings: Settings, registry: Registry)
    requires query.Select?
    requires table.cluster == Cluster([], 1)
    ensures var r := ReadSpec(env, table, query, settings, registry);
      r.stage == Complete && r.streams.Ok? && |r.streams.value| == 1 && r.streams.value[0].Local?
  {
  }
}
