/** `StorageDistributed::read`: one logical SELECT turned into one stream
    descriptor per participant plus the processing stage the caller must
    expect. Nothing is evaluated; streams are descriptions of work. */
module StorageDistributed {
  import opened Results
  import opened QueryAst
  import opened QuerySettings
  import opened ProcessingStage
  import opened ClusterModel
  import opened ExecutionContext

  /** The lazy stream an interpreter's `execute` returns; opaque. */
  type StreamHandle = nat

  /** Code the read path calls but does not contain, as total functions:
      `Cluster::saturate`, `formatAST` and `InterpreterSelectQuery::execute`. */
  datatype Collaborators = Collaborators(
    saturate: (nat, nat) -> nat,
    format: SelectQuery -> string,
    execute: (Query, Context, Stage) -> StreamHandle)

  /** One returned stream: a `RemoteBlockInputStream` bound to a shard's pool,
      carrying the query text, settings, a snapshot of the external tables and
      the stage; or the stream of a local interpreter built over the rewritten
      tree, a derived context and the stage. */
  datatype Stream =
    | Remote(pool: PoolId, text: string, settings: Settings, externalTables: Registry, stage: Stage)
    | Local(query: Query, context: Context, stage: Stage, handle: StreamHandle)

  /** The parts of a distributed table the read path uses. */
  datatype DistributedTable = DistributedTable(remoteDatabase: string, remoteTable: string, cluster: Cluster, context: Context)

  /** What the caller observes after `read`: the returned streams (or the
      exception), the `processed_stage` out-parameter, and the table's
      external-table registry afterwards. */
  datatype ReadResult = ReadResult(streams: Result<seq<Stream>>, stage: Stage, registry: Registry)

  /** One remote stream per pool, in pool order. */
  function RemoteStreams(pools: seq<PoolId>, text: string, settings: Settings, tables: Registry, stage: Stage): (r: seq<Stream>)
    ensures |r| == |pools|
    ensures forall i :: 0 <= i < |pools| ==> r[i] == Remote(pools[i], text, settings, tables, stage)
  {
    if pools == [] then []
    else [Remote(pools[0], text, settings, tables, stage)] + RemoteStreams(pools[1..], text, settings, tables, stage)
  }

  /** `n` local interpreter streams over the same query, context and stage. */
  function LocalStreams(n: nat, query: Query, context: Context, stage: Stage, execute: (Query, Context, Stage) -> StreamHandle): (r: seq<Stream>)
    ensures |r| == n
    ensures forall i :: 0 <= i < n ==> r[i] == Local(query, context, stage, execute(query, context, stage))
  {
    if n == 0 then []
    else LocalStreams(n - 1, query, context, stage, execute) + [Local(query, context, stage, execute(query, context, stage))]
  }

  /** The context local interpreters run in: the table's context with the
      derived settings and the registry's tables added where missing. */
  function LocalContext(context: Context, settings: Settings, registry: Registry): Context
  {
    context.(settings := settings, externalTables := AddMissing(context.externalTables, registry))
  }

  /** The read, stated declaratively: the reference the loop-based `Read` is
      proved against. */
  function ReadSpec(env: Collaborators, table: DistributedTable, query: Query, settings: Settings, registry: Registry): ReadResult
  {
    var derived := DeriveSettings(settings, env.saturate);
    var stage := StageFor(table.cluster.ParticipantCount());
    match RewriteQuery(query, table.remoteDatabase, table.remoteTable)
    case Err(e) => ReadResult(Err(e), stage, registry)
    case Ok(modified) =>
      var remote := RemoteStreams(table.cluster.pools, env.format(modified.select), derived, registry, stage);
      var context := LocalContext(table.context, derived, registry);
      var local := LocalStreams(table.cluster.localNodesNum, modified, context, stage, env.execute);
      ReadResult(Ok(remote + local), stage, map[])
  }

  /** `StorageDistributed::read` as written: derive settings, choose the stage,
      rewrite once, one remote stream per pool (formatting the rewritten tree
      for each), then, if there are local nodes, one derived context with the
      registry merged in and one interpreter stream per local node; finally
      clear the registry. A bad cast leaves the registry as it was. */
  method Read(env: Collaborators, table: DistributedTable, query: Query, settings: Settings, registry: Registry) returns (r: ReadResult)
    ensures r == ReadSpec(env, table, query, settings, registry)
  {
    var derived := DeriveSettings(settings, env.saturate);
    var pools := table.cluster.pools;
    var stage := StageFor(|pools| + table.cluster.localNodesNum);
    var rewritten := RewriteQuery(query, table.remoteDatabase, table.remoteTable);
    if rewritten.Err? {
      return ReadResult(Err(rewritten.error), stage, registry);
    }
    var modified := rewritten.value;

    var streams: seq<Stream> := [];
    var i := 0;
    while i < |pools|
      invariant 0 <= i <= |pools|
      invariant |streams| == i
      invariant forall j :: 0 <= j < i ==> streams[j] == Remote(pools[j], env.format(modified.select), derived, registry, stage)
    {
      var text := SelectToString(env.format, modified);
      streams := streams + [Remote(pools[i], text.value, derived, registry, stage)];
      i := i + 1;
    }
    assert streams == RemoteStreams(pools, env.format(modified.select), derived, registry, stage);

    if table.cluster.localNodesNum > 0 {
      var context := table.context.(settings := derived);
      context := AddExternalTables(context, registry);
      var k := 0;
      while k < table.cluster.localNodesNum
        invariant 0 <= k <= table.cluster.localNodesNum
        invariant |streams| == |pools| + k
        invariant streams[..|pools|] == RemoteStreams(pools, env.format(modified.select), derived, registry, stage)
        invariant forall j :: |pools| <= j < |streams| ==> streams[j] == Local(modified, context, stage, env.execute(modified, context, stage))
      {
        streams := streams + [Local(modified, context, stage, env.execute(modified, context, stage))];
        k := k + 1;
      }
      assert context == LocalContext(table.context, derived, registry);
      assert streams[|pools|..] == LocalStreams(table.cluster.localNodesNum, modified, context, stage, env.execute);
      assert streams == streams[..|pools|] + streams[|pools|..];
    } else {
      assert streams == streams + LocalStreams(0, modified, LocalContext(table.context, derived, registry), stage, env.execute);
    }
    r := ReadResult(Ok(streams), stage, map[]);
  }
}
