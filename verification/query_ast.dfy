/** The part of the query syntax tree the distributed read touches: the root
    statement and, when it is a SELECT, its database and table children. */
module QueryAst {
  import opened Results

  /** Semantic role carried by an identifier node (`ASTIdentifier::Kind`). */
  datatype IdentKind = Column | Database | Table | Function | Format

  datatype Identifier = Identifier(name: string, kind: IdentKind)

  /** A SELECT statement: the optional `FROM db.table` children and the rest
      of the statement (select list, WHERE, GROUP BY, ...), opaque here. */
  datatype SelectQuery = SelectQuery(database: Option<Identifier>, table: Option<Identifier>, body: string)

  /** The root of a statement tree. Trees are values, so `query->clone()` is the
      identity and no operation can change a caller's tree. */
  datatype Query = Select(select: SelectQuery) | Other(statement: string)

  /** The rewritten query reads `remoteDatabase.remoteTable` and nothing else changed. */
  ghost predicate PointsAt(rewritten: Query, original: Query, remoteDatabase: string, remoteTable: string)
    requires original.Select?
  {
    && rewritten.Select?
    && rewritten.select.database == Some(Identifier(remoteDatabase, Database))
    && rewritten.select.table == Some(Identifier(remoteTable, Table))
    && rewritten.select.body == original.select.body
  }

  /** `StorageDistributed::rewriteQuery`: a copy of the query aimed at the
      physical remote database and table; a non-SELECT root is a bad cast. */
  function RewriteQuery(query: Query, remoteDatabase: string, remoteTable: string): (r: Result<Query>)
    ensures r.Ok? <==> query.Select?
    ensures r.Ok? ==> PointsAt(r.value, query, remoteDatabase, remoteTable)
    ensures r.Err? ==> r.error == BadCast(query.statement)
  {
    match query
    case Other(statement) => Err(BadCast(statement))
    case Select(select) =>
      Ok(Select(select.(database := Some(Identifier(remoteDatabase, Database)),
                        table := Some(Identifier(remoteTable, Table)))))
  }

  /** `selectToString`: the one-line text of a SELECT, produced by the
      formatter collaborator; any other root is a bad cast. */
  function SelectToString(format: SelectQuery -> string, query: Query): (r: Result<string>)
    ensures r.Ok? <==> query.Select?
    ensures r.Ok? ==> r.value == format(query.select)
    ensures r.Err? ==> r.error == BadCast(query.statement)
  {
    match query
    case Other(statement) => Err(BadCast(statement))
    case Select(select) => Ok(format(select))
  }

  /** Rewriting an already rewritten query changes nothing. */
  lemma RewriteIsIdempotent(query: Query, remoteDatabase: string, remoteTable: string)
    requires query.Select?
    ensures RewriteQuery(RewriteQuery(query, remoteDatabase, remoteTable).value, remoteDatabase, remoteTable)
            == RewriteQuery(query, remoteDatabase, remoteTable)
  {
  }

  /** The rewrite forgets where a SELECT pointed: two SELECTs rewrite to the
      same query exactly when the rest of their statements agree. */
  lemma RewriteDependsOnlyOnBody(a: Query, b: Query, remoteDatabase: string, remoteTable: string)
    requires a.Select? && b.Select?
    ensures RewriteQuery(a, remoteDatabase, remoteTable) == RewriteQuery(b, remoteDatabase, remoteTable)
            <==> a.select.body == b.select.body
  {
    if RewriteQuery(a, remoteDatabase, remoteTable) == RewriteQuery(b, remoteDatabase, remoteTable) {
      assert RewriteQuery(a, remoteDatabase, remoteTable).value.select.body == a.select.body;
    }
  }

  /** Formatting a successfully rewritten query cannot fail, so the second
      `dynamic_cast` (inside `selectToString`) never throws during a read. */
  lemma FormatAfterRewriteSucceeds(format: SelectQuery -> string, query: Query, remoteDatabase: string, remoteTable: string)
    requires RewriteQuery(query, remoteDatabase, remoteTable).Ok?
    ensures SelectToString(format, RewriteQuery(query, remoteDatabase, remoteTable).value).Ok?
  {
  }
}
