/** The slice of the execution context the read path uses: its settings and
    its registered external (temporary) tables. */
module ExecutionContext {
  import opened QuerySettings

  /** The contents of an external table; opaque. */
  datatype TableData = TableData(id: nat)

  /** External tables by name, as the table's `external_tables` member holds them. */
  type Registry = map<string, TableData>

  datatype Context = Context(settings: Settings, externalTables: Registry, other: string)

  /** The tables a context holds after every registry entry it does not yet
      have has been added: first registration wins, nothing is overwritten. */
  function AddMissing(tables: Registry, registry: Registry): (r: Registry)
    ensures r.Keys == tables.Keys + registry.Keys
    ensures forall name :: name in tables ==> r[name] == tables[name]
    ensures forall name :: name in registry && name !in tables ==> r[name] == registry[name]
  {
    registry + tables
  }

  /** The loop over `external_tables` that calls `addExternalTable` for each
      name `tryGetExternalTable` does not find; entries are visited in any order. */
  method AddExternalTables(context: Context, registry: Registry) returns (r: Context)
    ensures r.settings == context.settings && r.other == context.other
    ensures r.externalTables == AddMissing(context.externalTables, registry)
  {
    r := context;
    var pending := registry.Keys;
    while pending != {}
      invariant pending <= registry.Keys
      invariant r.settings == context.settings && r.other == context.other
      invariant r.externalTables == AddMissing(context.externalTables, registry - pending)
      decreases pending
    {
      var name :| name in pending;
      if name !in r.externalTables {
        r := r.(externalTables := r.externalTables[name := registry[name]]);
      }
      pending := pending - {name};
    }
    assert registry - pending == registry;
  }

  /** With nothing registered the context's tables are exactly its own; a
      direct instance of the `AddMissing` contract. */
  lemma AddNothingIsIdentity(tables: Registry)
    ensures AddMissing(tables, map[]) == tables
  {
  }
}
