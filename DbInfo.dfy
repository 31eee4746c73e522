/**
 * What the generators read from the database, as plain values: the `tb` record of
 * `INFO FOR DB` and the `fd` record of `INFO FOR TABLE`, each as the list `Object.entries`
 * returns, in its order (integer-like keys ascending first, then the rest in insertion order),
 * and the schemaful test all generators share.
 */
module DbInfo {
  import opened Strings

  /** One `[key, value]` pair of `Object.entries`: a table name and its `DEFINE TABLE` text, or a field path and its `DEFINE FIELD` text. */
  datatype Entry = Entry(key: string, value: string)

  /** The name of the bookkeeping table the migration runner keeps its applied migrations in. */
  const MigrationsTable: string := "_surrealx_migrations"

  /** `tableDefinition.includes('SCHEMAFULL')` */
  predicate IsSchemafull(definition: string) {
    Contains(definition, "SCHEMAFULL")
  }

  /** `Object.keys(...)`: the keys of the entries, in order. */
  function Keys(entries: seq<Entry>): (ks: seq<string>)
    ensures |ks| == |entries|
    ensures forall i :: 0 <= i < |entries| ==> ks[i] == entries[i].key
  {
    seq(|entries|, i requires 0 <= i < |entries| => entries[i].key)
  }

  /** A definition is schemaful exactly when "SCHEMAFULL" occurs somewhere in it, whatever else it says. */
  lemma SchemafullIff(definition: string)
    ensures IsSchemafull(definition) <==> exists i :: OccursAt(definition, "SCHEMAFULL", i)
  {
    if exists i :: OccursAt(definition, "SCHEMAFULL", i) {
      var i :| OccursAt(definition, "SCHEMAFULL", i);
      ContainsAt(definition, "SCHEMAFULL", i);
    }
    if IsSchemafull(definition) {
      assert OccursAt(definition, "SCHEMAFULL", IndexOf(definition, "SCHEMAFULL").value);
    }
  }
}
