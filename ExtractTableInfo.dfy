/**
 * `extractTableMeta` of src/generate/extractTableInfo.ts: one `TableMeta` per table of the
 * database, in the database's order, each with its schemaful flag and, for a schemaful table,
 * the fields read from its `INFO FOR TABLE` answer. The kind of a field is the legacy
 * reading of its definition: the first word after "TYPE ", or "string".
 */
module ExtractTableInfo {
  import opened Wrappers
  import opened Strings
  import opened DbInfo
  import LegacyTableType

  /** A field of a table: its path, its kind word and whether it may be absent. */
  datatype Field = Field(name: string, kind: string, isOptional: bool)

  /** A table as the renderer sees it; its field list is drained in place by the renderer. */
  class TableMeta {
    const name: string
    const isSchemafull: bool
    var fields: seq<Field>

    constructor (name: string, isSchemafull: bool, fields: seq<Field>)
      ensures this.name == name && this.isSchemafull == isSchemafull && this.fields == fields
    {
      this.name := name;
      this.isSchemafull := isSchemafull;
      this.fields := fields;
    }
  }

  /** The field read from one `fd` entry; every such field is marked optional. */
  function FieldOf(e: Entry): Field {
    Field(e.key, LegacyTableType.KindOf(e.value), true)
  }

  /** The fields of one `fd` record: one per entry, in entry order. */
  function FieldsOf(fd: seq<Entry>): (fields: seq<Field>)
    decreases |fd|
    ensures |fields| == |fd|
    ensures forall i :: 0 <= i < |fd| ==>
              fields[i].name == fd[i].key && fields[i].isOptional
              && fields[i].kind == LegacyTableType.KindOf(fd[i].value)
  {
    if fd == [] then [] else FieldsOf(fd[..|fd| - 1]) + [FieldOf(fd[|fd| - 1])]
  }

  /** The inner loop: one field pushed per `fd` entry. */
  method ReadFields(fd: seq<Entry>) returns (fields: seq<Field>)
    ensures fields == FieldsOf(fd)
  {
    fields := [];
    for i := 0 to |fd|
      invariant fields == FieldsOf(fd[..i])
    {
      assert fd[..i + 1][..i] == fd[..i];
      fields := fields + [FieldOf(fd[i])];
    }
    assert fd[..|fd|] == fd;
  }

  /** Some schemaful table of `tb` has no table info. */
  predicate MissingInfo(tb: seq<Entry>, info: map<string, seq<Entry>>) {
    exists i :: 0 <= i < |tb| && IsSchemafull(tb[i].value) && tb[i].key !in info
  }

  /**
   * `extractTableMeta`, with the database's answers as inputs: `dbInfo` is the `tb` record of
   * `INFO FOR DB` (None when the query gave nothing), `info` the `fd` record of every table
   * whose `INFO FOR TABLE` answered.
   */
  method ExtractTableMeta(dbInfo: Option<seq<Entry>>, info: map<string, seq<Entry>>)
    returns (r: Result<seq<TableMeta>, string>)
    ensures dbInfo.None? ==> r == Err("Error")
    ensures dbInfo.Some? ==> (r.Err? <==> MissingInfo(dbInfo.value, info))
    ensures r.Err? ==> r.error == "Error"
    ensures r.Ok? ==>
              var tb := dbInfo.value;
              |r.value| == |tb|
              && forall i :: 0 <= i < |tb| ==>
                   r.value[i].name == tb[i].key
                   && r.value[i].isSchemafull == IsSchemafull(tb[i].value)
                   && r.value[i].fields == (if IsSchemafull(tb[i].value) then FieldsOf(info[tb[i].key]) else [])
    ensures r.Ok? ==> forall i, j :: 0 <= i < j < |r.value| ==> r.value[i] != r.value[j]
  {
    if dbInfo.None? {
      return Err("Error");
    }
    var tb := dbInfo.value;
    var tables: seq<TableMeta> := [];
    for i := 0 to |tb|
      invariant |tables| == i
      invariant forall k :: 0 <= k < i ==> fresh(tables[k])
      invariant forall k, l :: 0 <= k < l < i ==> tables[k] != tables[l]
      invariant forall k :: 0 <= k < i ==>
                  tables[k].name == tb[k].key
                  && tables[k].isSchemafull == IsSchemafull(tb[k].value)
      invariant forall k :: 0 <= k < i ==> !(IsSchemafull(tb[k].value) && tb[k].key !in info)
      invariant forall k :: 0 <= k < i ==>
                  tables[k].fields == (if IsSchemafull(tb[k].value) then FieldsOf(info[tb[k].key]) else [])
    {
      var tableName := tb[i].key;
      var schemafull := IsSchemafull(tb[i].value);
      var fields: seq<Field> := [];
      if schemafull {
        if tableName !in info {
          return Err("Error");
        }
        fields := ReadFields(info[tableName]);
      }
      var t := new TableMeta(tableName, schemafull, fields);
      tables := tables + [t];
    }
    return Ok(tables);
  }

  /** The kind of a field is the first word after "TYPE ": a record field's kind is "record", not its table. */
  lemma RecordFieldKind(name: string, pre: string, table: string, rest: string)
    requires NoTypeKeywordIn(pre)
    ensures FieldOf(Entry(name, pre + TypeKeyword + "record" + ("(" + table + ")" + rest))).kind == "record"
  {
    LegacyTableType.KindOfRecord(pre, table, rest);
  }

  /** A definition without "TYPE " gives a "string" field; every kind is a non-empty word. */
  lemma FieldKindShape(e: Entry)
    ensures !Contains(e.value, TypeKeyword) ==> FieldOf(e).kind == "string"
    ensures FieldOf(e).kind != [] && forall c :: c in FieldOf(e).kind ==> IsWordChar(c)
  {
    LegacyTableType.KindOfIsWord(e.value);
    if !Contains(e.value, TypeKeyword) {
      LegacyTableType.KindOfDefault(e.value);
    }
  }
}
