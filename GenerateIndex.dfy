/**
 * The table part of `generate` in src/generate/index.ts: `getTablesWithTypes` lists every
 * table of the database with its type name and a stand-in type, and `generate` writes three
 * statements from that list: the aliases, the `TableName` union and the `TableTypes`
 * interface.
 */
module GenerateIndex {
  import opened Wrappers
  import opened Strings
  import opened DbInfo
  import Capitalize
  import GenerateMod
  import GenerateTableTypes

  /** One table as `getTablesWithTypes` lists it. */
  datatype TableEntry = TableEntry(tableName: string, capitalizedTableName: string, stringifiedType: string)

  /** The stand-in type of a schemaful table. */
  const PlaceholderType: string := "{}"

  /**
   * `getTablesWithTypes`, with the `tb` record of `INFO FOR DB` as input (None when the query
   * gave nothing): one entry per table, in the database's order.
   */
  method GetTablesWithTypes(dbInfo: Option<seq<Entry>>) returns (r: Result<seq<TableEntry>, string>)
    ensures dbInfo.None? <==> r.Err?
    ensures r.Err? ==> r.error == "Error"
    ensures r.Ok? ==>
              var tb := dbInfo.value;
              |r.value| == |tb|
              && forall i :: 0 <= i < |tb| ==>
                   r.value[i].tableName == tb[i].key
                   && r.value[i].capitalizedTableName == Capitalize.Capitalize(tb[i].key)
                   && r.value[i].stringifiedType == if IsSchemafull(tb[i].value) then PlaceholderType else GenerateMod.RecordType
  {
    if dbInfo.None? {
      return Err("Error");
    }
    var tb := dbInfo.value;
    var tableMeta: seq<TableEntry> := [];
    for i := 0 to |tb|
      invariant |tableMeta| == i
      invariant forall k :: 0 <= k < i ==>
                  tableMeta[k].tableName == tb[k].key
                  && tableMeta[k].capitalizedTableName == Capitalize.Capitalize(tb[k].key)
                  && tableMeta[k].stringifiedType == if IsSchemafull(tb[k].value) then PlaceholderType else GenerateMod.RecordType
    {
      var tableName := tb[i].key;
      if !IsSchemafull(tb[i].value) {
        tableMeta := tableMeta + [TableEntry(tableName, Capitalize.Capitalize(tableName), GenerateMod.RecordType)];
      } else {
        tableMeta := tableMeta + [TableEntry(tableName, Capitalize.Capitalize(tableName), PlaceholderType)];
      }
    }
    return Ok(tableMeta);
  }

  /** `export type <Cap> = <type>;` */
  function AliasLine(t: TableEntry): string {
    "export type " + t.capitalizedTableName + " = " + t.stringifiedType + ";"
  }

  /** The alias lines, one per entry, in order. */
  function AliasLines(ts: seq<TableEntry>): (ls: seq<string>)
    ensures |ls| == |ts|
    ensures forall i :: 0 <= i < |ts| ==> ls[i] == AliasLine(ts[i])
  {
    seq(|ts|, i requires 0 <= i < |ts| => AliasLine(ts[i]))
  }

  /** The table names of the entries, in order. */
  function TableNames(ts: seq<TableEntry>): (ns: seq<string>)
    ensures |ns| == |ts|
    ensures forall i :: 0 <= i < |ts| ==> ns[i] == ts[i].tableName
  {
    seq(|ts|, i requires 0 <= i < |ts| => ts[i].tableName)
  }

  /** `<name>: <Cap>;` */
  function MemberLine(t: TableEntry): string {
    t.tableName + ": " + t.capitalizedTableName + ";"
  }

  /** The `TableTypes` members, one per entry, in order. */
  function MemberLines(ts: seq<TableEntry>): seq<string> {
    seq(|ts|, i requires 0 <= i < |ts| => MemberLine(ts[i]))
  }

  /** The `TableTypes` interface statement. */
  function InterfaceStatement(ts: seq<TableEntry>): string {
    GenerateTableTypes.InterfaceHead + Join(MemberLines(ts), "\n\t") + "\n}"
  }

  /** `generate`, lines 23-45: the aliases, the `TableName` union and the `TableTypes` interface, in that order. */
  method AddTableStatements(ts: seq<TableEntry>, genFile: GenerateMod.GenFile)
    modifies genFile
    ensures genFile.statements
            == old(genFile.statements)
               + [GenerateMod.Source(Join(AliasLines(ts), "\n")),
                  GenerateMod.Source(GenerateTableTypes.TableNameLine(TableNames(ts))),
                  GenerateMod.Source(InterfaceStatement(ts))]
  {
    genFile.AddStatements([GenerateMod.Source(Join(AliasLines(ts), "\n"))]);
    genFile.AddStatements([GenerateMod.Source("export type TableName = " + Join(GenerateTableTypes.QuotedNames(TableNames(ts)), " | ") + ";")]);
    genFile.AddStatements([GenerateMod.Source(GenerateTableTypes.InterfaceHead + Join(MemberLines(ts), "\n\t") + "\n}")]);
  }

  // ---------------------------------------------------------------------------
  // Agreement with the other generators
  // ---------------------------------------------------------------------------

  /**
   * For the entries `getTablesWithTypes` lists, the alias of a schemaless table is the same
   * text `addTablesWithTypes` writes for it, and a schemaful table gets the empty type.
   */
  lemma AliasAgrees(e: Entry, t: TableEntry)
    requires t.tableName == e.key && t.capitalizedTableName == Capitalize.Capitalize(e.key)
    ensures t.stringifiedType == GenerateMod.RecordType ==> AliasLine(t) == GenerateMod.RecordAlias(e.key)
    ensures t.stringifiedType == PlaceholderType
            ==> AliasLine(t) == "export type " + Capitalize.Capitalize(e.key) + " = {};"
  {
    if t.stringifiedType == PlaceholderType {
      var head := "export type " + t.capitalizedTableName;
      assert " = " + PlaceholderType + ";" == " = {};";
      assert AliasLine(t) == head + (" = " + PlaceholderType + ";");
    }
  }

  /**
   * For the entries `getTablesWithTypes` lists, the `TableName` union and the `TableTypes`
   * members name the tables in the database's order, exactly as `addTableTypes` writes them.
   */
  lemma NamesAgree(tb: seq<Entry>, ts: seq<TableEntry>)
    requires |ts| == |tb|
    requires forall i :: 0 <= i < |tb| ==>
               ts[i].tableName == tb[i].key && ts[i].capitalizedTableName == Capitalize.Capitalize(tb[i].key)
    ensures TableNames(ts) == Keys(tb)
    ensures MemberLines(ts) == GenerateTableTypes.MemberLines(Keys(tb))
  {
    assert forall i :: 0 <= i < |ts| ==> MemberLines(ts)[i] == GenerateTableTypes.MemberLines(Keys(tb))[i];
  }

  /** The aliases are written one per line, first table first, last table last. */
  lemma AliasBlockEnds(ts: seq<TableEntry>)
    requires ts != []
    ensures StartsWith(Join(AliasLines(ts), "\n"), AliasLine(ts[0]))
    ensures EndsWith(Join(AliasLines(ts), "\n"), AliasLine(ts[|ts| - 1]))
  {
    JoinEnds(AliasLines(ts), "\n");
  }
}
