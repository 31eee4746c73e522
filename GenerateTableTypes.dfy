/**
 * The text renderer of src/generate/generateTableTypes.ts: each table becomes an
 * `export type` alias, written line by line while the table's field list is drained in
 * place, and the file receives one block holding the `TableName` union, every table's alias
 * and the `TableTypes` interface.
 */
module GenerateTableTypes {
  import opened Strings
  import opened Seqs
  import Capitalize
  import opened ExtractTableInfo
  import GenerateMod

  /** The kind the renderer writes as an (empty) object type. */
  const ObjectKind: string := "object"

  /** The lines one field contributes: `name?: kind;`, or `name?: {` and `};` for an object field. */
  function FieldLines(f: Field): seq<string> {
    var q := if f.isOptional then "?" else "";
    if f.kind != ObjectKind then [f.name + q + ": " + f.kind + ";"]
    else [f.name + q + ": {", "};"]
  }

  /** The lines of a list of fields, in field order. */
  function BodyLines(fields: seq<Field>): seq<string>
    decreases |fields|
  {
    if fields == [] then [] else BodyLines(fields[..|fields| - 1]) + FieldLines(fields[|fields| - 1])
  }

  /** The first line of a schemaful table's alias. */
  function Header(tableName: string): string {
    "export type " + Capitalize.Capitalize(tableName) + " = {"
  }

  /** What `generateTableType` returns for a table with these fields. */
  function TableTypeText(tableName: string, isSchemafull: bool, fields: seq<Field>): string {
    if !isSchemafull then GenerateMod.RecordAlias(tableName)
    else Join([Header(tableName)] + BodyLines(fields) + ["};"], "\n")
  }

  /**
   * `generateTableType`: renders the table, shifting every field off its list; a schemaless
   * table is rendered without touching its fields.
   */
  method GenerateTableType(table: TableMeta) returns (s: string)
    modifies table
    ensures s == TableTypeText(table.name, table.isSchemafull, old(table.fields))
    ensures table.fields == if table.isSchemafull then [] else old(table.fields)
  {
    var tableName := Capitalize.Capitalize(table.name);
    if !table.isSchemafull {
      return "export type " + tableName + " = " + GenerateMod.RecordType + ";";
    }
    var returnType := ["export type " + tableName + " = {"];
    ghost var k := 0;
    while |table.fields| > 0
      invariant k <= |old(table.fields)| && table.fields == old(table.fields)[k..]
      invariant returnType == [Header(table.name)] + BodyLines(old(table.fields)[..k])
      decreases |table.fields|
    {
      var f := table.fields[0];
      table.fields := table.fields[1..];
      BodyLinesStep(old(table.fields), k);
      var q := if f.isOptional then "?" else "";
      if f.kind != ObjectKind {
        returnType := returnType + [f.name + q + ": " + f.kind + ";"];
      } else {
        returnType := returnType + [f.name + q + ": {"];
        returnType := returnType + ["};"];
      }
      k := k + 1;
    }
    assert old(table.fields)[..k] == old(table.fields);
    returnType := returnType + ["};"];
    s := Join(returnType, "\n");
  }

  // ---------------------------------------------------------------------------
  // The shape of one table's text
  // ---------------------------------------------------------------------------

  /** One field more renders its lines after those of the fields before it. */
  lemma BodyLinesStep(fields: seq<Field>, k: nat)
    requires k < |fields|
    ensures BodyLines(fields[..k + 1]) == BodyLines(fields[..k]) + FieldLines(fields[k])
  {
    assert fields[..k + 1][..k] == fields[..k];
  }

  /** The lines of a concatenation are the lines of each part: fields render in field order. */
  lemma {:induction false} BodyLinesAppend(a: seq<Field>, b: seq<Field>)
    decreases |b|
    ensures BodyLines(a + b) == BodyLines(a) + BodyLines(b)
  {
    if b == [] {
      assert a + b == a;
    } else {
      var init := b[..|b| - 1];
      var x := b[|b| - 1];
      assert (a + b)[..|a + b| - 1] == a + init;
      assert (a + b)[|a + b| - 1] == x;
      assert BodyLines(a + b) == BodyLines(a + init) + FieldLines(x);
      assert BodyLines(b) == BodyLines(init) + FieldLines(x);
      BodyLinesAppend(a, init);
    }
  }

  /**
   * A non-object field renders one line: its name, "?" exactly when it is optional, then
   * ": " and its kind followed by ";".
   */
  lemma ScalarFieldLine(f: Field)
    requires f.kind != ObjectKind
    ensures |FieldLines(f)| == 1
    ensures var line := FieldLines(f)[0];
            StartsWith(line, f.name) && EndsWith(line, ": " + f.kind + ";")
            && |line| > |f.name| && (line[|f.name|] == '?' <==> f.isOptional)
  {
    var q := if f.isOptional then "?" else "";
    var line := f.name + q + ": " + f.kind + ";";
    assert line[..|f.name|] == f.name;
    assert line[|line| - |": " + f.kind + ";"|..] == ": " + f.kind + ";";
    assert line[|f.name|] == (q + ": ")[0];
  }

  /** An object field renders an opening line immediately closed: its children are not rendered inside it. */
  lemma ObjectFieldLines(f: Field)
    requires f.kind == ObjectKind
    ensures |FieldLines(f)| == 2 && FieldLines(f)[1] == "};"
    ensures EndsWith(FieldLines(f)[0], ": {") && StartsWith(FieldLines(f)[0], f.name)
    ensures FieldLines(f)[0][|f.name|] == '?' <==> f.isOptional
  {
    var q := if f.isOptional then "?" else "";
    var line := f.name + q + ": {";
    assert line[..|f.name|] == f.name;
    assert line[|line| - 3..] == ": {";
    assert line[|f.name|] == (q + ": {")[0];
  }

  /** A schemaful table's text starts with its header line and ends with the closing `};`. */
  lemma SchemafulText(tableName: string, fields: seq<Field>)
    ensures StartsWith(TableTypeText(tableName, true, fields), "export type " + Capitalize.Capitalize(tableName) + " = {")
    ensures EndsWith(TableTypeText(tableName, true, fields), "};")
  {
    var lines := [Header(tableName)] + BodyLines(fields) + ["};"];
    JoinEnds(lines, "\n");
    assert lines[0] == Header(tableName);
    assert lines[|lines| - 1] == "};";
  }

  /** A table with no fields renders as an empty type literal. */
  lemma EmptyTableText(tableName: string)
    ensures TableTypeText(tableName, true, []) == Header(tableName) + "\n};"
  {
    assert [Header(tableName)] + BodyLines([]) + ["};"] == [Header(tableName), "};"];
    assert [Header(tableName), "};"][1..] == ["};"];
    assert Join([Header(tableName), "};"], "\n") == Header(tableName) + "\n" + "};";
  }

  /** A schemaful table's text is its header, one joined line per field line, and the closing line. */
  lemma SchemafulLines(tableName: string, fields: seq<Field>, f: Field)
    ensures TableTypeText(tableName, true, fields + [f])
            == Join([Header(tableName)] + BodyLines(fields), "\n") + "\n" + Join(FieldLines(f) + ["};"], "\n")
  {
    BodyLinesAppend(fields, [f]);
    assert [f][..0] == [];
    assert BodyLines([f]) == FieldLines(f);
    AppendRegroup([Header(tableName)], BodyLines(fields), FieldLines(f), ["};"]);
    JoinConcat([Header(tableName)] + BodyLines(fields), FieldLines(f) + ["};"], "\n");
  }

  /** Joining two non-empty lists puts one separator between their joins. */
  lemma {:induction false} JoinConcat(a: seq<string>, b: seq<string>, sep: string)
    requires a != [] && b != []
    decreases |a|
    ensures Join(a + b, sep) == Join(a, sep) + sep + Join(b, sep)
  {
    assert (a + b)[0] == a[0];
    assert (a + b)[1..] == a[1..] + b;
    if |a| > 1 {
      JoinConcat(a[1..], b, sep);
    }
  }

  // ---------------------------------------------------------------------------
  // The whole block
  // ---------------------------------------------------------------------------

  /** `"name"` */
  function Quoted(name: string): string {
    "\"" + name + "\""
  }

  /** The quoted table names, in order. */
  function QuotedNames(names: seq<string>): (qs: seq<string>)
    ensures |qs| == |names|
    ensures forall i :: 0 <= i < |names| ==> qs[i] == Quoted(names[i])
  {
    seq(|names|, i requires 0 <= i < |names| => Quoted(names[i]))
  }

  /** The `TableName` union statement: every table name quoted, joined by " | ". */
  function TableNameLine(names: seq<string>): string {
    "export type TableName = " + Join(QuotedNames(names), " | ") + ";"
  }

  /** The member of `TableTypes` for one table. */
  function MemberLine(name: string): string {
    name + ": " + Capitalize.Capitalize(name) + ";"
  }

  /** The members of `TableTypes`, one per table, in order. */
  function MemberLines(names: seq<string>): (ms: seq<string>)
    ensures |ms| == |names|
    ensures forall i :: 0 <= i < |names| ==> ms[i] == MemberLine(names[i])
  {
    seq(|names|, i requires 0 <= i < |names| => MemberLine(names[i]))
  }

  /** The head of the `TableTypes` interface. */
  const InterfaceHead: string := "export interface TableTypes extends Record<TableName, Record<string, unknown>> {\n    "

  /** The block `addTableTypes` adds, given the table names and the rendered tables. */
  function Content(names: seq<string>, rendered: seq<string>): string {
    TableNameLine(names) + "\n\n" + Join(rendered, "\n") + "\n\n"
    + InterfaceHead + Join(MemberLines(names), "\n\t") + "\n}\n        "
  }

  /** The names of the tables, in order. */
  function Names(tables: seq<TableMeta>): (ns: seq<string>)
    ensures |ns| == |tables|
    ensures forall i :: 0 <= i < |tables| ==> ns[i] == tables[i].name
  {
    seq(|tables|, i requires 0 <= i < |tables| => tables[i].name)
  }

  /** The field lists of the tables, in order. */
  function FieldLists(tables: seq<TableMeta>): (fs: seq<seq<Field>>)
    reads set t | t in tables
    ensures |fs| == |tables|
    ensures forall i :: 0 <= i < |tables| ==> fs[i] == tables[i].fields
  {
    seq(|tables|, i reads set t | t in tables requires 0 <= i < |tables| => tables[i].fields)
  }

  /** The table object `t` is among the first `n` tables. */
  predicate InPrefix(tables: seq<TableMeta>, t: TableMeta, n: nat) {
    exists j :: 0 <= j < n && j < |tables| && tables[j] == t
  }

  /** The same table object appears earlier in the list. */
  predicate SeenBefore(tables: seq<TableMeta>, i: nat)
    requires i < |tables|
  {
    InPrefix(tables, tables[i], i)
  }

  /**
   * What the `i`-th `generateTableType` call of the `map` returns, given the field lists
   * before the first call: a table object met a second time has had its fields drained already.
   */
  function RenderOne(tables: seq<TableMeta>, fields: seq<seq<Field>>, i: nat): string
    requires |fields| == |tables| && i < |tables|
  {
    TableTypeText(tables[i].name, tables[i].isSchemafull, if SeenBefore(tables, i) then [] else fields[i])
  }

  /** What the first `n` calls of the `map` return. */
  function Rendered(tables: seq<TableMeta>, fields: seq<seq<Field>>, n: nat): (rs: seq<string>)
    requires |fields| == |tables| && n <= |tables|
    ensures |rs| == n
  {
    if n == 0 then [] else Rendered(tables, fields, n - 1) + [RenderOne(tables, fields, n - 1)]
  }

  /**
   * `tables.map(generateTableType)`: renders the tables in order, draining the field list of
   * every schemaful table.
   */
  method RenderTables(tables: seq<TableMeta>) returns (rendered: seq<string>)
    modifies set t | t in tables
    ensures rendered == Rendered(tables, old(FieldLists(tables)), |tables|)
    ensures forall t :: t in tables ==> t.fields == if t.isSchemafull then [] else old(t.fields)
  {
    ghost var before := FieldLists(tables);
    ghost var done: set<TableMeta> := {};
    rendered := [];
    for i := 0 to |tables|
      invariant rendered == Rendered(tables, before, i)
      invariant forall u :: u in done <==> InPrefix(tables, u, i)
      invariant forall k :: 0 <= k < |tables| ==>
                  tables[k].fields == if tables[k].isSchemafull && tables[k] in done then [] else before[k]
    {
      var s := RenderNext(tables, i, before, done);
      rendered := rendered + [s];
      DoneStep(tables, i, done);
      done := done + {tables[i]};
    }
    AllDone(tables, done);
  }

  /** One call of the `map`: renders the `i`-th table, given the tables the earlier calls have drained. */
  method RenderNext(tables: seq<TableMeta>, i: nat, ghost before: seq<seq<Field>>, ghost done: set<TableMeta>)
    returns (s: string)
    requires i < |tables| && |before| == |tables|
    requires forall u :: u in done <==> InPrefix(tables, u, i)
    requires forall k :: 0 <= k < |tables| ==>
               tables[k].fields == if tables[k].isSchemafull && tables[k] in done then [] else before[k]
    modifies tables[i]
    ensures s == RenderOne(tables, before, i)
    ensures forall k :: 0 <= k < |tables| ==>
              tables[k].fields == if tables[k].isSchemafull && tables[k] in done + {tables[i]} then [] else before[k]
  {
    RenderedAt(tables, before, i, tables[i].fields);
    s := GenerateTableType(tables[i]);
  }

  /** The `i`-th rendering is made from the fields the table holds when its turn comes. */
  lemma RenderedAt(tables: seq<TableMeta>, before: seq<seq<Field>>, i: nat, fields: seq<Field>)
    requires |before| == |tables| && i < |tables|
    requires fields == if tables[i].isSchemafull && SeenBefore(tables, i) then [] else before[i]
    ensures RenderOne(tables, before, i) == TableTypeText(tables[i].name, tables[i].isSchemafull, fields)
  {
  }

  /** The `i`-th of the first `n` renderings is the `i`-th call's result. */
  lemma {:induction false} RenderedIndex(tables: seq<TableMeta>, fields: seq<seq<Field>>, n: nat, i: nat)
    requires |fields| == |tables| && i < n <= |tables|
    decreases n
    ensures Rendered(tables, fields, n)[i] == RenderOne(tables, fields, i)
  {
    if i < n - 1 {
      RenderedIndex(tables, fields, n - 1, i);
    }
  }

  /**
   * `addTableTypes`: adds one statement holding the `TableName` union, every table's alias
   * and the `TableTypes` interface; every schemaful table's field list is left empty.
   */
  method AddTableTypes(genFile: GenerateMod.GenFile, tables: seq<TableMeta>)
    modifies genFile, set t | t in tables
    ensures genFile.statements
            == old(genFile.statements) + [GenerateMod.Source(Content(Names(tables), Rendered(tables, old(FieldLists(tables)), |tables|)))]
    ensures forall t :: t in tables ==> t.fields == if t.isSchemafull then [] else old(t.fields)
  {
    var tableNameType := Join(QuotedNames(Names(tables)), " | ");
    var rendered := RenderTables(tables);
    var newContent := "export type TableName = " + tableNameType + ";" + "\n\n" + Join(rendered, "\n") + "\n\n"
      + InterfaceHead + Join(MemberLines(Names(tables)), "\n\t") + "\n}\n        ";
    genFile.AddStatements([GenerateMod.Source(newContent)]);
  }

  /** One more table: a table object is among the first `i + 1` exactly when it is among the first `i` or is the `i`-th. */
  lemma InPrefixStep(tables: seq<TableMeta>, i: nat, u: TableMeta)
    requires i < |tables|
    ensures InPrefix(tables, u, i + 1) <==> InPrefix(tables, u, i) || tables[i] == u
  {
  }

  /** The set of tables met so far grows by the `i`-th table. */
  lemma DoneStep(tables: seq<TableMeta>, i: nat, done: set<TableMeta>)
    requires i < |tables| && forall u :: u in done <==> InPrefix(tables, u, i)
    ensures forall u :: u in done + {tables[i]} <==> InPrefix(tables, u, i + 1)
  {
    forall u ensures InPrefix(tables, u, i + 1) <==> u in done || u == tables[i] {
      InPrefixStep(tables, i, u);
    }
  }

  /** Once every table has had its turn, every table has been met. */
  lemma AllDone(tables: seq<TableMeta>, done: set<TableMeta>)
    requires forall u :: u in done <==> InPrefix(tables, u, |tables|)
    ensures forall k :: 0 <= k < |tables| ==> tables[k] in done
  {
    forall k | 0 <= k < |tables|
      ensures tables[k] in done
    {
      assert InPrefix(tables, tables[k], |tables|);
    }
  }

  /** Distinct tables (as `extractTableMeta` produces) are each rendered from their own fields. */
  lemma RenderedDistinct(tables: seq<TableMeta>, fields: seq<seq<Field>>, i: nat)
    requires |fields| == |tables| && i < |tables|
    requires forall j :: 0 <= j < i ==> tables[j] != tables[i]
    ensures Rendered(tables, fields, |tables|)[i] == TableTypeText(tables[i].name, tables[i].isSchemafull, fields[i])
  {
    RenderedIndex(tables, fields, |tables|, i);
  }

  /** A schemaful table listed twice is rendered the second time as an empty type literal. */
  lemma RenderedRepeat(tables: seq<TableMeta>, fields: seq<seq<Field>>, j: nat, i: nat)
    requires |fields| == |tables| && j < i < |tables| && tables[j] == tables[i] && tables[i].isSchemafull
    ensures Rendered(tables, fields, |tables|)[i] == Header(tables[i].name) + "\n};"
  {
    RenderedIndex(tables, fields, |tables|, i);
    assert SeenBefore(tables, i);
    EmptyTableText(tables[i].name);
  }

  /** Two tables: the union and the members list each table once, in order. */
  lemma TwoTables(a: string, b: string)
    ensures TableNameLine([a, b]) == "export type TableName = " + (Quoted(a) + " | " + Quoted(b)) + ";"
    ensures Join(MemberLines([a, b]), "\n\t") == MemberLine(a) + "\n\t" + MemberLine(b)
  {
    JoinTwo(QuotedNames([a, b]), " | ");
    JoinTwo(MemberLines([a, b]), "\n\t");
  }

  /** The join of two parts. */
  lemma JoinTwo(parts: seq<string>, sep: string)
    requires |parts| == 2
    ensures Join(parts, sep) == parts[0] + sep + parts[1]
  {
    assert Join(parts[1..], sep) == parts[1];
  }

  /** The union names every table, in order: each quoted name is found in it. */
  lemma TableNameLists(names: seq<string>, i: nat)
    requires i < |names|
    ensures Contains(TableNameLine(names), Quoted(names[i]))
    ensures Contains(Join(MemberLines(names), "\n\t"), MemberLine(names[i]))
  {
    JoinHas(QuotedNames(names), " | ", i);
    var u := Join(QuotedNames(names), " | ");
    var k :| OccursAt(u, Quoted(names[i]), k);
    assert TableNameLine(names) == "export type TableName = " + u + ";";
    OccursShift("export type TableName = ", u, ";", Quoted(names[i]), k);
    JoinHas(MemberLines(names), "\n\t", i);
    var m := Join(MemberLines(names), "\n\t");
    var l :| OccursAt(m, MemberLine(names[i]), l);
    ContainsAt(m, MemberLine(names[i]), l);
  }

  /** Every part occurs in the join. */
  lemma {:induction false} JoinHas(parts: seq<string>, sep: string, i: nat)
    requires i < |parts|
    decreases |parts|
    ensures exists k :: OccursAt(Join(parts, sep), parts[i], k)
  {
    if |parts| == 1 {
      assert OccursAt(Join(parts, sep), parts[i], 0);
    } else {
      var rest := Join(parts[1..], sep);
      assert Join(parts, sep) == parts[0] + sep + rest;
      if i == 0 {
        assert OccursAt(Join(parts, sep), parts[0], 0);
      } else {
        JoinHas(parts[1..], sep, i - 1);
        var k :| OccursAt(rest, parts[1..][i - 1], k);
        OccursShift(parts[0] + sep, rest, [], parts[i], k);
        assert parts[0] + sep + rest + [] == Join(parts, sep);
      }
    }
  }

  /** An occurrence inside the middle of a concatenation is an occurrence in the whole. */
  lemma OccursShift(a: string, b: string, c: string, t: string, k: nat)
    requires OccursAt(b, t, k)
    ensures OccursAt(a + b + c, t, |a| + k)
    ensures Contains(a + b + c, t)
  {
    assert (a + b + c)[|a| + k..|a| + k + |t|] == b[k..k + |t|];
    ContainsAt(a + b + c, t, |a| + k);
  }
}
