/**
 * The table-level assembly of lib/generate/mod.ts: one block of statements per table of the
 * database, in the database's order, followed by the `TableName` union and the `TableTypes`
 * interface over all table names. The statements go to the output file, which the loop
 * appends to in place.
 */
module GenerateMod {
  import opened Wrappers
  import opened Strings
  import opened TypeNodes
  import opened Seqs
  import Capitalize
  import opened DbInfo
  import TableType

  /** A type alias declaration `export type <name> = <ty>`. */
  datatype AliasDecl = AliasDecl(name: string, ty: TypeNode)

  /** A statement of the generated file. */
  datatype Statement =
    | Source(text: string)                               // a statement given as source text
    | Commented(decl: AliasDecl, comment: seq<string>)   // a declaration with a leading block comment of these lines
    | NameUnion(name: string, members: seq<string>)      // `export type <name> = "a" | "b" | ...`
    | TableTypesInterface(tables: seq<string>)           // `interface TableTypes ... { a: A; ... }`

  /** The output file: the statements added so far, in order. */
  class GenFile {
    var statements: seq<Statement>

    constructor ()
      ensures statements == []
    {
      statements := [];
    }

    /** `addStatements`: appends, keeping everything added before. */
    method AddStatements(more: seq<Statement>)
      modifies this
      ensures statements == old(statements) + more
    {
      statements := statements + more;
    }
  }

  /** The error thrown when the database holds no tables. */
  const EmptyDatabase: string := "Your database is empty. Perhaps you forgot to run migrations"

  /** The block comment above a schemaless table's alias. */
  function DefinitionComment(definition: string): string {
    "/**\n * Definition:\n * ```sql\n * " + definition + "\n * ```\n */"
  }

  /** The type a schemaless table is given: any record. */
  const RecordType: string := "Record<string, unknown>"

  /** The alias of a schemaless table. */
  function RecordAlias(tableName: string): string {
    "export type " + Capitalize.Capitalize(tableName) + " = " + RecordType + ";"
  }

  /** The comment lines attached to a schemaful table's alias. */
  function AliasComment(definition: string): seq<string> {
    ["Definition:", "```sql", definition, "```"]
  }

  /** `Object.entries(fd).map(([name, definition]) => ({ name, definition }))` */
  function FieldInfos(fd: seq<Entry>): (fields: seq<FieldInfo>)
    ensures |fields| == |fd|
  {
    seq(|fd|, i requires 0 <= i < |fd| => FieldInfo(fd[i].key, fd[i].value))
  }

  /**
   * `createTableTypeAlias`: the alias of a schemaful table, built from its fields in `fd` order;
   * `info` holds the `fd` entries of every table whose `INFO FOR TABLE` answered.
   */
  function CreateTableTypeAlias(tableName: string, info: map<string, seq<Entry>>): (r: Result<AliasDecl, string>)
    ensures r.Err? <==> tableName !in info
    ensures r.Err? ==> r.error == "ERROR!"
    ensures r.Ok? ==> r.value.name == Capitalize.Capitalize(tableName)
  {
    if tableName !in info then Err("ERROR!")
    else Ok(AliasDecl(Capitalize.Capitalize(tableName), TableType.CreateTableType(FieldInfos(info[tableName]), None)))
  }

  /** The statements one table contributes, or None when its alias cannot be built. */
  function TableStatements(e: Entry, info: map<string, seq<Entry>>): Option<seq<Statement>> {
    if !IsSchemafull(e.value) then
      Some([Source(DefinitionComment(e.value)), Source(RecordAlias(e.key))])
    else
      match CreateTableTypeAlias(e.key, info)
      case Err(_) => None
      case Ok(decl) => Some([Commented(decl, AliasComment(e.value))])
  }

  /** What the loop over the tables has emitted, and whether it stopped on a table without info. */
  datatype Emitted = Emitted(stmts: seq<Statement>, failed: bool)

  /** The per-table step of the loop, as a function value. */
  function Step(info: map<string, seq<Entry>>): Entry -> Option<seq<Statement>> {
    e => TableStatements(e, info)
  }

  /**
   * The loop over `tb`, table by table, with per-table step `step`; once a table fails
   * nothing further is emitted.
   */
  function Emit(tb: seq<Entry>, step: Entry -> Option<seq<Statement>>): Emitted
    decreases |tb|
  {
    if tb == [] then Emitted([], false)
    else
      var prev := Emit(tb[..|tb| - 1], step);
      if prev.failed then prev
      else match step(tb[|tb| - 1])
        case None => Emitted(prev.stmts, true)
        case Some(ss) => Emitted(prev.stmts + ss, false)
  }

  /**
   * `addTablesWithTypes`, with the database's answers as inputs: `dbInfo` is the `tb` record
   * of `INFO FOR DB` (None when the query gave nothing).
   */
  method AddTablesWithTypes(dbInfo: Option<seq<Entry>>, info: map<string, seq<Entry>>, genFile: GenFile)
    returns (r: Result<(), string>)
    modifies genFile
    ensures dbInfo.None? ==> r == Err("Error") && genFile.statements == old(genFile.statements)
    ensures dbInfo == Some([]) ==> r == Err(EmptyDatabase) && genFile.statements == old(genFile.statements)
    ensures dbInfo.Some? && dbInfo.value != [] ==>
              var e := Emit(dbInfo.value, Step(info));
              (r.Err? <==> e.failed) && (r.Err? ==> r.error == "ERROR!")
              && genFile.statements
                 == old(genFile.statements) + e.stmts
                    + (if e.failed then []
                       else [NameUnion("TableName", Keys(dbInfo.value)), TableTypesInterface(Keys(dbInfo.value))])
  {
    if dbInfo.None? {
      return Err("Error");
    }
    var tb := dbInfo.value;
    var tableNames := Keys(tb);
    if |tableNames| == 0 {
      return Err(EmptyDatabase);
    }
    for i := 0 to |tb|
      invariant genFile.statements == old(genFile.statements) + Emit(tb[..i], Step(info)).stmts
      invariant !Emit(tb[..i], Step(info)).failed
    {
      EmitStep(tb, i, Step(info));
      var added := AddTable(tb[i], info, genFile);
      if added.Err? {
        EmitStops(tb, i + 1, Step(info));
        return Err(added.error);
      }
    }
    assert tb[..|tb|] == tb;
    genFile.AddStatements([NameUnion("TableName", tableNames), TableTypesInterface(tableNames)]);
    return Ok(());
  }

  /** The loop body of `addTablesWithTypes`: one table's statements, or "ERROR!" when its alias cannot be built. */
  method AddTable(e: Entry, info: map<string, seq<Entry>>, genFile: GenFile) returns (r: Result<(), string>)
    modifies genFile
    ensures r.Ok? <==> TableStatements(e, info).Some?
    ensures r.Err? ==> r.error == "ERROR!"
    ensures genFile.statements == old(genFile.statements) + (if r.Ok? then TableStatements(e, info).value else [])
  {
    if !IsSchemafull(e.value) {
      genFile.AddStatements([Source(DefinitionComment(e.value)), Source(RecordAlias(e.key))]);
    } else {
      var alias := CreateTableTypeAlias(e.key, info);
      if alias.Err? {
        return Err(alias.error);
      }
      genFile.AddStatements([Commented(alias.value, AliasComment(e.value))]);
    }
    return Ok(());
  }

  // ---------------------------------------------------------------------------
  // Properties of the loop
  // ---------------------------------------------------------------------------

  /** One more table: the loop either stops on it or appends its statements. */
  lemma EmitStep(tb: seq<Entry>, i: nat, step: Entry -> Option<seq<Statement>>)
    requires i < |tb| && !Emit(tb[..i], step).failed
    ensures step(tb[i]).None? ==> Emit(tb[..i + 1], step) == Emitted(Emit(tb[..i], step).stmts, true)
    ensures step(tb[i]).Some? ==> Emit(tb[..i + 1], step) == Emitted(Emit(tb[..i], step).stmts + step(tb[i]).value, false)
  {
    assert tb[..i + 1][..i] == tb[..i];
  }

  /** Once the loop has stopped on a table, the later tables change nothing. */
  lemma {:induction false} EmitStops(tb: seq<Entry>, k: nat, step: Entry -> Option<seq<Statement>>)
    requires k <= |tb| && Emit(tb[..k], step).failed
    decreases |tb| - k
    ensures Emit(tb, step) == Emit(tb[..k], step)
  {
    if k < |tb| {
      assert tb[..k + 1][..k] == tb[..k];
      EmitStops(tb, k + 1, step);
    } else {
      assert tb[..k] == tb;
    }
  }

  /** One table stops the loop exactly when it is schemaful and has no table info. */
  lemma StepNone(e: Entry, info: map<string, seq<Entry>>)
    ensures Step(info)(e).None? <==> IsSchemafull(e.value) && e.key !in info
  {
  }

  /** The loop fails exactly when the step fails on some table. */
  lemma {:induction false} EmitFailsIff(tb: seq<Entry>, step: Entry -> Option<seq<Statement>>)
    decreases |tb|
    ensures Emit(tb, step).failed <==> exists i :: 0 <= i < |tb| && step(tb[i]).None?
  {
    if tb != [] {
      var init := tb[..|tb| - 1];
      EmitFailsIff(init, step);
      assert forall i :: 0 <= i < |init| ==> init[i] == tb[i];
      if Emit(init, step).failed {
        var i :| 0 <= i < |init| && step(init[i]).None?;
        assert tb[i] == init[i];
      }
    }
  }

  /** Tables are emitted in `tb` order: the statements of a concatenation are those of each part. */
  lemma {:induction false} EmitAppend(a: seq<Entry>, b: seq<Entry>, step: Entry -> Option<seq<Statement>>)
    requires !Emit(a, step).failed
    decreases |b|
    ensures Emit(a + b, step).failed == Emit(b, step).failed
    ensures Emit(a + b, step).stmts == Emit(a, step).stmts + Emit(b, step).stmts
  {
    if b == [] {
      assert a + b == a;
    } else {
      var init := b[..|b| - 1];
      assert (a + b)[..|a + b| - 1] == a + init;
      assert (a + b)[|a + b| - 1] == b[|b| - 1];
      EmitAppend(a, init, step);
    }
  }

  /** A run that succeeds has succeeded on every prefix. */
  lemma EmitPrefixOk(tb: seq<Entry>, k: nat, step: Entry -> Option<seq<Statement>>)
    requires k <= |tb| && !Emit(tb, step).failed
    ensures !Emit(tb[..k], step).failed
  {
    if Emit(tb[..k], step).failed {
      EmitStops(tb, k, step);
    }
  }

  /** Every table of a successful run contributes its statements at its position in `tb`. */
  lemma EmitAt(tb: seq<Entry>, step: Entry -> Option<seq<Statement>>, i: nat)
    requires i < |tb| && !Emit(tb, step).failed
    ensures step(tb[i]).Some?
    ensures Emit(tb, step).stmts == Emit(tb[..i], step).stmts + step(tb[i]).value + Emit(tb[i + 1..], step).stmts
  {
    EmitPrefixOk(tb, i, step);
    EmitPrefixOk(tb, i + 1, step);
    EmitStep(tb, i, step);
    SplitAt(tb, i + 1);
    EmitAppend(tb[..i + 1], tb[i + 1..], step);
  }

  /** When the loop fails, what it emitted is exactly the statements of the tables before the first bad one. */
  lemma EmitFailedPrefix(tb: seq<Entry>, step: Entry -> Option<seq<Statement>>, k: nat)
    requires k < |tb| && step(tb[k]).None?
    requires forall j :: 0 <= j < k ==> step(tb[j]).Some?
    ensures Emit(tb, step).failed
    ensures Emit(tb, step).stmts == Emit(tb[..k], step).stmts && !Emit(tb[..k], step).failed
  {
    EmitFailsIff(tb[..k], step);
    assert forall j :: 0 <= j < k ==> tb[..k][j] == tb[j];
    assert tb[..k + 1][..k] == tb[..k];
    assert tb[..k + 1][k] == tb[k];
    EmitStops(tb, k + 1, step);
  }

  /**
   * The migration runner's own bookkeeping table is not filtered out: a successful run
   * emits its statements at its position, and names it in `TableName` and `TableTypes`.
   */
  lemma MigrationsTableEmitted(tb: seq<Entry>, info: map<string, seq<Entry>>, i: nat)
    requires i < |tb| && tb[i].key == MigrationsTable && !Emit(tb, Step(info)).failed
    ensures TableStatements(tb[i], info).Some? && TableStatements(tb[i], info).value != []
    ensures Emit(tb, Step(info)).stmts
            == Emit(tb[..i], Step(info)).stmts + TableStatements(tb[i], info).value + Emit(tb[i + 1..], Step(info)).stmts
    ensures MigrationsTable in Keys(tb)
  {
    EmitAt(tb, Step(info), i);
  }

  // ---------------------------------------------------------------------------
  // Properties of one table's statements
  // ---------------------------------------------------------------------------

  /**
   * A schemaless table is described by its raw definition in a comment and a
   * `Record<string, unknown>` alias named after it, whatever the table info says: its
   * fields are never fetched.
   */
  lemma SchemalessStatements(e: Entry, info: map<string, seq<Entry>>, other: map<string, seq<Entry>>)
    requires !IsSchemafull(e.value)
    ensures TableStatements(e, info) == TableStatements(e, other)
    ensures TableStatements(e, info).Some? && |TableStatements(e, info).value| == 2
    ensures Contains(TableStatements(e, info).value[0].text, e.value)
    ensures StartsWith(TableStatements(e, info).value[1].text, "export type " + Capitalize.Capitalize(e.key))
  {
    var pre := "/**\n * Definition:\n * ```sql\n * ";
    assert DefinitionComment(e.value) == pre + e.value + "\n * ```\n */";
    ContainsInfix(pre, e.value, "\n * ```\n */");
    var head := "export type " + Capitalize.Capitalize(e.key);
    assert RecordAlias(e.key) == head + (" = " + RecordType + ";");
    assert RecordAlias(e.key)[..|head|] == head;
  }

  /**
   * A schemaful table is described by one alias named after it, commented with its raw
   * definition, whose type is the reconstructed tree of its fields in `fd` order: a type
   * literal with one property per top-level field path; without table info it fails.
   */
  lemma SchemafulStatements(e: Entry, info: map<string, seq<Entry>>)
    requires IsSchemafull(e.value)
    ensures TableStatements(e, info).None? <==> e.key !in info
    ensures e.key in info ==>
              var fields := FieldInfos(info[e.key]);
              var ss := TableStatements(e, info).value;
              |ss| == 1 && ss[0].Commented? && ss[0].comment[2] == e.value
              && ss[0].decl.name == Capitalize.Capitalize(e.key)
              && ss[0].decl.ty == TableType.CreateTableType(fields, None)
              && ss[0].decl.ty.Literal?
              && |ss[0].decl.ty.props| == |TableType.BaseFields(fields, None)|
              && forall i :: 0 <= i < |ss[0].decl.ty.props| ==>
                   ss[0].decl.ty.props[i].name == TableType.BaseFields(fields, None)[i].name
  {
    if e.key in info {
      TableType.TopLevelShape(FieldInfos(info[e.key]));
    }
  }
}
