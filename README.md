# SurrealX type generation, modelled in Dafny

SurrealX reads the schema of a SurrealDB database and writes a TypeScript file with one
type per table. This project models the computational core of that generator and proves
properties of it:

- **The field-path tree reconstructor** `createTableType`
  (lib/generate/utils/createTableType.ts). It takes the flat, ordered `{ name, definition }`
  records of one table and rebuilds the nested type they describe. `name.first` is a property
  of the object `name`, `comments[*]` the element of the array `comments`, `matrix[*][*]` the
  element of an element. Module `TableType`. The repository's own test cases are proved as
  exact equalities of type trees in `TableTypeExamples`.
- **The older variant** of that reconstructor (src/generate/utils/createTableType.ts), with
  its weaker nested filter, `\w+` kind regex and lookup-table leaf mapping. Module
  `LegacyTableType`. It is compared with the current variant, and its embedded test is
  proved in `LegacyTableTypeExamples`.
- **The table-level assembly**:
  - `addTablesWithTypes` / `createTableTypeAlias` (lib/generate/mod.ts), module `GenerateMod`;
  - `extractTableMeta` (src/generate/extractTableInfo.ts), module `ExtractTableInfo`;
  - the line-by-line renderer `generateTableType` / `addTableTypes`
    (src/generate/generateTableTypes.ts), module `GenerateTableTypes`;
  - `getTablesWithTypes` and the statement assembly of src/generate/index.ts, module
    `GenerateIndex`.
- **`capitalize`** (src/utils/capitalize.ts), module `Capitalize`. lib/generate/mod.ts:5 imports
  its own `./utils/capitalize.ts`, which is not part of this model. The src version stands in for
  it, and agrees with the lib test's example (lib/generate/utils/tests/capitalize.test.ts:5).

Shared pieces:
- `TypeNodes`: the type tree, standing in for a TypeScript compiler `TypeNode`, and the path grammar.
- `Strings`: the JavaScript string operations the code relies on. `replace` with a string
  pattern changes the first occurrence only. The three regular expressions are written out as
  explicit leftmost-match predicates.
- `DbInfo`: the database answers, as `Object.entries` lists.
- `Seqs`: `filter` and sequence facts.

The database queries are not modelled; their answers are inputs:
- The `tb` record of `INFO FOR DB` is an `Option<seq<Entry>>`. `None` is a query that gave nothing.
- The `fd` records of `INFO FOR TABLE` are a map from table name to entries. A table missing
  from the map is a query that gave nothing.

Forms follow the code:
- The reconstructors are recursive functions.
- The loops are methods with invariants, proved against specification functions:
  - `Emit` for the loop over tables;
  - `FieldsOf` for the fields loop;
  - `TableTypeText` for the draining renderer;
  - `Rendered` for `tables.map(generateTableType)`.
- The output file is a class `GenFile` whose statement list methods append to.
- `TableMeta` is a class whose `fields` list the renderer drains in place.

A `throw` is modelled as an `Err` result carrying the thrown message.

The migration runner keeps its bookkeeping in a table named `_surrealx_migrations`
(lib/migrate/run.ts:8). The generator's loop (lib/generate/mod.ts:53) iterates over every
table of `INFO FOR DB` without filtering, so that table gets a type like any other.
`GenerateMod.MigrationsTableEmitted` proves that it is emitted and named.

## Model

| member | source | states |
|---|---|---|
| TableType.KindOf | lib/generate/utils/createTableType.ts:30-33 | the kind read from a definition; characterised by KindOfDefineField, KindOfDefault and KindOfIsToken |
| TableType.KindOfDefineField | lib/generate/utils/createTableType.ts:30-33 | the kind is the whole non-whitespace run after the first "TYPE ", so `record(user)` is kept whole, whatever precedes the keyword as long as no "TYPE " starts there (a field named `userType` does not disturb it) |
| TableType.KindOfDefault | lib/generate/utils/createTableType.ts:31 | a definition without "TYPE " has kind "string" |
| TableType.KindOfIsToken | lib/generate/utils/createTableType.ts:30-33 | every kind is non-empty and holds no whitespace |
| TableType.TsTypeOfKind | lib/generate/utils/createTableType.ts:5-26 | the leaf type of a kind; characterised by TsTypeOfKindTable, TsTypeOfKindIgnoresArguments, TsTypeOfRecord, TsTypeOfRecordUnknown and TsTypeOfKindIsLeaf |
| TableType.TsTypeOfKindTable | lib/generate/utils/createTableType.ts:5-26 | string/datetime map to string, int/decimal/float to number, bool to boolean, a bare `record` to `Id<"unknown">`, every other kind (object and array included) to unknown |
| TableType.TsTypeOfKindIgnoresArguments | lib/generate/utils/createTableType.ts:6 | only the text before the first "(" selects the mapping (except for record) |
| TableType.ParenWordGroup | lib/generate/utils/createTableType.ts:18 | `/\((\w+)\)/` captures the word in the first parenthesised word |
| TableType.TsTypeOfRecord | lib/generate/utils/createTableType.ts:17-22 | `record(t)` with a word `t` maps to a reference to table `t` |
| TableType.TsTypeOfRecordUnknown | lib/generate/utils/createTableType.ts:18 | `record(t)` whose parentheses hold no word (empty or with a non-word character) maps to `Id<"unknown">` |
| TableType.TsTypeOfKindIsLeaf | lib/generate/utils/createTableType.ts:5-26 | the mapping only produces leaves: a keyword or a table reference |
| TableType.BaseFields | lib/generate/utils/createTableType.ts:46-63 | the base fields are drawn from the input and are never more numerous |
| TableType.IsDirectChild | lib/generate/utils/createTableType.ts:53-62 | the nested level's test on a field name; characterised by LeaveOfChild, PlainLeave, DirectChildIff and the element lemmas below |
| TableType.BaseFieldsMembers | lib/generate/utils/createTableType.ts:46-63 | a field is a base field exactly when it is in the input and passes the level's test |
| TableType.BaseFieldsAppend | lib/generate/utils/createTableType.ts:49-62 | base-field selection keeps input order: selecting from a concatenation selects from each part |
| TableType.BaseFieldsAll | lib/generate/utils/createTableType.ts:49-62 | a list whose fields all pass is its own base |
| TableType.BaseFieldsNone | lib/generate/utils/createTableType.ts:49-62 | a list none of whose fields passes has no base field |
| TableType.CreateTableType | lib/generate/utils/createTableType.ts:38-144 | the reconstructed type of one level; characterised by TopLevelShape, TopLevelIsLiteral, FlatTable, ArrayOfElement and the scenarios |
| TableType.FieldType | lib/generate/utils/createTableType.ts:65-140 | the type of one field; characterised by ArrayOfElement and FieldTypeAmongDescendants |
| TableType.PropOf | lib/generate/utils/createTableType.ts:86-141 | the property of one field; characterised by TopLevelShape |
| TableType.Props | lib/generate/utils/createTableType.ts:86-141 | one property per base field |
| TableType.FieldTypeAmongDescendants | lib/generate/utils/createTableType.ts:70-79 | a field among the descendants selected by a prefix of its name keeps its type there: narrowing to `name.` or `name[*]` descendants loses nothing a field below needs |
| TableType.BelowElementNotBase | lib/generate/utils/createTableType.ts:53-62 | no path below the element of an array `p` is a base field of `p`. This covers `p[*][*]` for every parent. It covers `p[*][*]<tail>` when "p." does not start before the end of `p[*][*]`, and `p[*].<tail>` when it does not start before the end of `p[*].`. It also covers `p[*].leaf` for a non-empty `p` not ending in `]` when `p` or the leaf is dot-free |
| TableType.LeaveKeepsFront | lib/generate/utils/createTableType.ts:55-58 | when "parent." does not start before position n, the leave begins with the characters between the leading parent and n |
| TableType.MatrixPathExcluded | lib/generate/utils/createTableType.ts:53-62 | `p[*][*]<tail>` in which "p." does not start before the end of `p[*][*]` leaves "[*][*]..." and is excluded at the level of `p` |
| TableType.ElementPathExcluded | lib/generate/utils/createTableType.ts:53-62 | `p[*].<tail>` in which "p." does not start before the end of `p[*].` leaves "[*]." followed by more and is excluded at the level of `p` |
| TableType.MatrixPathBelow | lib/generate/utils/createTableType.ts:53-84 | for every parent that starts with a word character not recurring in the path, every `p[*][*]<tail>` lies below the element. Examples are a matrix of objects and a three-dimensional matrix |
| TableType.ObjectPathBelow | lib/generate/utils/createTableType.ts:53-84 | for every such parent, every `p[*].<tail>` lies below the element, however deep. An example is a nested array of objects under a dotted parent such as `a.b[*].c.d` |
| TableType.ElementAlone | lib/generate/utils/createTableType.ts:53-65 | when every other descendant lies below the element, the level of `p` has the element `p[*]` as its only base field |
| TableType.ArrayOfElement | lib/generate/utils/createTableType.ts:65-126 | for every array field `p` whose `p[*]` descendants are the element once plus only paths below it (BelowElement, the cases listed for BelowElementNotBase): the field's type is an array of the element's type; a leaf element gives an array of its kind's mapping, an object element an array of the literal of its `p[*].` children |
| TableType.LeaveOfChild | lib/generate/utils/createTableType.ts:55-58 | for a leaf that does not contain the parent, stripping the first "parent." and then "parent" from `parent.leaf` leaves `leaf` |
| TableType.PlainLeave | lib/generate/utils/createTableType.ts:59-60 | a leave without dots and markers names one property |
| TableType.DirectChildIff | lib/generate/utils/createTableType.ts:53-62 | for a leaf that does not contain the parent, `parent.leaf` is a base field exactly when the leaf has no dot, does not end in word+"[*]" and does not start with "[*][*]" |
| TableType.GrandchildExcluded | lib/generate/utils/createTableType.ts:59 | for a dot-free parent, a grandchild `parent.a.b` is never a base field of `parent` (with a dotted parent the source can keep one: RepeatedParentKept) |
| TableType.RepeatedParentElementKept | lib/generate/utils/createTableType.ts:53-62 | for every parent, `parent.parent[*]` leaves "[*]" and passes the test, such as `a.a[*]` at the level of `a` |
| TableType.LeafElementArray | lib/generate/utils/createTableType.ts:65-84 | for every array path, dotted ones included, an array whose only descendant is its leaf element is an array of that leaf's mapping |
| TableType.RepeatedParentKept | lib/generate/utils/createTableType.ts:53-62 | for every parent, `parent.parent` leaves nothing and passes the test. With a dotted parent this is a grandchild the level keeps, such as `x.y.x.y` at `x.y` |
| TableType.ElementChildNotDirect | lib/generate/utils/createTableType.ts:53-62 | for a non-empty parent not ending in `]`, where the parent or the leaf is dot-free, a child of an element `parent[*].leaf` is not a base field of `parent` |
| TableType.ElementFieldNotDirect | lib/generate/utils/createTableType.ts:53-62 | the same, under the same conditions, with the path spelled through the element marker |
| TableType.ElementPathWithoutParentDot | lib/generate/utils/createTableType.ts:55-59 | when "parent." does not occur, stripping "parent" leaves `[*].leaf`, which has a dot |
| TableType.ElementChildDotSurvives | lib/generate/utils/createTableType.ts:55-59 | when "parent." occurs in `parent[*].leaf`, a dot survives its removal |
| TableType.ElementIsDirectChild | lib/generate/utils/createTableType.ts:53-62 | the element path `parent[*]` is a base field of `parent` |
| TableType.MatrixElementExcluded | lib/generate/utils/createTableType.ts:59-60 | the doubly nested element `parent[*][*]` is not a base field of `parent` |
| TableType.TopLevelShape | lib/generate/utils/createTableType.ts:86-143 | the top level is a literal with one property per top-level path, in input order, named by it, optional iff no not-NONE assertion, commented with its doc text |
| TableType.TopLevelIsLiteral | lib/generate/utils/createTableType.ts:46-65 | the top level is never unwrapped as an element |
| TableType.FlatTable | lib/generate/utils/createTableType.ts:86-143 | with no nested paths the properties are exactly the input fields, in order |
| TableType.DocText | lib/generate/utils/createTableType.ts:106 | the comment text of a definition; characterised by DocReplacesFirstOnly, DocTerminatorAfterReplacement and DocTextFirstTerminator |
| TableType.DocReplacesFirstOnly | lib/generate/utils/createTableType.ts:106 | only the first "*/" is replaced: the comment holds a terminator iff the definition holds a second one |
| TableType.DocTerminatorAfterReplacement | lib/generate/utils/createTableType.ts:106 | a terminator left in the comment text starts after the replacement |
| TableType.DocTextFirstTerminator | lib/generate/utils/createTableType.ts:106 | in `x/y*/post` the terminator after `y` alone is replaced |
| TypeNodes.WithPrefix | lib/generate/utils/createTableType.ts:70-79 | the descendants selected are never more numerous than the input |
| TypeNodes.WithPrefixMembers | lib/generate/utils/createTableType.ts:70-79 | a field is selected exactly when it is in the input and its name starts with the prefix |
| TypeNodes.WithPrefixAppend | lib/generate/utils/createTableType.ts:70-79 | the descendants keep input order |
| TypeNodes.WithPrefixNested | lib/generate/utils/createTableType.ts:70-79 | selecting by a prefix and then by a longer one is selecting by the longer one |
| TypeNodes.ChildrenShrink | lib/generate/utils/createTableType.ts:70-79 | a field's descendants exclude the field itself, so every recursive call gets a strictly shorter list |
| TypeNodes.PropNameTopLevel | lib/generate/utils/createTableType.ts:87 | a top-level path is its own property name |
| TypeNodes.PropNameChild | lib/generate/utils/createTableType.ts:87 | `parent.leaf` is named `leaf` |
| TypeNodes.PropNameChildArray | lib/generate/utils/createTableType.ts:87 | `parent.leaf[*]` is named `leaf` |
| TypeNodes.PropNameElement | lib/generate/utils/createTableType.ts:87 | only the first "[*]" of the last segment is removed |
| TableTypeExamples.RequiredDefinition | lib/generate/utils/createTableType.ts:88-89 | `<pre>TYPE k ASSERT $value != NONE`, with no "TYPE " starting in `pre` and no `/` in `pre` or k, is a required field of kind k, commented verbatim |
| TableTypeExamples.OptionalDefinition | lib/generate/utils/createTableType.ts:88-89 | `<pre>TYPE k`, with no "TYPE " starting in `pre` and no `/` or `!` in `pre` or k, is an optional field of kind k, commented verbatim |
| TableTypeExamples.PatternField | lib/generate/utils/createTableType.ts:88-106 | a field asserting `/pattern*/`, with no "TYPE " starting before the keyword and no `/` or `!` in path, kind or pattern, is optional and its comment has the terminator replaced |
| TableTypeExamples.BasicTypesScenario | lib/generate/utils/tests/createTableType.test.ts:5-36 | the basic-types test: `{ age: number; name?: string }` |
| TableTypeExamples.ObjectsScenario | lib/generate/utils/tests/createTableType.test.ts:38-79 | the objects test: `{ name?: { first: string; last?: string } }` |
| TableTypeExamples.ArrayOfPrimitivesScenario | lib/generate/utils/tests/createTableType.test.ts:81-110 | the arrays-of-primitives test: `{ comments: string[] }` |
| TableTypeExamples.ArrayOfObjectsScenario | lib/generate/utils/tests/createTableType.test.ts:112-165 | the arrays-of-objects test: `{ comments: { id?: string; title?: string }[] }` |
| TableTypeExamples.MatricesScenario | lib/generate/utils/tests/createTableType.test.ts:167-201 | the matrices test: `{ matrix: number[][] }` |
| TableTypeExamples.NestedScenario | lib/generate/utils/tests/createTableType.test.ts:203-281 | the deep-nesting test, grandchildren excluded at every level |
| TableTypeExamples.WordStarChildExcluded | lib/generate/utils/createTableType.ts:59 | an array property's element `parent.w[*]` is not a base field of `parent`, when `w` ends in a word character and some character of the parent occurs neither in `w` nor in `[*]` (when `w` repeats the parent, the source keeps it: RepeatedParentElementKept) |
| LegacyTableType.BaseFields | src/generate/utils/createTableType.ts:29-39 | the base fields are drawn from the input |
| LegacyTableType.BaseFieldsMembers | src/generate/utils/createTableType.ts:29-39 | a field is a base field exactly when it is in the input and passes the level's test |
| LegacyTableType.BaseFieldsAppend | src/generate/utils/createTableType.ts:32-38 | base-field selection keeps input order |
| LegacyTableType.BaseFieldsAll | src/generate/utils/createTableType.ts:32-38 | a list whose fields all pass is its own base |
| LegacyTableType.BaseFieldsNone | src/generate/utils/createTableType.ts:32-38 | a list none of whose fields passes has no base field |
| LegacyTableType.CreateTableType | src/generate/utils/createTableType.ts:21-104 | the older reconstruction of one level; characterised by TopLevelShape, TopLevelAgrees, TopLevelNamesAgree, MatrixNotNested and the embedded scenario |
| LegacyTableType.FieldType | src/generate/utils/createTableType.ts:41-101 | the type of one field; compared with the current variant by ArrayPropertyDuplicated and MatrixNotNested |
| LegacyTableType.PropOf | src/generate/utils/createTableType.ts:65-101 | the property of one field; characterised by TopLevelShape and TopLevelNamesAgree |
| LegacyTableType.Props | src/generate/utils/createTableType.ts:64-103 | one property per base field |
| LegacyTableType.KindOf | src/generate/utils/createTableType.ts:67 | the `\w+` kind of a definition; characterised by KindOfDefineField, KindOfRecord, KindOfDefault, KindOfIsWord and KindAgreesOnWords |
| LegacyTableType.KindOfDefineField | src/generate/utils/createTableType.ts:67 | the kind is the whole word-character run after the first "TYPE ", whatever precedes the keyword as long as no "TYPE " starts there |
| LegacyTableType.KindOfRecord | src/generate/utils/createTableType.ts:67 | `record(t)` gives the kind `record`, with no "TYPE " starting before the keyword |
| LegacyTableType.KindOfDefault | src/generate/utils/createTableType.ts:67 | a definition without "TYPE " has kind "string" |
| LegacyTableType.KindOfIsWord | src/generate/utils/createTableType.ts:67 | every kind is a non-empty word |
| LegacyTableType.KindAgreesOnWords | src/generate/utils/createTableType.ts:67 | where the current kind is a word, both variants read the same kind |
| LegacyTableType.LeafType | src/generate/utils/createTableType.ts:5-14 | the lookup table; characterised by LeafTypeAgrees and BoolMissesTable |
| LegacyTableType.LeafTypeAgrees | src/generate/utils/createTableType.ts:5-14 | on string/int/decimal/float both variants map alike |
| LegacyTableType.TopLevelAgrees | src/generate/utils/createTableType.ts:30-34 | both variants select the same top-level fields |
| LegacyTableType.TopLevelShape | src/generate/utils/createTableType.ts:64-103 | the top level is a literal with one uncommented property per top-level path, in input order |
| LegacyTableType.TopLevelNamesAgree | src/generate/utils/createTableType.ts:64-71 | both variants give the top level the same property names and optionality |
| LegacyTableType.IsDirectChild | src/generate/utils/createTableType.ts:36-38 | the older nested test; characterised by ChildIff and CurrentChildIsChild |
| LegacyTableType.ChildIff | src/generate/utils/createTableType.ts:36-38 | `parent.leaf` is a base field iff the leaf has no dot |
| LegacyTableType.CurrentChildIsChild | src/generate/utils/createTableType.ts:36-38 | every base field of the current variant (dot-free parent) is one of the older |
| LegacyTableType.ElementKept | src/generate/utils/createTableType.ts:36-38 | for every parent, the element path `parent[*]` is a base field exactly when the parent is dot-free; "parent." never occurs in `parent[*]`, so a dot of the parent survives |
| LegacyTableType.ElementChildExcluded | src/generate/utils/createTableType.ts:36-38 | `parent[*].leaf` is not a base field of `parent` when "parent." does not start before the end of `parent[*].`, and also for a non-empty parent not ending in `]` when the parent or the leaf is dot-free |
| LegacyTableType.BoolMissesTable | src/generate/utils/createTableType.ts:5-14 | the kind `bool` misses the table, where the current variant gives boolean |
| LegacyTableType.MatrixCellKept | src/generate/utils/createTableType.ts:36-38 | for every parent, the cell path `parent[*][*]` is a base field of `parent` exactly when the parent is dot-free |
| LegacyTableType.DottedArrayLosesElement | src/generate/utils/createTableType.ts:36-101 | for every dotted array path with its element, the element is dropped and the array's type is `{}[]` |
| LegacyTableType.ArrayElementKept | src/generate/utils/createTableType.ts:36-38 | an array property's element `parent.w[*]` is a base field of `parent` |
| LegacyTableType.ArrayPropertyDuplicated | src/generate/utils/createTableType.ts:36-71 | an array property and its element give two properties both named `w` |
| LegacyTableTypeExamples.SameKind | src/generate/utils/createTableType.ts:67 | on the test's kinds both kind readers agree |
| LegacyTableTypeExamples.CamelCaseFieldName | src/generate/utils/createTableType.ts:67 | `DEFINE FIELD userType ON user TYPE string` has kind `string` in both variants: "Type" in a field name is not the keyword |
| LegacyTableTypeExamples.EmbeddedScenario | src/generate/utils/createTableType.ts:106-157 | the embedded test: `{ age: number; comments: { id?: string; title?: string }[]; name?: { first: string; last?: string } }` |
| LegacyTableTypeExamples.MatrixNotNested | src/generate/utils/createTableType.ts:29-103 | a matrix comes out as an array of a two-property object, not `number[][]` |
| GenerateMod.GenFile.constructor | lib/generate/mod.ts:17-22 | a new output file holds no statements |
| GenerateMod.GenFile.AddStatements | lib/generate/mod.ts:57-86 | adding appends and keeps what was added before |
| GenerateMod.CreateTableTypeAlias | lib/generate/mod.ts:89-107 | fails with "ERROR!" iff the table has no info; the alias is named by the capitalized table |
| GenerateMod.AddTablesWithTypes | lib/generate/mod.ts:36-87 | no info: "Error"; no tables: the empty-database message; otherwise the tables' statements in `tb` order, then the `TableName` union and `TableTypes` over all names, or "ERROR!" with the statements up to the failing table |
| GenerateMod.AddTable | lib/generate/mod.ts:53-79 | one table: its statements appended, or "ERROR!" with nothing appended |
| GenerateMod.TableStatements | lib/generate/mod.ts:53-79 | one table's statements; characterised by SchemalessStatements, SchemafulStatements, StepNone and AddTable |
| GenerateMod.Emit | lib/generate/mod.ts:53-80 | the statements of the loop over tables; characterised by EmitStops, EmitFailsIff, EmitAppend, EmitPrefixOk, EmitAt, EmitFailedPrefix and AddTablesWithTypes |
| GenerateMod.EmitStops | lib/generate/mod.ts:71-94 | once a table fails, the later tables change nothing |
| GenerateMod.StepNone | lib/generate/mod.ts:54-94 | a table fails exactly when it is schemaful and has no table info |
| GenerateMod.EmitFailsIff | lib/generate/mod.ts:53-80 | the loop fails exactly when some table fails |
| GenerateMod.EmitAppend | lib/generate/mod.ts:53-80 | tables are emitted in order: the statements of a concatenation are those of each part |
| GenerateMod.EmitPrefixOk | lib/generate/mod.ts:53-80 | a successful run succeeded on every prefix |
| GenerateMod.EmitAt | lib/generate/mod.ts:53-80 | every table of a successful run contributes its statements at its position |
| GenerateMod.EmitFailedPrefix | lib/generate/mod.ts:53-94 | a failed run emitted exactly the statements of the tables before the first bad one |
| GenerateMod.MigrationsTableEmitted | lib/generate/mod.ts:46-86 | `_surrealx_migrations` is not filtered: it is emitted and named like any table |
| GenerateMod.DefinitionComment | lib/generate/mod.ts:58-63 | the block comment holding a schemaless table's definition; used by SchemalessStatements |
| GenerateMod.RecordAlias | lib/generate/mod.ts:64 | the `Record<string, unknown>` alias; used by SchemalessStatements and GenerateIndex.AliasAgrees |
| GenerateMod.SchemalessStatements | lib/generate/mod.ts:55-66 | a schemaless table gives its raw definition in a comment and a `Record<string, unknown>` alias, whatever the table info |
| GenerateMod.SchemafulStatements | lib/generate/mod.ts:67-106 | a schemaful table fails without info; otherwise one commented alias whose type is the reconstructed tree of its fields in `fd` order |
| DbInfo.IsSchemafull | lib/generate/mod.ts:54 | whether a table definition is schemaful; characterised by SchemafullIff |
| DbInfo.SchemafullIff | lib/generate/mod.ts:54 | a definition is schemaful exactly when "SCHEMAFULL" occurs at some position in it |
| ExtractTableInfo.TableMeta.constructor | src/generate/extractTableInfo.ts:37-41 | a table record with the given name, flag and fields |
| ExtractTableInfo.FieldOf | src/generate/extractTableInfo.ts:33-34 | one field record; characterised by RecordFieldKind and FieldKindShape |
| ExtractTableInfo.FieldsOf | src/generate/extractTableInfo.ts:32-35 | one field per `fd` entry, in order, named by the key, optional, with the `\w+` kind |
| ExtractTableInfo.ReadFields | src/generate/extractTableInfo.ts:32-35 | the inner loop builds `FieldsOf(fd)` |
| ExtractTableInfo.ExtractTableMeta | src/generate/extractTableInfo.ts:16-49 | "Error" when there is no info or a schemaful table lacks table info; otherwise one distinct record per table in order, schemaless ones with no fields |
| ExtractTableInfo.RecordFieldKind | src/generate/extractTableInfo.ts:33-34 | a `record(t)` field has the kind `record`, with no "TYPE " starting before the keyword |
| ExtractTableInfo.FieldKindShape | src/generate/extractTableInfo.ts:33-34 | without "TYPE " the kind is "string"; every kind is a non-empty word |
| GenerateTableTypes.TableTypeText | src/generate/generateTableTypes.ts:5-31 | the text of one table; characterised by SchemafulText, EmptyTableText, SchemafulLines and GenerateTableType |
| GenerateTableTypes.FieldLines | src/generate/generateTableTypes.ts:17-25 | the lines of one field; characterised by ScalarFieldLine and ObjectFieldLines |
| GenerateTableTypes.BodyLines | src/generate/generateTableTypes.ts:16-26 | the lines of the fields; characterised by BodyLinesAppend |
| GenerateTableTypes.GenerateTableType | src/generate/generateTableTypes.ts:5-31 | returns the table's text and leaves a schemaful table's field list empty, a schemaless one's untouched |
| GenerateTableTypes.BodyLinesAppend | src/generate/generateTableTypes.ts:16-26 | fields render in field order |
| GenerateTableTypes.ScalarFieldLine | src/generate/generateTableTypes.ts:18-20 | a non-object field renders one line `name?: kind;`, with "?" iff optional |
| GenerateTableTypes.ObjectFieldLines | src/generate/generateTableTypes.ts:21-25 | an object field renders `name?: {` immediately followed by `};` |
| GenerateTableTypes.SchemafulText | src/generate/generateTableTypes.ts:13-30 | a schemaful text starts with `export type <Cap> = {` and ends with `};` |
| GenerateTableTypes.EmptyTableText | src/generate/generateTableTypes.ts:13-30 | a schemaful table without fields renders as an empty literal |
| GenerateTableTypes.SchemafulLines | src/generate/generateTableTypes.ts:13-30 | the lines are joined by "\n": header and earlier lines, then the last field's lines and the closing line |
| GenerateTableTypes.Rendered | src/generate/generateTableTypes.ts:38 | the first n calls of the map give n texts |
| GenerateTableTypes.RenderTables | src/generate/generateTableTypes.ts:38 | `tables.map(generateTableType)`: each call sees the fields left by the earlier ones; every schemaful table ends empty |
| GenerateTableTypes.RenderNext | src/generate/generateTableTypes.ts:38 | one call of the map renders the i-th table and drains it |
| GenerateTableTypes.RenderedIndex | src/generate/generateTableTypes.ts:38 | the i-th text is the i-th call's result |
| GenerateTableTypes.AddTableTypes | src/generate/generateTableTypes.ts:33-47 | adds one statement: the `TableName` union, the rendered tables, the `TableTypes` interface |
| GenerateTableTypes.RenderedDistinct | src/generate/generateTableTypes.ts:5-38 | distinct table objects are each rendered from their own fields |
| GenerateTableTypes.RenderedRepeat | src/generate/generateTableTypes.ts:15-38 | a schemaful table listed twice renders empty the second time |
| GenerateTableTypes.Content | src/generate/generateTableTypes.ts:36-43 | the added block; characterised by AddTableTypes, TwoTables and TableNameLists |
| GenerateTableTypes.TableNameLine | src/generate/generateTableTypes.ts:34-36 | the `TableName` union; characterised by TwoTables and TableNameLists |
| GenerateTableTypes.MemberLines | src/generate/generateTableTypes.ts:41 | one `name: Cap;` member per table, in order |
| GenerateTableTypes.TwoTables | src/generate/generateTableTypes.ts:34-41 | two tables: the union and the members name each once, in order |
| GenerateTableTypes.TableNameLists | src/generate/generateTableTypes.ts:34-42 | every quoted table name occurs in the union and every member line in the interface |
| GenerateIndex.GetTablesWithTypes | src/generate/index.ts:84-114 | "Error" iff there is no info; otherwise one entry per table in order, capitalized, typed `{}` if schemaful and `Record<string, unknown>` if not |
| GenerateIndex.AddTableStatements | src/generate/index.ts:23-45 | appends the alias lines, the `TableName` statement and the `TableTypes` interface |
| GenerateIndex.AliasLine | src/generate/index.ts:26-27 | one alias line; characterised by AliasAgrees and AliasBlockEnds |
| GenerateIndex.InterfaceStatement | src/generate/index.ts:36-45 | the `TableTypes` interface; characterised by NamesAgree and AddTableStatements |
| GenerateIndex.AliasAgrees | src/generate/index.ts:94-110 | a schemaless table's alias line is the text lib/generate/mod.ts writes; a schemaful one is `= {};` |
| GenerateIndex.NamesAgree | src/generate/index.ts:31-43 | the union names and the members are those the other generators use, in `tb` order |
| GenerateIndex.AliasBlockEnds | src/generate/index.ts:23-30 | the alias block starts with the first table's line and ends with the last one's |
| Capitalize.Capitalize | src/utils/capitalize.ts:3-5 | characterised by CapitalizeShape, UpperAsciiLetters, CapitalizeIdempotent and CapitalizeExample |
| Capitalize.CapitalizeShape | src/utils/capitalize.ts:3-5 | the length is kept, the first character is upper-cased, the rest unchanged, "" maps to "" |
| Capitalize.UpperAsciiLetters | src/utils/capitalize.ts:4 | a lower-case ASCII letter becomes its upper-case partner; other characters are kept |
| Capitalize.CapitalizeIdempotent | src/utils/capitalize.ts:3-5 | capitalizing twice is capitalizing once; ASCII stays ASCII |
| Capitalize.CapitalizeExample | src/utils/capitalize.ts:8 | `capitalize("hello, World!") == "Hello, World!"` |

## Left out

- Printing and formatting: ts-morph's `factory`, `printNode`, `addComment`, `formatText` and
  `project.save`. Type trees are values of `TypeNodes.TypeNode`. A commented alias is a
  `Statement` holding the declaration and its comment lines. The `TableName` union and
  `TableTypes` interface of lib/generate/mod.ts are kept as their name lists, because
  lib/generate/utils/createTableTypesInterface.ts and
  createStringLiteralUnionTypeAlias.ts are not part of this model.
- The database queries `infoForDb` / `infoForTable` (lib/generate/utils/infoForDb.ts is not part
  of this model). Their answers are inputs, and their ordering across `await`s is not modelled.
- `generate` in lib/generate/mod.ts:14-34 and src/generate/index.ts:8-76. The file's import
  header, the constant statements `typeUtilsStatements` / `SurrealXClassStatements`
  (lib/generate/constants.ts is not part of this model), the `MyType` printing and the
  `console.log` calls are left out, because they are fixed text or logging. The statements the
  tables contribute are modelled (`GenerateIndex.AddTableStatements`).
- GenerateMod.GenFile.constructor: a new file starts with no statements. The import header
  text that `createSourceFile` puts in it is not modelled.
- `console.log({ table })` in src/generate/generateTableTypes.ts:11: logging only.
- Capitalize.Capitalize: upper-cases ASCII letters only. The full Unicode `toUpperCase`
  (which can lengthen a string, as "ß" becomes "SS") is not modelled.
- LegacyTableType.LeafType: kinds that name `Object.prototype` members (`constructor`,
  `toString`, `valueOf`, `__proto__`, ...) are treated as misses of the lookup table. In
  JavaScript the indexed lookup finds the inherited member for them, so
  `createKeywordTypeNode` is handed a function or object instead of `undefined`. Either way no
  valid keyword node results; the model does not distinguish the two.
- TableType.ArrayOfElement: its precondition leaves out a path below the element in which
  "<parent>." starts again before the end of `<parent>[*][*]` or `<parent>[*].`, unless the parent
  does not end in `]` and the parent or the leaf is dot-free. This happens only when the parent repeats itself
  inside its element's paths, as `x[*].x[*].x.y` does under `x[*].x`.
- General regular expressions. Only the three patterns the reconstructors use (and the
  `ASSERT $value != NONE` test) are modelled, as explicit predicates.
- Migrations (lib/migrate): file-system, clock and database effects.

## Findings

| source | as written | input that shows it | evidently intended | confidence | as-written member | corrected member |
|---|---|---|---|---|---|---|
| src/generate/utils/createTableType.ts:5-14 | the leaf table is keyed by `boolean`, but SurrealDB's kind is `bool`, so the lookup misses and a keyword node is built from `undefined` | `DEFINE FIELD ok ON user TYPE bool` | `bool` maps to boolean, as lib/generate/utils/createTableType.ts:15-16 does | medium, not executed | LegacyTableType.BoolMissesTable | TableType.TsTypeOfKindTable |
| src/generate/utils/createTableType.ts:36-38 | the nested filter keeps the cell path `m[*][*]` beside the row path `m[*]` at the level of `m` | fields `matrix` (array), `matrix[*]` (array), `matrix[*][*]` (int) | `matrix: number[][]`, as lib/generate/utils/tests/createTableType.test.ts:167-201 expects | high, not executed | LegacyTableTypeExamples.MatrixNotNested | TableTypeExamples.MatricesScenario |
| src/generate/utils/createTableType.ts:36-38 | the nested filter keeps an array property's element `p.w[*]` beside `p.w`, so the literal gets two properties named `w` | fields `p.w` (array) and `p.w[*]` (string) under an object `p` | one property `w: string[]`, as lib/generate/utils/createTableType.ts:59 excludes `\w+\[\*\]$` | high, not executed | LegacyTableType.ArrayPropertyDuplicated | TableTypeExamples.WordStarChildExcluded |
| src/generate/utils/createTableType.ts:36-38 | for a dotted array path the first replace finds no "<path>." in `<path>[*]`, so the element keeps the path's dot and is dropped; an array inside an object becomes `{}[]` | fields `a.b` (array) and `a.b[*]` (string) | `b: string[]`, as the lib filter keeps `a.b[*]` | high, not executed | LegacyTableType.DottedArrayLosesElement | TableType.LeafElementArray |
