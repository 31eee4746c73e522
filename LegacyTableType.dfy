/**
 * The older table-type reconstructor of src/generate/utils/createTableType.ts. It has the same
 * recursion as the current one (TableType) but a different kind parser (`/TYPE (\w+)/`), a
 * five-entry lookup table for leaves, a weaker base-field test below the top level, and no
 * property comments. The last part of this module states where it differs from the current
 * reconstructor, and the places where the difference is a defect.
 */
module LegacyTableType {
  import opened Wrappers
  import opened Strings
  import opened Seqs
  import opened TypeNodes
  import TableType

  /** `definition.match(/TYPE (\w+)/)?.[1] ?? 'string'` */
  function KindOf(definition: string): string {
    FirstMatch(definition, KindAfterType(Word)).GetOr("string")
  }

  /**
   * `surrealTypeNameToTsTypeIdentifier[type]`: five entries; any other kind misses the table
   * and yields a keyword node built from `undefined`.
   */
  function LeafType(kind: string): TypeNode {
    if kind == "string" then StringKeyword
    else if kind == "int" || kind == "decimal" || kind == "float" then NumberKeyword
    else if kind == "boolean" then BooleanKeyword
    else MissingKeyword
  }

  /** The nested base-field test: no dot is left once the first "<parent>." is removed. */
  predicate IsDirectChild(name: string, parent: string) {
    !Contains(ReplaceFirst(name, parent + ".", ""), ".")
  }

  /** The base-field test of a level: top-level paths at the top, direct children below. */
  predicate IsBase(parent: Option<string>, f: FieldInfo) {
    match parent
    case None => IsTopLevel(f.name)
    case Some(p) => IsDirectChild(f.name, p)
  }

  /** The fields that form the current level, in input order. */
  function BaseFields(fields: seq<FieldInfo>, parent: Option<string>): (r: seq<FieldInfo>)
    ensures |r| <= |fields|
    ensures forall f :: f in r ==> f in fields
  {
    FilterMembers(fields, (f: FieldInfo) => IsBase(parent, f));
    Filter(fields, (f: FieldInfo) => IsBase(parent, f))
  }

  /** The base fields are exactly the fields of the list that pass the level's test. */
  lemma BaseFieldsMembers(fields: seq<FieldInfo>, parent: Option<string>)
    ensures forall f :: f in BaseFields(fields, parent) <==> f in fields && IsBase(parent, f)
  {
    FilterMembers(fields, (f: FieldInfo) => IsBase(parent, f));
  }

  /** `createTableType(fieldInfo, parentField)` of the older variant. */
  function CreateTableType(fields: seq<FieldInfo>, parent: Option<string>): TypeNode
    decreases |fields|, 2, 0
  {
    var base := BaseFields(fields, parent);
    if |base| == 1 && EndsWith(base[0].name, ElementMarker) then
      FieldType(fields, base[0])
    else
      Literal(Props(fields, base))
  }

  /** The type of one field: objects and arrays recurse over their descendants, the rest are looked up. */
  function FieldType(fields: seq<FieldInfo>, f: FieldInfo): TypeNode
    requires f in fields
    decreases |fields|, 0, 0
  {
    var kind := KindOf(f.definition);
    if kind == "object" then
      ChildrenShrink(fields, f, ".");
      CreateTableType(WithPrefix(fields, f.name + "."), Some(f.name))
    else if kind == "array" then
      ChildrenShrink(fields, f, ElementMarker);
      ArrayOf(CreateTableType(WithPrefix(fields, f.name + ElementMarker), Some(f.name)))
    else
      LeafType(kind)
  }

  /** The property signature of one base field; this variant attaches no comment. */
  function PropOf(fields: seq<FieldInfo>, f: FieldInfo): Prop
    requires f in fields
    decreases |fields|, 1, 0
  {
    Prop(PropName(f.name), IsOptional(f.definition), FieldType(fields, f), None)
  }

  /** One property signature per base field, in order. */
  function Props(fields: seq<FieldInfo>, base: seq<FieldInfo>): (ps: seq<Prop>)
    requires forall f :: f in base ==> f in fields
    decreases |fields|, 1, |base|
    ensures |ps| == |base|
  {
    seq(|base|, i requires 0 <= i < |base| => PropOf(fields, base[i]))
  }

  // ---------------------------------------------------------------------------
  // Unfolding one level
  // ---------------------------------------------------------------------------

  /** The property built for the `i`-th base field describes that field. */
  lemma PropsAt(fields: seq<FieldInfo>, base: seq<FieldInfo>, i: nat)
    requires forall f :: f in base ==> f in fields
    requires i < |base|
    ensures Props(fields, base)[i] == PropOf(fields, base[i])
  {
  }

  /** A level that is not an unwrapped element is a type literal. */
  lemma LiteralLevel(fields: seq<FieldInfo>, parent: Option<string>)
    requires var base := BaseFields(fields, parent);
             !(|base| == 1 && EndsWith(base[0].name, ElementMarker))
    ensures CreateTableType(fields, parent) == Literal(Props(fields, BaseFields(fields, parent)))
  {
  }

  /** A level whose only base field is an element path stands for that element's type. */
  lemma ElementLevel(fields: seq<FieldInfo>, parent: Option<string>, e: FieldInfo)
    requires BaseFields(fields, parent) == [e] && EndsWith(e.name, ElementMarker)
    ensures e in fields
    ensures CreateTableType(fields, parent) == FieldType(fields, e)
  {
    BaseFieldsMembers(fields, parent);
    assert e in BaseFields(fields, parent);
  }

  /** An object field's type is the level of its dotted descendants. */
  lemma ObjectField(fields: seq<FieldInfo>, f: FieldInfo)
    requires f in fields && KindOf(f.definition) == "object"
    ensures FieldType(fields, f) == CreateTableType(WithPrefix(fields, f.name + "."), Some(f.name))
  {
  }

  /** An array field's type is an array of the level of its element paths. */
  lemma ArrayField(fields: seq<FieldInfo>, f: FieldInfo)
    requires f in fields && KindOf(f.definition) == "array"
    ensures FieldType(fields, f)
            == ArrayOf(CreateTableType(WithPrefix(fields, f.name + ElementMarker), Some(f.name)))
  {
  }

  /** A leaf field's type is its kind's entry in the lookup table. */
  lemma LeafFieldType(fields: seq<FieldInfo>, f: FieldInfo)
    requires f in fields && KindOf(f.definition) !in {"object", "array"}
    ensures FieldType(fields, f) == LeafType(KindOf(f.definition))
  {
  }

  /** The base fields, one field at a time. */
  lemma BaseFieldsCons(f: FieldInfo, rest: seq<FieldInfo>, parent: Option<string>)
    ensures BaseFields([f] + rest, parent)
            == (if IsBase(parent, f) then [f] else []) + BaseFields(rest, parent)
  {
    FilterCons(f, rest, (g: FieldInfo) => IsBase(parent, g));
  }

  /** The base fields keep input order: selecting from a concatenation selects from each part. */
  lemma BaseFieldsAppend(fields: seq<FieldInfo>, parent: Option<string>, more: seq<FieldInfo>)
    ensures BaseFields(fields + more, parent) == BaseFields(fields, parent) + BaseFields(more, parent)
  {
    FilterAppend(fields, more, (f: FieldInfo) => IsBase(parent, f));
  }

  /** A list whose every field belongs to the level is its own base. */
  lemma BaseFieldsAll(fields: seq<FieldInfo>, parent: Option<string>)
    requires forall f :: f in fields ==> IsBase(parent, f)
    ensures BaseFields(fields, parent) == fields
  {
    FilterAll(fields, (f: FieldInfo) => IsBase(parent, f));
  }

  /** A list none of whose fields belongs to the level has no base. */
  lemma BaseFieldsNone(fields: seq<FieldInfo>, parent: Option<string>)
    requires forall f :: f in fields ==> !IsBase(parent, f)
    ensures BaseFields(fields, parent) == []
  {
    FilterNone(fields, (f: FieldInfo) => IsBase(parent, f));
  }

  /** The properties of a one-field level. */
  lemma PropsOne(fields: seq<FieldInfo>, a: FieldInfo)
    requires a in fields
    ensures Props(fields, [a]) == [PropOf(fields, a)]
  {
    PropsAt(fields, [a], 0);
  }

  /** The properties of a two-field level, in order. */
  lemma PropsTwo(fields: seq<FieldInfo>, a: FieldInfo, b: FieldInfo)
    requires a in fields && b in fields
    ensures Props(fields, [a, b]) == [PropOf(fields, a), PropOf(fields, b)]
  {
    PropsAt(fields, [a, b], 0);
    PropsAt(fields, [a, b], 1);
    SeqTwo(Props(fields, [a, b]), PropOf(fields, a), PropOf(fields, b));
  }

  /** The properties of a three-field level, in order. */
  lemma PropsThree(fields: seq<FieldInfo>, a: FieldInfo, b: FieldInfo, c: FieldInfo)
    requires a in fields && b in fields && c in fields
    ensures Props(fields, [a, b, c]) == [PropOf(fields, a), PropOf(fields, b), PropOf(fields, c)]
  {
    PropsAt(fields, [a, b, c], 0);
    PropsAt(fields, [a, b, c], 1);
    PropsAt(fields, [a, b, c], 2);
    SeqThree(Props(fields, [a, b, c]), PropOf(fields, a), PropOf(fields, b), PropOf(fields, c));
  }

  // ---------------------------------------------------------------------------
  // The kind parser and the lookup table
  // ---------------------------------------------------------------------------

  /**
   * The kind is the word right after the first "TYPE ", whatever precedes the keyword as long
   * as no "TYPE " starts there (a field name such as `userType` does not).
   */
  lemma {:induction false} KindOfDefineField(pre: string, tok: string, rest: string)
    requires NoTypeKeywordIn(pre)
    requires tok != [] && forall c :: c in tok ==> IsWordChar(c)
    requires rest == [] || !IsWordChar(rest[0])
    ensures KindOf(pre + TypeKeyword + tok + rest) == tok
  {
    var b := TypeKeyword + tok + rest;
    assert pre + TypeKeyword + tok + rest == pre + b;
    assert b == TypeKeyword + (tok + rest);
    assert b[..|TypeKeyword|] == TypeKeyword;
    assert b[|TypeKeyword|] == tok[0];
    assert tok[0] in tok;
    RunEndToken(tok, rest, Word);
    RunEndShift(TypeKeyword, tok + rest, 0, Word);
    SearchFinds(b, KindAfterType(Word), 0);
    assert b[|TypeKeyword|..|TypeKeyword| + |tok|] == tok;
    forall q | 0 <= q < |pre|
      ensures !MatchesAt(pre + b, KindAfterType(Word), q)
    {
      NoKindMatchIn(pre, b, Word, q);
    }
    FirstMatchPastPrefix(pre, b, KindAfterType(Word));
  }

  /** `TYPE record(user)` yields the kind "record": the table name is cut off at the parenthesis. */
  lemma KindOfRecord(pre: string, table: string, rest: string)
    requires NoTypeKeywordIn(pre)
    ensures KindOf(pre + TypeKeyword + "record" + ("(" + table + ")" + rest)) == "record"
  {
    KindOfDefineField(pre, "record", "(" + table + ")" + rest);
  }

  /** Without any "TYPE " the kind defaults to "string". */
  lemma KindOfDefault(definition: string)
    requires !Contains(definition, TypeKeyword)
    ensures KindOf(definition) == "string"
  {
    forall q: nat
      ensures !MatchesAt(definition, KindAfterType(Word), q)
    {
      assert MatchesAt(definition, KindAfterType(Word), q) ==> MatchesAt(definition, Text(TypeKeyword), q);
    }
  }

  /** The kind is never empty and consists of word characters only. */
  lemma KindOfIsWord(definition: string)
    ensures KindOf(definition) != []
    ensures forall c :: c in KindOf(definition) ==> IsWordChar(c)
  {
    match Search(definition, KindAfterType(Word), 0)
    case None =>
    case Some(p) =>
      var e := RunEnd(definition, p + |TypeKeyword|, Word);
      RunEndRun(definition, p + |TypeKeyword|, Word);
      assert definition[p + |TypeKeyword|..e][0] == definition[p + |TypeKeyword|];
  }

  /** A word character is never whitespace. */
  lemma WordNotSpace(c: char)
    ensures IsWordChar(c) ==> !IsSpace(c)
  {
  }

  /** A run of word characters ending at a space or the end is where both greedy runs stop. */
  lemma {:induction false} RunEndAt(s: string, j: nat, e: nat, cls: CharClass)
    requires j <= e <= |s|
    requires forall k :: j <= k < e ==> InClass(s[k], cls)
    requires e == |s| || !InClass(s[e], cls)
    decreases e - j
    ensures RunEnd(s, j, cls) == e
  {
    if j < e {
      RunEndAt(s, j + 1, e, cls);
    }
  }

  /** Where `/TYPE ([^\s]+)/` matches with a word after "TYPE ", `/TYPE (\w+)/` matches too, and nowhere earlier. */
  lemma SameKindPosition(d: string, p: nat)
    requires Search(d, KindAfterType(NonSpace), 0) == Some(p)
    requires IsWordChar(d[p + |TypeKeyword|])
    ensures Search(d, KindAfterType(Word), 0) == Some(p)
  {
    forall q: nat | q < p
      ensures !MatchesAt(d, KindAfterType(Word), q)
    {
      assert !MatchesAt(d, KindAfterType(NonSpace), q);
      if q + |TypeKeyword| < |d| {
        WordNotSpace(d[q + |TypeKeyword|]);
      }
    }
    SearchFinds(d, KindAfterType(Word), p);
  }

  /** The two kind parsers agree whenever the current one reads a plain word. */
  lemma KindAgreesOnWords(d: string)
    requires forall c :: c in TableType.KindOf(d) ==> IsWordChar(c)
    ensures KindOf(d) == TableType.KindOf(d)
  {
    match Search(d, KindAfterType(NonSpace), 0)
    case None =>
      forall q: nat
        ensures !MatchesAt(d, KindAfterType(Word), q)
      {
        assert !MatchesAt(d, KindAfterType(NonSpace), q);
        if q + |TypeKeyword| < |d| {
          WordNotSpace(d[q + |TypeKeyword|]);
        }
      }
    case Some(p) =>
      var j := p + |TypeKeyword|;
      var e := RunEnd(d, j, NonSpace);
      var kind := d[j..e];
      assert TableType.KindOf(d) == kind;
      assert kind[0] == d[j] && kind[0] in kind;
      forall k | j <= k < e
        ensures IsWordChar(d[k])
      {
        assert kind[k - j] == d[k] && kind[k - j] in kind;
      }
      if e < |d| {
        WordNotSpace(d[e]);
      }
      RunEndAt(d, j, e, Word);
      SameKindPosition(d, p);
  }

  /** The lookup table: exactly string, int, decimal, float and boolean have an entry. */
  lemma LeafTypeTable(kind: string)
    ensures kind == "string" ==> LeafType(kind) == StringKeyword
    ensures kind in {"int", "decimal", "float"} ==> LeafType(kind) == NumberKeyword
    ensures kind == "boolean" ==> LeafType(kind) == BooleanKeyword
    ensures LeafType(kind) == MissingKeyword <==> kind !in {"string", "int", "decimal", "float", "boolean"}
  {
  }

  /** On the four kinds both tables know, the two variants map alike. */
  lemma LeafTypeAgrees(kind: string)
    requires kind in {"string", "int", "decimal", "float"}
    ensures LeafType(kind) == TableType.TsTypeOfKind(kind)
  {
    TableType.TsTypeOfKindTable(kind);
  }

  // ---------------------------------------------------------------------------
  // Base-field selection
  // ---------------------------------------------------------------------------

  /** Both variants select the same top-level fields, in the same order. */
  lemma {:induction false} TopLevelAgrees(fields: seq<FieldInfo>)
    ensures BaseFields(fields, None) == TableType.BaseFields(fields, None)
  {
    if fields != [] {
      assert fields == [fields[0]] + fields[1..];
      BaseFieldsCons(fields[0], fields[1..], None);
      TableType.BaseFieldsCons(fields[0], fields[1..], None);
      TopLevelAgrees(fields[1..]);
    }
  }

  /**
   * At the top level the result is a type literal with one property per top-level path, in
   * input order, named by that path, optional unless its definition asserts not-NONE, and
   * without comment.
   */
  lemma TopLevelShape(fields: seq<FieldInfo>)
    ensures CreateTableType(fields, None).Literal?
    ensures var ps := CreateTableType(fields, None).props;
            var base := BaseFields(fields, None);
            |ps| == |base| &&
            forall i :: 0 <= i < |ps| ==>
              ps[i].name == base[i].name && ps[i].optional == IsOptional(base[i].definition)
              && ps[i].ty == FieldType(fields, base[i]) && ps[i].doc.None?
  {
    var base := BaseFields(fields, None);
    BaseFieldsMembers(fields, None);
    if |base| == 1 {
      assert base[0] in base;
      if EndsWith(base[0].name, ElementMarker) {
        EndsWithContains(base[0].name, ElementMarker);
      }
    }
    forall i | 0 <= i < |base|
      ensures PropName(base[i].name) == base[i].name
      ensures Props(fields, base)[i]
              == Prop(base[i].name, IsOptional(base[i].definition), FieldType(fields, base[i]), None)
    {
      assert base[i] in base;
      PropNameTopLevel(base[i].name);
      PropsAt(fields, base, i);
    }
  }

  /** The top-level properties of both variants carry the same names and optionality, in the same order. */
  lemma TopLevelNamesAgree(fields: seq<FieldInfo>)
    ensures CreateTableType(fields, None).Literal? && TableType.CreateTableType(fields, None).Literal?
    ensures var ps := CreateTableType(fields, None).props;
            var qs := TableType.CreateTableType(fields, None).props;
            |ps| == |qs| &&
            forall i :: 0 <= i < |ps| ==> ps[i].name == qs[i].name && ps[i].optional == qs[i].optional
  {
    TopLevelAgrees(fields);
    TopLevelShape(fields);
    TableType.TopLevelShape(fields);
  }

  /** A child `parent.leaf` is a base field of `parent` exactly when `leaf` has no dot. */
  lemma ChildIff(parent: string, leaf: string)
    ensures IsDirectChild(parent + "." + leaf, parent) <==> '.' !in leaf
  {
    assert parent + "." + leaf == (parent + ".") + leaf;
    ReplaceFirstPrefix(parent + ".", leaf, "");
    assert "" + leaf == leaf;
    ContainsChar(leaf, '.');
  }

  /** For a dot-free parent, every base field of the current variant is a base field here too. */
  lemma CurrentChildIsChild(name: string, parent: string)
    requires '.' !in parent && TableType.IsDirectChild(name, parent)
    ensures IsDirectChild(name, parent)
  {
    var r := ReplaceFirst(name, parent + ".", "");
    ContainsChar(TableType.Leave(name, parent), '.');
    if '.' in r {
      ReplaceFirstKeepsDot(r, parent);
    }
    ContainsChar(r, '.');
  }

  /**
   * An array's element path is a base field of the array path exactly when that path is
   * dot-free: "<parent>." never occurs in `parent[*]`, so a dot of the parent survives.
   */
  lemma ElementKept(parent: string)
    ensures IsDirectChild(parent + ElementMarker, parent) <==> '.' !in parent
  {
    TableType.NoDotFrom(parent, ElementMarker);
    ReplaceFirstAbsent(parent + ElementMarker, parent + ".", "");
    ContainsChar(parent + ElementMarker, '.');
    assert '.' in parent + ElementMarker <==> '.' in parent;
  }

  /**
   * A field of an array's element, `parent[*].leaf`, is not a base field of the array level:
   * whenever "<parent>." does not start before the end of `parent[*].`, and also for a
   * non-empty parent not ending in `]` whose parent or leaf is dot-free.
   */
  lemma ElementChildExcluded(parent: string, leaf: string)
    requires TableType.NoParentDotBefore(parent + ElementMarker + "." + leaf, parent, |parent| + 4)
             || (parent != [] && parent[|parent| - 1] != ']' && ('.' !in leaf || '.' !in parent))
    ensures !IsDirectChild(parent + ElementMarker + "." + leaf, parent)
  {
    var name := parent + "[*]." + leaf;
    assert parent + ElementMarker + "." + leaf == name;
    match IndexOf(name, parent + ".")
    case None =>
      assert name[|parent| + 3] == '.';
      ContainsChar(name, '.');
    case Some(k) =>
      var r := ReplaceFirst(name, parent + ".", "");
      if TableType.NoParentDotBefore(name, parent, |parent| + 4) {
        assert OccursAt(name, parent + ".", k);
        assert r == name[..k] + name[k + |parent| + 1..];
        assert r[|parent| + 3] == name[|parent| + 3] == '.';
      } else {
        TableType.ElementChildDotSurvives(parent, leaf, k);
      }
      ContainsChar(r, '.');
  }

  // ---------------------------------------------------------------------------
  // Defects of the older variant
  // ---------------------------------------------------------------------------

  /** The lookup table has "boolean" where SurrealDB's kind is "bool": a `bool` field misses the table. */
  lemma BoolMissesTable()
    ensures LeafType("bool") == MissingKeyword
    ensures TableType.TsTypeOfKind("bool") == BooleanKeyword
  {
    TableType.TsTypeOfKindTable("bool");
  }

  /** The doubly nested element `parent[*][*]` passes the test for the level `parent` exactly when the parent is dot-free. */
  lemma MatrixCellKept(parent: string)
    ensures IsDirectChild(parent + ElementMarker + ElementMarker, parent) <==> '.' !in parent
  {
    assert parent + ElementMarker + ElementMarker == parent + "[*][*]";
    TableType.NoDotFrom(parent, "[*][*]");
    ReplaceFirstAbsent(parent + "[*][*]", parent + ".", "");
    ContainsChar(parent + "[*][*]", '.');
    assert '.' in parent + "[*][*]" <==> '.' in parent;
  }

  /**
   * So an array inside an object loses its element: for a dotted array path the element is no
   * base field, the element level is an empty literal and the array's type is `{}[]`.
   */
  lemma DottedArrayLosesElement(parent: string, ad: string, ed: string)
    requires '.' in parent && KindOf(ad) == "array"
    ensures var arr, elem := FieldInfo(parent, ad), FieldInfo(parent + ElementMarker, ed);
            FieldType([arr, elem], arr) == ArrayOf(Literal([]))
  {
    var arr, elem := FieldInfo(parent, ad), FieldInfo(parent + ElementMarker, ed);
    var fields := [arr, elem];
    TableType.ElementDescendants(parent, ad, ed);
    ElementKept(parent);
    BaseFieldsMembers([elem], Some(parent));
    assert BaseFields([elem], Some(parent)) == [];
    assert FieldType(fields, arr) == ArrayOf(CreateTableType([elem], Some(parent)));
  }

  /** The element path `parent.w[*]` of an array property passes the test for the level `parent`. */
  lemma ArrayElementKept(parent: string, w: string)
    requires '.' !in w
    ensures IsDirectChild(parent + "." + w + ElementMarker, parent)
  {
    ChildIff(parent, w + ElementMarker);
    assert parent + "." + (w + ElementMarker) == parent + "." + w + ElementMarker;
    assert '.' !in ElementMarker;
  }

  /**
   * So an array property `w` of an object `parent` appears twice in the object's literal: once
   * for `parent.w` and once, under the same name, for its element path `parent.w[*]`.
   */
  lemma ArrayPropertyDuplicated(parent: string, w: string, wd: string, ed: string)
    requires '.' !in w && '[' !in w
    ensures var arr, elem := FieldInfo(parent + "." + w, wd), FieldInfo(parent + "." + w + ElementMarker, ed);
            CreateTableType([arr, elem], Some(parent)) == Literal([PropOf([arr, elem], arr), PropOf([arr, elem], elem)])
            && PropOf([arr, elem], arr).name == w && PropOf([arr, elem], elem).name == w
  {
    var arr, elem := FieldInfo(parent + "." + w, wd), FieldInfo(parent + "." + w + ElementMarker, ed);
    ChildIff(parent, w);
    ArrayElementKept(parent, w);
    BaseFieldsAll([arr, elem], Some(parent));
    LiteralLevel([arr, elem], Some(parent));
    PropsTwo([arr, elem], arr, elem);
    PropNameChild(parent, w);
    PropNameChildArray(parent, w);
  }
}
