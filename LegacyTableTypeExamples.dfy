/**
 * The test embedded in src/generate/utils/createTableType.ts, stated as an equality between
 * the older reconstructor's type tree and the tree its expected printed type describes, and
 * the shapes that the older reconstructor gets wrong.
 */
module LegacyTableTypeExamples {
  import opened Wrappers
  import opened Strings
  import opened Seqs
  import opened TypeNodes
  import opened LegacyTableType
  import TableType
  import TableTypeExamples

  // ---------------------------------------------------------------------------
  // Shapes of levels
  // ---------------------------------------------------------------------------

  /** A level whose two fields both belong to it is the literal of their two properties, in order. */
  lemma TwoFieldLevel(a: FieldInfo, b: FieldInfo, parent: Option<string>, ta: TypeNode, tb: TypeNode)
    requires IsBase(parent, a) && IsBase(parent, b)
    requires FieldType([a, b], a) == ta && FieldType([a, b], b) == tb
    ensures CreateTableType([a, b], parent)
            == Literal([Prop(PropName(a.name), IsOptional(a.definition), ta, None),
                        Prop(PropName(b.name), IsOptional(b.definition), tb, None)])
  {
    BaseFieldsAll([a, b], parent);
    LiteralLevel([a, b], parent);
    PropsTwo([a, b], a, b);
  }

  /** An object `n` with two plain string children is the literal `{ first; last }`. */
  lemma ObjectLevel(n: string, first: string, fd: string, last: string, ld: string)
    requires '.' !in first && '[' !in first && '.' !in last && '[' !in last
    requires KindOf(fd) == "string" && KindOf(ld) == "string"
    ensures CreateTableType([FieldInfo(n + "." + first, fd), FieldInfo(n + "." + last, ld)], Some(n))
            == Literal([Prop(first, IsOptional(fd), StringKeyword, None),
                        Prop(last, IsOptional(ld), StringKeyword, None)])
  {
    var a, b := FieldInfo(n + "." + first, fd), FieldInfo(n + "." + last, ld);
    ChildIff(n, first);
    ChildIff(n, last);
    PropNameChild(n, first);
    PropNameChild(n, last);
    LeafFieldType([a, b], a);
    LeafFieldType([a, b], b);
    TwoFieldLevel(a, b, Some(n), StringKeyword, StringKeyword);
  }

  /** Below an array of objects only the element belongs; it stands for the object of its two children. */
  lemma ObjectElementLevel(c: string, ed: string, id: string, idd: string, title: string, td: string)
    requires '.' !in c && c != [] && c[|c| - 1] != ']'
    requires '.' !in id && '[' !in id && '.' !in title && '[' !in title
    requires KindOf(ed) == "object" && KindOf(idd) == "string" && KindOf(td) == "string"
    ensures CreateTableType([FieldInfo(c + ElementMarker, ed), FieldInfo(c + ElementMarker + "." + id, idd),
                             FieldInfo(c + ElementMarker + "." + title, td)], Some(c))
            == Literal([Prop(id, IsOptional(idd), StringKeyword, None),
                        Prop(title, IsOptional(td), StringKeyword, None)])
  {
    var e := FieldInfo(c + ElementMarker, ed);
    var a, b := FieldInfo(c + ElementMarker + "." + id, idd), FieldInfo(c + ElementMarker + "." + title, td);
    ElementKept(c);
    ElementChildExcluded(c, id);
    ElementChildExcluded(c, title);
    OnlyFirstOfThree(e, a, b, Some(c));
    TableTypeExamples.ElementPath(c);
    ElementLevel([e, a, b], Some(c), e);
    ObjectField([e, a, b], e);
    TableTypeExamples.ObjectArrayFields(e, a, b, id, title);
    ObjectLevel(e.name, id, idd, title, td);
  }

  /** Three fields of which only the first belongs to the level. */
  lemma OnlyFirstOfThree(a: FieldInfo, b: FieldInfo, c: FieldInfo, parent: Option<string>)
    requires IsBase(parent, a) && !IsBase(parent, b) && !IsBase(parent, c)
    ensures BaseFields([a, b, c], parent) == [a]
  {
    FilterFirstOfThree(a, b, c, (x: FieldInfo) => IsBase(parent, x));
  }

  /** A level with exactly three base fields is the literal of their three properties, in order. */
  lemma LevelOfThree(fields: seq<FieldInfo>, parent: Option<string>, a: FieldInfo, b: FieldInfo, c: FieldInfo)
    requires BaseFields(fields, parent) == [a, b, c]
    ensures a in fields && b in fields && c in fields
    ensures CreateTableType(fields, parent) == Literal([PropOf(fields, a), PropOf(fields, b), PropOf(fields, c)])
  {
    BaseFieldsMembers(fields, parent);
    assert a in BaseFields(fields, parent) && b in BaseFields(fields, parent) && c in BaseFields(fields, parent);
    LiteralLevel(fields, parent);
    PropsThree(fields, a, b, c);
  }

  /** A top level of three plain fields is the literal of their three properties, named by their paths. */
  lemma TopOfThree(fields: seq<FieldInfo>, a: FieldInfo, b: FieldInfo, c: FieldInfo, ta: TypeNode, tb: TypeNode, tc: TypeNode)
    requires BaseFields(fields, None) == [a, b, c]
    requires PropName(a.name) == a.name && PropName(b.name) == b.name && PropName(c.name) == c.name
    requires a in fields && b in fields && c in fields
    requires FieldType(fields, a) == ta && FieldType(fields, b) == tb && FieldType(fields, c) == tc
    ensures CreateTableType(fields, None)
            == Literal([Prop(a.name, IsOptional(a.definition), ta, None), Prop(b.name, IsOptional(b.definition), tb, None),
                        Prop(c.name, IsOptional(c.definition), tc, None)])
  {
    LevelOfThree(fields, None, a, b, c);
  }

  /** Eight fields of which the first, second and sixth belong to the level. */
  lemma ThreeOfEight(a: FieldInfo, b: FieldInfo, c: FieldInfo, d: FieldInfo,
                     e: FieldInfo, f: FieldInfo, g: FieldInfo, h: FieldInfo, parent: Option<string>)
    requires IsBase(parent, a) && IsBase(parent, b) && IsBase(parent, f)
    requires !IsBase(parent, c) && !IsBase(parent, d) && !IsBase(parent, e)
    requires !IsBase(parent, g) && !IsBase(parent, h)
    ensures BaseFields([a, b, c, d, e, f, g, h], parent) == [a, b, f]
  {
    FilterThreeOfEight(a, b, c, d, e, f, g, h, (x: FieldInfo) => IsBase(parent, x));
  }

  /** Eight fields of which the third to fifth start with the prefix. */
  lemma MiddleOfEight(a: FieldInfo, b: FieldInfo, c: FieldInfo, d: FieldInfo,
                      e: FieldInfo, f: FieldInfo, g: FieldInfo, h: FieldInfo, prefix: string)
    requires !StartsWith(a.name, prefix) && !StartsWith(b.name, prefix)
    requires StartsWith(c.name, prefix) && StartsWith(d.name, prefix) && StartsWith(e.name, prefix)
    requires !StartsWith(f.name, prefix) && !StartsWith(g.name, prefix) && !StartsWith(h.name, prefix)
    ensures WithPrefix([a, b, c, d, e, f, g, h], prefix) == [c, d, e]
  {
    FilterMiddleOfEight(a, b, c, d, e, f, g, h, (x: FieldInfo) => StartsWith(x.name, prefix));
  }

  /** Eight fields of which the last two start with the prefix. */
  lemma LastTwoOfEight(a: FieldInfo, b: FieldInfo, c: FieldInfo, d: FieldInfo,
                       e: FieldInfo, f: FieldInfo, g: FieldInfo, h: FieldInfo, prefix: string)
    requires !StartsWith(a.name, prefix) && !StartsWith(b.name, prefix) && !StartsWith(c.name, prefix)
    requires !StartsWith(d.name, prefix) && !StartsWith(e.name, prefix) && !StartsWith(f.name, prefix)
    requires StartsWith(g.name, prefix) && StartsWith(h.name, prefix)
    ensures WithPrefix([a, b, c, d, e, f, g, h], prefix) == [g, h]
  {
    FilterLastTwoOfEight(a, b, c, d, e, f, g, h, (x: FieldInfo) => StartsWith(x.name, prefix));
  }

  /** A string that lacks one of the prefix's characters does not start with it. */
  lemma MissingCharNotPrefix(s: string, p: string, k: nat)
    requires k < |p| && p[k] !in s
    ensures !StartsWith(s, p)
  {
    if |p| <= |s| {
      assert s[..|p|][k] == s[k];
    }
  }

  // ---------------------------------------------------------------------------
  // The embedded test
  // ---------------------------------------------------------------------------

  /**
   * The embedded test's shape: a plain field `A`, an array `C` of objects with fields `id` and
   * `title`, and an object `N` with fields `first` and `last`, in that order.
   */
  predicate EmbeddedShape(fs: seq<FieldInfo>, id: string, title: string, first: string, last: string) {
    |fs| == 8 &&
    '.' !in fs[0].name && '[' !in fs[0].name && '.' !in fs[1].name && '[' !in fs[1].name
    && '.' !in fs[5].name && '[' !in fs[5].name
    && '.' !in id && '[' !in id && '.' !in title && '[' !in title
    && '.' !in first && '[' !in first && '.' !in last && '[' !in last
    && fs[1].name != [] && fs[5].name != [] && fs[1].name[0] != fs[5].name[0]
    && fs[1].name[|fs[1].name| - 1] != ']'
    && fs[2].name == fs[1].name + ElementMarker
    && fs[3].name == fs[1].name + ElementMarker + "." + id
    && fs[4].name == fs[1].name + ElementMarker + "." + title
    && fs[6].name == fs[5].name + "." + first && fs[7].name == fs[5].name + "." + last
  }

  /** Only the plain field, the array and the object are top-level. */
  lemma EmbeddedTop(fs: seq<FieldInfo>, id: string, title: string, first: string, last: string)
    requires EmbeddedShape(fs, id, title, first, last)
    ensures BaseFields(fs, None) == [fs[0], fs[1], fs[5]]
  {
    TableTypeExamples.PlainName(fs[0].name);
    TableTypeExamples.PlainName(fs[1].name);
    TableTypeExamples.PlainName(fs[5].name);
    TableTypeExamples.ElementNotTopLevel(fs[1].name);
    TableTypeExamples.ElementFieldNotTopLevel(fs[1].name, id);
    TableTypeExamples.ElementFieldNotTopLevel(fs[1].name, title);
    TableTypeExamples.DottedNameNotTopLevel(fs[5].name, first);
    TableTypeExamples.DottedNameNotTopLevel(fs[5].name, last);
    SeqEight(fs);
    ThreeOfEight(fs[0], fs[1], fs[2], fs[3], fs[4], fs[5], fs[6], fs[7], None);
  }

  /** The descendants of the array's element path are the element and its two fields. */
  lemma EmbeddedItems(fs: seq<FieldInfo>, id: string, title: string, first: string, last: string)
    requires EmbeddedShape(fs, id, title, first, last)
    ensures WithPrefix(fs, fs[1].name + ElementMarker) == [fs[2], fs[3], fs[4]]
  {
    var p := fs[1].name + ElementMarker;
    assert p[|fs[1].name|] == '[';
    MissingCharNotPrefix(fs[0].name, p, |fs[1].name|);
    MissingCharNotPrefix(fs[5].name, p, |fs[1].name|);
    MissingCharNotPrefix(fs[6].name, p, |fs[1].name|);
    MissingCharNotPrefix(fs[7].name, p, |fs[1].name|);
    TableTypeExamples.PrefixOf(p, "");
    TableTypeExamples.PrefixOf(p, "." + id);
    TableTypeExamples.PrefixOf(p, "." + title);
    assert p + "" == fs[2].name && p + ("." + id) == fs[3].name && p + ("." + title) == fs[4].name;
    SeqEight(fs);
    MiddleOfEight(fs[0], fs[1], fs[2], fs[3], fs[4], fs[5], fs[6], fs[7], p);
  }

  /** The descendants of the object's dotted paths are its two fields. */
  lemma EmbeddedNameChildren(fs: seq<FieldInfo>, id: string, title: string, first: string, last: string)
    requires EmbeddedShape(fs, id, title, first, last)
    ensures WithPrefix(fs, fs[5].name + ".") == [fs[6], fs[7]]
  {
    var n := fs[5].name;
    var p := n + ".";
    assert p[|n|] == '.';
    MissingCharNotPrefix(fs[0].name, p, |n|);
    MissingCharNotPrefix(fs[1].name, p, |n|);
    ElementPathNoDot(fs[1].name, "");
    assert fs[1].name + ElementMarker + "" == fs[2].name;
    MissingCharNotPrefix(fs[2].name, p, |n|);
    TableTypeExamples.NotPrefixAt(fs[3].name, p, 0);
    TableTypeExamples.NotPrefixAt(fs[4].name, p, 0);
    TableTypeExamples.PrefixOf(p, first);
    TableTypeExamples.PrefixOf(p, last);
    assert p + first == fs[6].name && p + last == fs[7].name;
    SeqEight(fs);
    LastTwoOfEight(fs[0], fs[1], fs[2], fs[3], fs[4], fs[5], fs[6], fs[7], p);
  }

  /** The array is an array of the objects `{ id; title }`. */
  lemma EmbeddedComments(fs: seq<FieldInfo>, id: string, title: string, first: string, last: string)
    requires EmbeddedShape(fs, id, title, first, last)
    requires KindOf(fs[1].definition) == "array" && KindOf(fs[2].definition) == "object"
    requires KindOf(fs[3].definition) == "string" && KindOf(fs[4].definition) == "string"
    ensures fs[1] in fs
    ensures FieldType(fs, fs[1])
            == ArrayOf(Literal([Prop(id, IsOptional(fs[3].definition), StringKeyword, None),
                                Prop(title, IsOptional(fs[4].definition), StringKeyword, None)]))
  {
    var c := fs[1].name;
    ArrayField(fs, fs[1]);
    EmbeddedItems(fs, id, title, first, last);
    ObjectElementLevel(c, fs[2].definition, id, fs[3].definition, title, fs[4].definition);
    assert [fs[2], fs[3], fs[4]]
           == [FieldInfo(c + ElementMarker, fs[2].definition), FieldInfo(c + ElementMarker + "." + id, fs[3].definition),
               FieldInfo(c + ElementMarker + "." + title, fs[4].definition)];
  }

  /** The object is the literal `{ first; last }`. */
  lemma EmbeddedName(fs: seq<FieldInfo>, id: string, title: string, first: string, last: string)
    requires EmbeddedShape(fs, id, title, first, last)
    requires KindOf(fs[5].definition) == "object"
    requires KindOf(fs[6].definition) == "string" && KindOf(fs[7].definition) == "string"
    ensures fs[5] in fs
    ensures FieldType(fs, fs[5])
            == Literal([Prop(first, IsOptional(fs[6].definition), StringKeyword, None),
                        Prop(last, IsOptional(fs[7].definition), StringKeyword, None)])
  {
    var n := fs[5].name;
    ObjectField(fs, fs[5]);
    EmbeddedNameChildren(fs, id, title, first, last);
    ObjectLevel(n, first, fs[6].definition, last, fs[7].definition);
    assert [fs[6], fs[7]] == [FieldInfo(n + "." + first, fs[6].definition), FieldInfo(n + "." + last, fs[7].definition)];
  }

  /**
   * `{ a: number; c: { id: string; title: string }[]; n: { first: string; last: string } }`
   * for any fields of the embedded test's shape and kinds, with the optionality of each
   * definition.
   */
  lemma Embedded(fs: seq<FieldInfo>, id: string, title: string, first: string, last: string)
    requires EmbeddedShape(fs, id, title, first, last)
    requires KindOf(fs[0].definition) == "int"
    requires KindOf(fs[1].definition) == "array" && KindOf(fs[2].definition) == "object"
    requires KindOf(fs[3].definition) == "string" && KindOf(fs[4].definition) == "string"
    requires KindOf(fs[5].definition) == "object"
    requires KindOf(fs[6].definition) == "string" && KindOf(fs[7].definition) == "string"
    ensures CreateTableType(fs, None)
            == Literal([Prop(fs[0].name, IsOptional(fs[0].definition), NumberKeyword, None),
                        Prop(fs[1].name, IsOptional(fs[1].definition),
                             ArrayOf(Literal([Prop(id, IsOptional(fs[3].definition), StringKeyword, None),
                                              Prop(title, IsOptional(fs[4].definition), StringKeyword, None)])), None),
                        Prop(fs[5].name, IsOptional(fs[5].definition),
                             Literal([Prop(first, IsOptional(fs[6].definition), StringKeyword, None),
                                      Prop(last, IsOptional(fs[7].definition), StringKeyword, None)]), None)])
  {
    EmbeddedTop(fs, id, title, first, last);
    assert fs[0] in fs;
    LeafFieldType(fs, fs[0]);
    EmbeddedComments(fs, id, title, first, last);
    EmbeddedName(fs, id, title, first, last);
    TableTypeExamples.PlainName(fs[0].name);
    TableTypeExamples.PlainName(fs[1].name);
    TableTypeExamples.PlainName(fs[5].name);
    TopOfThree(fs, fs[0], fs[1], fs[5], FieldType(fs, fs[0]), FieldType(fs, fs[1]), FieldType(fs, fs[5]));
  }

  /** The embedded test's fields, in its order, with the given definitions. */
  function EmbeddedFields(ad: string, cd: string, ed: string, idd: string, td: string,
                          nd: string, fd: string, ld: string): seq<FieldInfo> {
    [FieldInfo("age", ad), FieldInfo("comments", cd), FieldInfo("comments[*]", ed),
     FieldInfo("comments[*].id", idd), FieldInfo("comments[*].title", td),
     FieldInfo("name", nd), FieldInfo("name.first", fd), FieldInfo("name.last", ld)]
  }

  /** Fields named after an array `c` and an object `n` of plain names have the embedded test's shape. */
  lemma ShapeOfNames(a: string, c: string, n: string, id: string, title: string, first: string, last: string,
                     ds: seq<string>)
    requires |ds| == 8
    requires '.' !in a && '[' !in a && '.' !in c && '[' !in c && '.' !in n && '[' !in n
    requires '.' !in id && '[' !in id && '.' !in title && '[' !in title
    requires '.' !in first && '[' !in first && '.' !in last && '[' !in last
    requires c != [] && n != [] && c[0] != n[0] && c[|c| - 1] != ']'
    ensures EmbeddedShape([FieldInfo(a, ds[0]), FieldInfo(c, ds[1]), FieldInfo(c + ElementMarker, ds[2]),
                           FieldInfo(c + ElementMarker + "." + id, ds[3]), FieldInfo(c + ElementMarker + "." + title, ds[4]),
                           FieldInfo(n, ds[5]), FieldInfo(n + "." + first, ds[6]), FieldInfo(n + "." + last, ds[7])],
                          id, title, first, last)
  {
  }

  /** The embedded test's paths have the embedded test's shape. */
  lemma EmbeddedPaths(ad: string, cd: string, ed: string, idd: string, td: string, nd: string, fd: string, ld: string)
    ensures EmbeddedShape(EmbeddedFields(ad, cd, ed, idd, td, nd, fd, ld), "id", "title", "first", "last")
  {
    EmbeddedNames();
    ShapeOfNames("age", "comments", "name", "id", "title", "first", "last", [ad, cd, ed, idd, td, nd, fd, ld]);
  }

  /** The embedded test's paths spelled from their parts. */
  lemma EmbeddedNames()
    ensures "comments" + ElementMarker == "comments[*]"
    ensures "comments" + ElementMarker + "." + "id" == "comments[*].id"
    ensures "comments" + ElementMarker + "." + "title" == "comments[*].title"
    ensures "name" + "." + "first" == "name.first" && "name" + "." + "last" == "name.last"
  {
  }

  /** The embedded test's paths, for definitions of the test's kinds. */
  lemma EmbeddedTable(ad: string, cd: string, ed: string, idd: string, td: string, nd: string, fd: string, ld: string)
    requires KindOf(ad) == "int" && KindOf(cd) == "array" && KindOf(ed) == "object"
    requires KindOf(idd) == "string" && KindOf(td) == "string"
    requires KindOf(nd) == "object" && KindOf(fd) == "string" && KindOf(ld) == "string"
    ensures CreateTableType(EmbeddedFields(ad, cd, ed, idd, td, nd, fd, ld), None)
            == Literal([Prop("age", IsOptional(ad), NumberKeyword, None),
                        Prop("comments", IsOptional(cd),
                             ArrayOf(Literal([Prop("id", IsOptional(idd), StringKeyword, None),
                                              Prop("title", IsOptional(td), StringKeyword, None)])), None),
                        Prop("name", IsOptional(nd),
                             Literal([Prop("first", IsOptional(fd), StringKeyword, None),
                                      Prop("last", IsOptional(ld), StringKeyword, None)]), None)])
  {
    EmbeddedPaths(ad, cd, ed, idd, td, nd, fd, ld);
    Embedded(EmbeddedFields(ad, cd, ed, idd, td, nd, fd, ld), "id", "title", "first", "last");
  }

  /** Where the current kind parser reads one of the test's kinds, the older one reads the same. */
  lemma SameKind(d: string, kind: string)
    requires TableType.KindOf(d) == kind && kind in {"int", "array", "object", "string"}
    ensures KindOf(d) == kind
  {
    KindAgreesOnWords(d);
  }

  /** A camel-case field name with a capital T, `userType`, does not disturb either kind parser. */
  lemma CamelCaseFieldName()
    ensures TableType.KindOf("DEFINE FIELD userType ON user TYPE string") == "string"
    ensures KindOf("DEFINE FIELD userType ON user TYPE string") == "string"
  {
    var pre := "DEFINE FIELD userType ON user ";
    forall q | 0 <= q < |pre| - 1 && pre[q] == 'T'
      ensures pre[q + 1] != 'Y'
    {
      assert q == 17;
    }
    NoTypeKeywordCamel(pre);
    assert pre + TypeKeyword + "string" + [] == "DEFINE FIELD userType ON user TYPE string";
    TableType.KindOfDefineField(pre, "string", []);
    KindOfDefineField(pre, "string", []);
  }

  /**
   * `{ age: number; comments: { id?: string; title?: string }[]; name?: { first: string;
   * last?: string } }` with the test's own definitions; this variant attaches no comments.
   */
  lemma EmbeddedScenario(ad: string, cd: string, ed: string, idd: string, td: string, nd: string, fd: string, ld: string)
    requires ad == TableTypeExamples.Definition("age", "int", TableTypeExamples.Required)
    requires cd == TableTypeExamples.Definition("comments", "array", TableTypeExamples.Required)
    requires ed == TableTypeExamples.Definition("comments[*]", "object", TableTypeExamples.Required)
    requires idd == TableTypeExamples.Definition("comments[*].id", "string", " ASSERT $value = /" + "^comment:." + "*/")
    requires td == TableTypeExamples.Definition("comments[*].title", "string", "")
    requires nd == TableTypeExamples.Definition("name", "object", "")
    requires fd == TableTypeExamples.Definition("name.first", "string", TableTypeExamples.Required)
    requires ld == TableTypeExamples.Definition("name.last", "string", "")
    ensures CreateTableType(EmbeddedFields(ad, cd, ed, idd, td, nd, fd, ld), None)
            == Literal([Prop("age", false, NumberKeyword, None),
                        Prop("comments", false,
                             ArrayOf(Literal([Prop("id", true, StringKeyword, None),
                                              Prop("title", true, StringKeyword, None)])), None),
                        Prop("name", true,
                             Literal([Prop("first", false, StringKeyword, None),
                                      Prop("last", true, StringKeyword, None)]), None)])
  {
    TableTypeExamples.AgeDefinition(ad);
    TableTypeExamples.CommentsDefinition(cd);
    TableTypeExamples.CommentObjectDefinition(ed);
    TableTypeExamples.CommentIdDefinition(idd);
    TableTypeExamples.CommentTitleDefinition(td);
    TableTypeExamples.NameObjectDefinition(nd);
    TableTypeExamples.FirstNameDefinition(fd);
    TableTypeExamples.LastNameDefinition(ld);
    SameKind(ad, "int");
    SameKind(cd, "array");
    SameKind(ed, "object");
    SameKind(idd, "string");
    SameKind(td, "string");
    SameKind(nd, "object");
    SameKind(fd, "string");
    SameKind(ld, "string");
    EmbeddedTable(ad, cd, ed, idd, td, nd, fd, ld);
  }

  // ---------------------------------------------------------------------------
  // Matrices under the older base-field test
  // ---------------------------------------------------------------------------

  /**
   * A matrix `m: number[][]` comes out as an array of a two-property object: the rows and the
   * cells both sit on the matrix's element level, the cells under the name `m[*]`.
   */
  lemma MatrixNotNested(m: string, md: string, rd: string, cd: string)
    requires '.' !in m && '[' !in m && m != []
    requires KindOf(md) == "array" && KindOf(rd) == "array" && KindOf(cd) == "int"
    ensures CreateTableType([FieldInfo(m, md), FieldInfo(m + ElementMarker, rd),
                             FieldInfo(m + ElementMarker + ElementMarker, cd)], None)
            == Literal([Prop(m, IsOptional(md),
                             ArrayOf(Literal([Prop(m, IsOptional(rd), ArrayOf(NumberKeyword), None),
                                              Prop(m + ElementMarker, IsOptional(cd), NumberKeyword, None)])),
                             None)])
  {
    var mat, row, cell := FieldInfo(m, md), FieldInfo(m + ElementMarker, rd),
                          FieldInfo(m + ElementMarker + ElementMarker, cd);
    var fields := [mat, row, cell];
    MatrixTopLevel(mat, row, cell);
    OneFieldTop(fields, mat);
    TableTypeExamples.PlainName(m);
    ArrayField(fields, mat);
    MatrixRowLevel(m, rd, cd);
  }

  /** A top level with a single base field is the literal of that one property. */
  lemma OneFieldTop(fields: seq<FieldInfo>, f: FieldInfo)
    requires BaseFields(fields, None) == [f]
    ensures f in fields
    ensures CreateTableType(fields, None) == Literal([PropOf(fields, f)])
  {
    BaseFieldsMembers(fields, None);
    assert f in BaseFields(fields, None);
    if EndsWith(f.name, ElementMarker) {
      EndsWithContains(f.name, ElementMarker);
    }
    LiteralLevel(fields, None);
    PropsOne(fields, f);
  }

  /** Only the matrix is top-level; the rows and the cells are its descendants. */
  lemma MatrixTopLevel(mat: FieldInfo, row: FieldInfo, cell: FieldInfo)
    requires '.' !in mat.name && '[' !in mat.name
    requires row.name == mat.name + ElementMarker && cell.name == mat.name + ElementMarker + ElementMarker
    ensures BaseFields([mat, row, cell], None) == [mat]
    ensures WithPrefix([mat, row, cell], mat.name + ElementMarker) == [row, cell]
  {
    TopLevelAgrees([mat, row, cell]);
    TableTypeExamples.MatrixTop(mat, row, cell);
  }

  /** The matrix's element level holds the rows and the cells side by side. */
  lemma MatrixRowLevel(m: string, rd: string, cd: string)
    requires '.' !in m && '[' !in m && m != []
    requires KindOf(rd) == "array" && KindOf(cd) == "int"
    ensures CreateTableType([FieldInfo(m + ElementMarker, rd), FieldInfo(m + ElementMarker + ElementMarker, cd)], Some(m))
            == Literal([Prop(m, IsOptional(rd), ArrayOf(NumberKeyword), None),
                        Prop(m + ElementMarker, IsOptional(cd), NumberKeyword, None)])
  {
    var row, cell := FieldInfo(m + ElementMarker, rd), FieldInfo(m + ElementMarker + ElementMarker, cd);
    ElementKept(m);
    MatrixCellKept(m);
    PropNameElement(m, "");
    PropNameElement(m, ElementMarker);
    assert m + ElementMarker + "" == row.name && m + "" == m;
    MatrixRowType(m, rd, cd);
    LeafFieldType([row, cell], cell);
    TwoFieldLevel(row, cell, Some(m), ArrayOf(NumberKeyword), NumberKeyword);
  }

  /** Within the matrix's element level, the rows are arrays of numbers. */
  lemma MatrixRowType(m: string, rd: string, cd: string)
    requires '.' !in m && m != []
    requires KindOf(rd) == "array" && KindOf(cd) == "int"
    ensures var row, cell := FieldInfo(m + ElementMarker, rd), FieldInfo(m + ElementMarker + ElementMarker, cd);
            row in [row, cell] && FieldType([row, cell], row) == ArrayOf(NumberKeyword)
  {
    var row, cell := FieldInfo(m + ElementMarker, rd), FieldInfo(m + ElementMarker + ElementMarker, cd);
    ArrayField([row, cell], row);
    TableTypeExamples.MatrixCells(row, cell);
    ElementPathNoDot(m, "");
    assert m + ElementMarker + "" == row.name;
    CellLevel(row.name, cd);
  }

  /** Below a dot-free row path, its element alone stands for a number. */
  lemma CellLevel(r: string, cd: string)
    requires '.' !in r && KindOf(cd) == "int"
    ensures CreateTableType([FieldInfo(r + ElementMarker, cd)], Some(r)) == NumberKeyword
  {
    var cell := FieldInfo(r + ElementMarker, cd);
    ElementKept(r);
    BaseFieldsAll([cell], Some(r));
    TableTypeExamples.ElementPath(r);
    ElementLevel([cell], Some(r), cell);
    LeafFieldType([cell], cell);
  }
}
