/**
 * The scenarios of lib/generate/utils/tests/createTableType.test.ts, stated as equalities between
 * the reconstructed type tree and the tree the expected printed type describes.
 */
module TableTypeExamples {
  import opened Wrappers
  import opened Strings
  import opened Seqs
  import opened TypeNodes
  import opened TableType

  // ---------------------------------------------------------------------------
  // Facts about definitions and paths of the shape the scenarios use
  // ---------------------------------------------------------------------------

  /** The statement `DEFINE FIELD <path> ON user TYPE <kind><tail>` that the scenarios feed in. */
  function Definition(path: string, kind: string, tail: string): string {
    "DEFINE FIELD " + path + " ON user " + TypeKeyword + kind + tail
  }

  /** The tail that makes a field required. */
  const Required: string := " " + NotNoneAssertion

  /** No "TYPE " starts in the part of a scenario definition before its keyword. */
  lemma ScenarioPrefix(path: string)
    requires 'T' !in path
    ensures NoTypeKeywordIn("DEFINE FIELD " + path + " ON user ")
  {
    NoTypeKeywordWithoutT("DEFINE FIELD " + path + " ON user ");
  }

  /** A scenario field with the not-NONE assertion: required, of its kind, commented verbatim. */
  lemma RequiredField(path: string, kind: string, d: string)
    requires NoTypeKeywordIn("DEFINE FIELD " + path + " ON user ") && '/' !in path && '/' !in kind
    requires kind != [] && forall c :: c in kind ==> !IsSpace(c)
    requires d == Definition(path, kind, Required)
    ensures KindOf(d) == kind && !IsOptional(d) && DocText(d) == d
  {
    var pre := "DEFINE FIELD " + path + " ON user ";
    assert Definition(path, kind, Required) == pre + TypeKeyword + kind + " " + NotNoneAssertion;
    RequiredDefinition(pre, kind);
  }

  /** A scenario field with nothing after its kind: optional, of its kind, commented verbatim. */
  lemma OptionalField(path: string, kind: string, d: string)
    requires NoTypeKeywordIn("DEFINE FIELD " + path + " ON user ") && '/' !in path && '/' !in kind
    requires '!' !in path && '!' !in kind
    requires kind != [] && forall c :: c in kind ==> !IsSpace(c)
    requires d == Definition(path, kind, "")
    ensures KindOf(d) == kind && IsOptional(d) && DocText(d) == d
  {
    var pre := "DEFINE FIELD " + path + " ON user ";
    assert Definition(path, kind, "") == pre + TypeKeyword + kind;
    OptionalDefinition(pre, kind);
  }

  /** A definition `<pre>TYPE <kind> ASSERT $value != NONE`: a required field of that kind. */
  lemma RequiredDefinition(pre: string, kind: string)
    requires NoTypeKeywordIn(pre) && '/' !in pre && '/' !in kind
    requires kind != [] && forall c :: c in kind ==> !IsSpace(c)
    ensures var d := pre + TypeKeyword + kind + " " + NotNoneAssertion;
            KindOf(d) == kind && !IsOptional(d) && DocText(d) == d
  {
    RequiredKind(pre, kind);
    RequiredByAssertion(pre + TypeKeyword + kind + " ");
    assert '/' !in pre + TypeKeyword + kind + " ";
    DocUnchanged(pre + TypeKeyword + kind + " " + NotNoneAssertion);
  }

  lemma RequiredKind(pre: string, kind: string)
    requires NoTypeKeywordIn(pre)
    requires kind != [] && forall c :: c in kind ==> !IsSpace(c)
    ensures KindOf(pre + TypeKeyword + kind + " " + NotNoneAssertion) == kind
  {
    var post := " " + NotNoneAssertion;
    assert post[0] == ' ';
    KindOfDefineField(pre, kind, post);
    assert pre + TypeKeyword + kind + " " + NotNoneAssertion == pre + TypeKeyword + kind + post;
  }

  /** A definition that ends in the not-NONE assertion is required. */
  lemma RequiredByAssertion(head: string)
    ensures !IsOptional(head + NotNoneAssertion)
  {
    assert head + NotNoneAssertion == head + NotNoneAssertion + "";
    ContainsInfix(head, NotNoneAssertion, "");
  }

  /** A definition without a slash is its own comment text. */
  lemma DocUnchanged(d: string)
    requires '/' !in d
    ensures DocText(d) == d
  {
    MissingCharNotContains(d, "*/", 1);
    ReplaceFirstAbsent(d, "*/", "[REPLACED]");
  }

  /** A definition `<pre>TYPE <kind>` with nothing after the kind: an optional field of that kind. */
  lemma OptionalDefinition(pre: string, kind: string)
    requires NoTypeKeywordIn(pre) && '/' !in pre && '/' !in kind && '!' !in pre && '!' !in kind
    requires kind != [] && forall c :: c in kind ==> !IsSpace(c)
    ensures var d := pre + TypeKeyword + kind;
            KindOf(d) == kind && IsOptional(d) && DocText(d) == d
  {
    var d := pre + TypeKeyword + kind;
    assert d == pre + TypeKeyword + kind + [];
    KindOfDefineField(pre, kind, []);
    MissingCharNotContains(d, NotNoneAssertion, 14);
    DocUnchanged(d);
  }

  /** A field of one of the scalar kinds the scenarios use has the mapped type. */
  lemma KindField(fields: seq<FieldInfo>, f: FieldInfo, kind: string, ty: TypeNode)
    requires f in fields && KindOf(f.definition) == kind
    requires (kind, ty) in {("int", NumberKeyword), ("string", StringKeyword)}
    ensures FieldType(fields, f) == ty
  {
    LeafFieldType(fields, f);
    TsTypeOfKindTable(kind);
  }

  /** A plain name is a top-level path and its own property name. */
  lemma PlainName(name: string)
    requires '.' !in name && '[' !in name
    ensures IsTopLevel(name) && PropName(name) == name
  {
    MissingCharNotContains(name, ".", 0);
    MissingCharNotContains(name, ElementMarker, 0);
    PropNameTopLevel(name);
  }

  /** A path that goes through an array element is not top-level. */
  lemma MarkedNameNotTopLevel(a: string, b: string)
    ensures !IsTopLevel(a + ElementMarker + b)
  {
    ContainsInfix(a, ElementMarker, b);
  }

  /** A dotted path is not top-level. */
  lemma DottedNameNotTopLevel(a: string, b: string)
    ensures !IsTopLevel(a + "." + b)
  {
    assert (a + "." + b)[|a|] == '.';
    ContainsChar(a + "." + b, '.');
  }

  /** A plain child `parent.leaf` is a base field of `parent`, named `leaf`. */
  lemma PlainChild(parent: string, leaf: string, k: nat)
    requires k < |parent| && parent[k] !in leaf
    requires '.' !in leaf && '[' !in leaf
    ensures IsDirectChild(parent + "." + leaf, parent)
    ensures PropName(parent + "." + leaf) == leaf
  {
    MissingCharNotContains(leaf, parent, k);
    DirectChildIff(parent, leaf);
    PlainLeave(leaf);
    PropNameChild(parent, leaf);
  }

  // ---------------------------------------------------------------------------
  // "can handle basic types"
  // ---------------------------------------------------------------------------

  /** `p + x` starts with `p`. */
  lemma PrefixOf(p: string, x: string)
    ensures StartsWith(p + x, p)
  {
    assert (p + x)[..|p|] == p;
  }

  /** A level whose two fields both belong to it is the literal of their two properties, in order. */
  lemma TwoFieldLevel(a: FieldInfo, b: FieldInfo, parent: Option<string>, ta: TypeNode, tb: TypeNode)
    requires IsBase(parent, a) && IsBase(parent, b)
    requires FieldType([a, b], a) == ta && FieldType([a, b], b) == tb
    ensures CreateTableType([a, b], parent)
            == Literal([Prop(PropName(a.name), IsOptional(a.definition), ta, Some(DocText(a.definition))),
                        Prop(PropName(b.name), IsOptional(b.definition), tb, Some(DocText(b.definition)))])
  {
    BaseFieldsAll([a, b], parent);
    LiteralLevel([a, b], parent);
    PropsTwo([a, b], a, b);
  }

  /** A top level with a single base field is the literal of that one property. */
  lemma OneFieldTop(fields: seq<FieldInfo>, f: FieldInfo)
    requires BaseFields(fields, None) == [f]
    ensures f in fields
    ensures CreateTableType(fields, None) == Literal([PropOf(fields, f)])
  {
    BaseFieldsMembers(fields, None);
    assert f in BaseFields(fields, None);
    TopLevelIsLiteral(fields);
    PropsOne(fields, f);
  }

  /** A level with exactly two base fields is the literal of their two properties, in order. */
  lemma LevelOfTwo(fields: seq<FieldInfo>, parent: Option<string>, a: FieldInfo, b: FieldInfo)
    requires BaseFields(fields, parent) == [a, b]
    ensures a in fields && b in fields
    ensures CreateTableType(fields, parent) == Literal([PropOf(fields, a), PropOf(fields, b)])
  {
    BaseFieldsMembers(fields, parent);
    assert a in BaseFields(fields, parent) && b in BaseFields(fields, parent);
    LiteralLevel(fields, parent);
    PropsTwo(fields, a, b);
  }

  /** Extending a string keeps its prefixes. */
  lemma PrefixExtend(s: string, p: string, x: string)
    requires StartsWith(s, p)
    ensures StartsWith(s + x, p)
  {
    assert (s + x)[..|p|] == s[..|p|];
  }

  /** A string that differs from `p` at some index of both is not prefixed by `p`. */
  lemma NotPrefixAt(s: string, p: string, i: nat)
    requires i < |s| && i < |p| && s[i] != p[i]
    ensures !StartsWith(s, p)
  {
    if |p| <= |s| {
      assert s[..|p|][i] == s[i];
    }
  }

  /** `{ age: number; name?: string }` for any two plain names: one property per field, in order. */
  lemma BasicTypes(an: string, ageDef: string, nn: string, nameDef: string)
    requires '.' !in an && '[' !in an && '.' !in nn && '[' !in nn
    requires KindOf(ageDef) == "int" && KindOf(nameDef) == "string"
    ensures CreateTableType([FieldInfo(an, ageDef), FieldInfo(nn, nameDef)], None)
            == Literal([Prop(an, IsOptional(ageDef), NumberKeyword, Some(DocText(ageDef))),
                        Prop(nn, IsOptional(nameDef), StringKeyword, Some(DocText(nameDef)))])
  {
    var age, name := FieldInfo(an, ageDef), FieldInfo(nn, nameDef);
    PlainName(an);
    PlainName(nn);
    KindField([age, name], age, "int", NumberKeyword);
    KindField([age, name], name, "string", StringKeyword);
    TwoFieldLevel(age, name, None, NumberKeyword, StringKeyword);
  }

  /** The scenario's `age`: a required integer. */
  lemma AgeDefinition(d: string)
    requires d == Definition("age", "int", Required)
    ensures KindOf(d) == "int" && !IsOptional(d) && DocText(d) == d
  {
    ScenarioPrefix("age");
    RequiredField("age", "int", d);
  }

  /** The scenario's `name`: an optional string. */
  lemma NameDefinition(d: string)
    requires d == Definition("name", "string", "")
    ensures KindOf(d) == "string" && IsOptional(d) && DocText(d) == d
  {
    ScenarioPrefix("name");
    OptionalField("name", "string", d);
  }

  /** `{ age: number; name?: string }` with the scenario's own definitions, commented verbatim. */
  lemma BasicTypesScenario(ageDef: string, nameDef: string)
    requires ageDef == Definition("age", "int", Required) && nameDef == Definition("name", "string", "")
    ensures CreateTableType([FieldInfo("age", ageDef), FieldInfo("name", nameDef)], None)
            == Literal([Prop("age", false, NumberKeyword, Some(ageDef)),
                        Prop("name", true, StringKeyword, Some(nameDef))])
  {
    AgeDefinition(ageDef);
    NameDefinition(nameDef);
    BasicTypes("age", ageDef, "name", nameDef);
  }

  // ---------------------------------------------------------------------------
  // "can handle objects"
  // ---------------------------------------------------------------------------

  /** Base fields of a two-field level, one field at a time. */
  lemma BaseOfTwo(a: FieldInfo, b: FieldInfo, parent: Option<string>)
    ensures BaseFields([a, b], parent)
            == (if IsBase(parent, a) then [a] else []) + (if IsBase(parent, b) then [b] else [])
  {
    assert [a, b] == [a] + [b] && [b] == [b] + [];
    BaseFieldsCons(a, [b], parent);
    BaseFieldsCons(b, [], parent);
  }

  /** Base fields of a three-field level, one field at a time. */
  lemma BaseOfThree(a: FieldInfo, b: FieldInfo, c: FieldInfo, parent: Option<string>)
    ensures BaseFields([a, b, c], parent)
            == (if IsBase(parent, a) then [a] else []) + (if IsBase(parent, b) then [b] else [])
               + (if IsBase(parent, c) then [c] else [])
  {
    assert [a, b, c] == [a] + [b, c] && [b, c] == [b] + [c] && [c] == [c] + [];
    BaseFieldsCons(a, [b, c], parent);
    BaseFieldsCons(b, [c], parent);
    BaseFieldsCons(c, [], parent);
  }

  /** Descendants of a prefix in a three-field list, one field at a time. */
  lemma PrefixOfThree(a: FieldInfo, b: FieldInfo, c: FieldInfo, prefix: string)
    ensures WithPrefix([a, b, c], prefix)
            == (if StartsWith(a.name, prefix) then [a] else []) + (if StartsWith(b.name, prefix) then [b] else [])
               + (if StartsWith(c.name, prefix) then [c] else [])
  {
    assert [a, b, c] == [a] + [b, c] && [b, c] == [b] + [c] && [c] == [c] + [];
    WithPrefixCons(a, [b, c], prefix);
    WithPrefixCons(b, [c], prefix);
    WithPrefixCons(c, [], prefix);
  }

  /** The object and its two dotted children: only the object is top-level; the children are its descendants. */
  lemma ObjectsLevels(n: FieldInfo, a: FieldInfo, b: FieldInfo, first: string, last: string)
    requires '.' !in n.name && '[' !in n.name
    requires a.name == n.name + "." + first && b.name == n.name + "." + last
    ensures BaseFields([n, a, b], None) == [n]
    ensures WithPrefix([n, a, b], n.name + ".") == [a, b]
  {
    PlainName(n.name);
    DottedNameNotTopLevel(n.name, first);
    DottedNameNotTopLevel(n.name, last);
    BaseOfThree(n, a, b, None);
    PrefixOfThree(n, a, b, n.name + ".");
    assert n.name + "." + first == (n.name + ".") + first;
    assert n.name + "." + last == (n.name + ".") + last;
    PrefixOf(n.name + ".", first);
    PrefixOf(n.name + ".", last);
  }

  /** `{ n?: { first: string; last?: string } }` for an object `n` with two plain string children. */
  lemma Objects(n: string, nd: string, first: string, fd: string, last: string, ld: string, k: nat)
    requires '.' !in n && '[' !in n && '.' !in first && '[' !in first && '.' !in last && '[' !in last
    requires k < |n| && n[k] !in first && n[k] !in last
    requires KindOf(nd) == "object" && KindOf(fd) == "string" && KindOf(ld) == "string"
    ensures CreateTableType([FieldInfo(n, nd), FieldInfo(n + "." + first, fd), FieldInfo(n + "." + last, ld)], None)
            == Literal([Prop(n, IsOptional(nd),
                             Literal([Prop(first, IsOptional(fd), StringKeyword, Some(DocText(fd))),
                                      Prop(last, IsOptional(ld), StringKeyword, Some(DocText(ld)))]),
                             Some(DocText(nd)))])
  {
    var obj, a, b := FieldInfo(n, nd), FieldInfo(n + "." + first, fd), FieldInfo(n + "." + last, ld);
    var fields := [obj, a, b];
    ObjectsLevels(obj, a, b, first, last);
    OneFieldTop(fields, obj);
    PlainName(n);
    ObjectField(fields, obj);
    PlainChild(n, first, k);
    PlainChild(n, last, k);
    KindField([a, b], a, "string", StringKeyword);
    KindField([a, b], b, "string", StringKeyword);
    TwoFieldLevel(a, b, Some(n), StringKeyword, StringKeyword);
  }

  /** The scenario's `name` object: optional. */
  lemma NameObjectDefinition(d: string)
    requires d == Definition("name", "object", "")
    ensures KindOf(d) == "object" && IsOptional(d) && DocText(d) == d
  {
    ScenarioPrefix("name");
    OptionalField("name", "object", d);
  }

  /** The scenario's `name.first`: a required string. */
  lemma FirstNameDefinition(d: string)
    requires d == Definition("name.first", "string", Required)
    ensures KindOf(d) == "string" && !IsOptional(d) && DocText(d) == d
  {
    ScenarioPrefix("name.first");
    RequiredField("name.first", "string", d);
  }

  /** The scenario's `name.last`: an optional string. */
  lemma LastNameDefinition(d: string)
    requires d == Definition("name.last", "string", "")
    ensures KindOf(d) == "string" && IsOptional(d) && DocText(d) == d
  {
    ScenarioPrefix("name.last");
    OptionalField("name.last", "string", d);
  }

  /** The object scenario's paths, for definitions of the scenario's kinds. */
  lemma ObjectsTable(nd: string, fd: string, ld: string)
    requires KindOf(nd) == "object" && KindOf(fd) == "string" && KindOf(ld) == "string"
    ensures CreateTableType([FieldInfo("name", nd), FieldInfo("name.first", fd), FieldInfo("name.last", ld)], None)
            == Literal([Prop("name", IsOptional(nd),
                             Literal([Prop("first", IsOptional(fd), StringKeyword, Some(DocText(fd))),
                                      Prop("last", IsOptional(ld), StringKeyword, Some(DocText(ld)))]),
                             Some(DocText(nd)))])
  {
    assert "name" + "." + "first" == "name.first" && "name" + "." + "last" == "name.last";
    Objects("name", nd, "first", fd, "last", ld, 0);
  }

  /** `{ name?: { first: string; last?: string } }` with the scenario's own definitions. */
  lemma ObjectsScenario(nd: string, fd: string, ld: string)
    requires nd == Definition("name", "object", "")
    requires fd == Definition("name.first", "string", Required)
    requires ld == Definition("name.last", "string", "")
    ensures CreateTableType([FieldInfo("name", nd), FieldInfo("name.first", fd), FieldInfo("name.last", ld)], None)
            == Literal([Prop("name", true,
                             Literal([Prop("first", false, StringKeyword, Some(fd)),
                                      Prop("last", true, StringKeyword, Some(ld))]),
                             Some(nd))])
  {
    NameObjectDefinition(nd);
    FirstNameDefinition(fd);
    LastNameDefinition(ld);
    ObjectsTable(nd, fd, ld);
  }

  // ---------------------------------------------------------------------------
  // "can handle arrays of primitives"
  // ---------------------------------------------------------------------------

  /** An element path `p[*]` ends with the marker. */
  lemma ElementPath(p: string)
    ensures EndsWith(p + ElementMarker, ElementMarker) && StartsWith(p + ElementMarker, p + ElementMarker)
  {
    assert (p + ElementMarker)[|p|..] == ElementMarker;
  }

  /** A plain array and its element: only the array is top-level; the element is its only descendant. */
  lemma PrimitiveArrayLevels(arr: FieldInfo, elem: FieldInfo)
    requires '.' !in arr.name && '[' !in arr.name
    requires elem.name == arr.name + ElementMarker
    ensures BaseFields([arr, elem], None) == [arr]
    ensures WithPrefix([arr, elem], arr.name + ElementMarker) == [elem]
    ensures BaseFields([elem], Some(arr.name)) == [elem]
  {
    PlainName(arr.name);
    MarkedNameNotTopLevel(arr.name, "");
    assert arr.name + ElementMarker + "" == elem.name;
    assert [arr, elem] == [arr] + [elem] && [elem] == [elem] + [];
    BaseFieldsCons(arr, [elem], None);
    BaseFieldsCons(elem, [], None);
    ElementPath(arr.name);
    WithPrefixCons(arr, [elem], elem.name);
    WithPrefixCons(elem, [], elem.name);
    ElementIsDirectChild(arr.name);
    BaseFieldsAll([elem], Some(arr.name));
  }

  /** `{ c: string[] }` for an array `c` whose element is a string. */
  lemma ArrayOfPrimitives(c: string, cd: string, ed: string)
    requires '.' !in c && '[' !in c
    requires KindOf(cd) == "array" && KindOf(ed) == "string"
    ensures CreateTableType([FieldInfo(c, cd), FieldInfo(c + ElementMarker, ed)], None)
            == Literal([Prop(c, IsOptional(cd), ArrayOf(StringKeyword), Some(DocText(cd)))])
  {
    var arr, elem := FieldInfo(c, cd), FieldInfo(c + ElementMarker, ed);
    var fields := [arr, elem];
    PrimitiveArrayLevels(arr, elem);
    OneFieldTop(fields, arr);
    PlainName(c);
    ArrayField(fields, arr);
    ElementPath(c);
    ElementLevel([elem], Some(c), elem);
    KindField([elem], elem, "string", StringKeyword);
  }

  /** The scenario's `comments` array: required. */
  lemma CommentsDefinition(d: string)
    requires d == Definition("comments", "array", Required)
    ensures KindOf(d) == "array" && !IsOptional(d) && DocText(d) == d
  {
    ScenarioPrefix("comments");
    RequiredField("comments", "array", d);
  }

  /** The primitive-array scenario's paths, for definitions of the scenario's kinds. */
  lemma ArrayOfPrimitivesTable(cd: string, ed: string)
    requires KindOf(cd) == "array" && KindOf(ed) == "string"
    ensures CreateTableType([FieldInfo("comments", cd), FieldInfo("comments[*]", ed)], None)
            == Literal([Prop("comments", IsOptional(cd), ArrayOf(StringKeyword), Some(DocText(cd)))])
  {
    assert "comments" + ElementMarker == "comments[*]";
    ArrayOfPrimitives("comments", cd, ed);
  }

  /** The scenario's string element `comments[*]`: required. */
  lemma CommentElementDefinition(d: string)
    requires d == Definition("comments[*]", "string", Required)
    ensures KindOf(d) == "string"
  {
    ScenarioPrefix("comments[*]");
    RequiredField("comments[*]", "string", d);
  }

  /** `{ comments: string[] }` with the scenario's own definitions. */
  lemma ArrayOfPrimitivesScenario(cd: string, ed: string)
    requires cd == Definition("comments", "array", Required)
    requires ed == Definition("comments[*]", "string", Required)
    ensures CreateTableType([FieldInfo("comments", cd), FieldInfo("comments[*]", ed)], None)
            == Literal([Prop("comments", false, ArrayOf(StringKeyword), Some(cd))])
  {
    CommentsDefinition(cd);
    CommentElementDefinition(ed);
    ArrayOfPrimitivesTable(cd, ed);
  }

  // ---------------------------------------------------------------------------
  // "can handle arrays of objects"
  // ---------------------------------------------------------------------------

  /** A scenario field asserting a `/pattern*\/` regular expression: optional, its first terminator replaced. */
  lemma PatternField(path: string, kind: string, pattern: string, d: string)
    requires NoTypeKeywordIn("DEFINE FIELD " + path + " ON user ") && '/' !in path && '/' !in kind && '/' !in pattern
    requires '!' !in path && '!' !in kind && '!' !in pattern
    requires kind != [] && forall c :: c in kind ==> !IsSpace(c)
    requires d == Definition(path, kind, " ASSERT $value = /" + pattern + "*/")
    ensures KindOf(d) == kind && IsOptional(d)
    ensures DocText(d) == Definition(path, kind, " ASSERT $value = /" + pattern + "[REPLACED]")
  {
    PatternKind(path, kind, pattern, d);
    var a := "DEFINE FIELD " + path + " ON user " + TypeKeyword + kind;
    assert '/' !in "DEFINE FIELD " + path + " ON user " by {
      assert '/' !in "DEFINE FIELD " && '/' !in " ON user ";
    }
    assert '/' !in TypeKeyword;
    PatternDefinition(a, pattern);
  }

  /** A pattern-asserting scenario field is optional and of its kind. */
  lemma PatternKind(path: string, kind: string, pattern: string, d: string)
    requires NoTypeKeywordIn("DEFINE FIELD " + path + " ON user ") && '!' !in path && '!' !in kind && '!' !in pattern
    requires kind != [] && forall c :: c in kind ==> !IsSpace(c)
    requires d == Definition(path, kind, " ASSERT $value = /" + pattern + "*/")
    ensures KindOf(d) == kind && IsOptional(d)
  {
    var pre := "DEFINE FIELD " + path + " ON user ";
    var rest := " ASSERT $value = /" + pattern + "*/";
    assert d == pre + TypeKeyword + kind + rest;
    assert rest[0] == ' ';
    KindOfDefineField(pre, kind, rest);
    NoBangOptional(pre + TypeKeyword + kind, " ASSERT $value = /", pattern, "*/");
  }

  /** A definition without a `!` cannot assert that its value is not NONE. */
  lemma NoBangOptional(a: string, b: string, c: string, e: string)
    requires '!' !in a && '!' !in b && '!' !in c && '!' !in e
    ensures IsOptional(a + (b + c + e))
  {
    assert '!' !in a + (b + c + e);
    MissingCharNotContains(a + (b + c + e), NotNoneAssertion, 14);
  }

  /** A pattern-asserting definition, regrouped around its regular expression's slash. */
  lemma PatternDefinition(a: string, pattern: string)
    requires '/' !in a && '/' !in pattern
    ensures DocText(a + (" ASSERT $value = /" + pattern + "*/")) == a + (" ASSERT $value = /" + pattern + "[REPLACED]")
  {
    var t := " ASSERT $value = ";
    assert " ASSERT $value = /" == t + "/";
    Regroup5(a, t, "/", pattern, "*/");
    Regroup5(a, t, "/", pattern, "[REPLACED]");
    assert (a + t)[|a + t| - 1] == ' ';
    PatternDoc(a + t, pattern);
  }

  /** The comment text of `x/pattern*\/`: its terminator replaced. */
  lemma PatternDoc(x: string, pattern: string)
    requires '/' !in x && '/' !in pattern && (x == [] || x[|x| - 1] != '*')
    ensures DocText(x + "/" + pattern + "*/") == x + "/" + pattern + "[REPLACED]"
  {
    DocTextFirstTerminator(x, pattern, []);
    assert x + "/" + pattern + "*/" + [] == x + "/" + pattern + "*/";
    assert x + "/" + pattern + "[REPLACED]" + [] == x + "/" + pattern + "[REPLACED]";
  }

  /** The array of objects is the only top-level path of its scenario. */
  lemma ObjectArrayTop(arr: FieldInfo, e: FieldInfo, a: FieldInfo, b: FieldInfo, id: string, title: string)
    requires '.' !in arr.name && '[' !in arr.name
    requires e.name == arr.name + ElementMarker
    requires a.name == arr.name + ElementMarker + "." + id && b.name == arr.name + ElementMarker + "." + title
    ensures BaseFields([arr, e, a, b], None) == [arr]
  {
    PlainName(arr.name);
    ElementNotTopLevel(arr.name);
    ElementFieldNotTopLevel(arr.name, id);
    ElementFieldNotTopLevel(arr.name, title);
    OnlyFirstOfFour(arr, e, a, b, None);
  }

  /** An array's element path is not top-level. */
  lemma ElementNotTopLevel(a: string)
    ensures !IsTopLevel(a + ElementMarker)
  {
    MarkedNameNotTopLevel(a, "");
    assert a + ElementMarker + "" == a + ElementMarker;
  }

  /** A list of four fields of which only the first belongs to the level. */
  lemma OnlyFirstOfFour(a: FieldInfo, b: FieldInfo, c: FieldInfo, d: FieldInfo, parent: Option<string>)
    requires IsBase(parent, a) && !IsBase(parent, b) && !IsBase(parent, c) && !IsBase(parent, d)
    ensures BaseFields([a, b, c, d], parent) == [a]
  {
    FilterFirstOfFour(a, b, c, d, (f: FieldInfo) => IsBase(parent, f));
  }

  /** A field of an array element is not top-level. */
  lemma ElementFieldNotTopLevel(a: string, leaf: string)
    ensures !IsTopLevel(a + ElementMarker + "." + leaf)
  {
    MarkedNameNotTopLevel(a, "." + leaf);
    assert a + ElementMarker + ("." + leaf) == a + ElementMarker + "." + leaf;
  }

  /** Everything below the array descends from its element path. */
  lemma ObjectArrayDescendants(arr: FieldInfo, e: FieldInfo, a: FieldInfo, b: FieldInfo, id: string, title: string)
    requires e.name == arr.name + ElementMarker
    requires a.name == e.name + "." + id && b.name == e.name + "." + title
    ensures WithPrefix([arr, e, a, b], e.name) == [e, a, b]
  {
    ElementPath(arr.name);
    PrefixOf(e.name, "." + id);
    PrefixOf(e.name, "." + title);
    assert e.name + ("." + id) == a.name && e.name + ("." + title) == b.name;
    assert [arr, e, a, b] == [arr] + [e, a, b];
    WithPrefixCons(arr, [e, a, b], e.name);
    WithPrefixAll([e, a, b], e.name);
  }

  /** Below the array only its element belongs: the element's own fields are one level further down. */
  lemma ObjectArrayElement(c: string, e: FieldInfo, a: FieldInfo, b: FieldInfo, id: string, title: string)
    requires c != [] && c[|c| - 1] != ']' && '.' !in id && '.' !in title
    requires e.name == c + ElementMarker
    requires a.name == c + ElementMarker + "." + id && b.name == c + ElementMarker + "." + title
    ensures BaseFields([e, a, b], Some(c)) == [e]
  {
    ElementIsDirectChild(c);
    ElementFieldNotDirect(c, id);
    ElementFieldNotDirect(c, title);
    BaseOfThree(e, a, b, Some(c));
  }

  /** The element's dotted fields are its descendants. */
  lemma ObjectArrayFields(e: FieldInfo, a: FieldInfo, b: FieldInfo, id: string, title: string)
    requires a.name == e.name + "." + id && b.name == e.name + "." + title
    ensures WithPrefix([e, a, b], e.name + ".") == [a, b]
  {
    PrefixOfThree(e, a, b, e.name + ".");
    assert a.name == (e.name + ".") + id && b.name == (e.name + ".") + title;
    PrefixOf(e.name + ".", id);
    PrefixOf(e.name + ".", title);
  }

  /** `{ c: { id?: string; title?: string }[] }` for an array `c` of objects with two plain string fields. */
  lemma ArrayOfObjects(c: string, cd: string, ed: string, id: string, idd: string, title: string, td: string, k: nat)
    requires '.' !in c && '[' !in c && c != [] && c[|c| - 1] != ']'
    requires '.' !in id && '[' !in id && '.' !in title && '[' !in title
    requires k < |c| && c[k] !in id && c[k] !in title
    requires KindOf(cd) == "array" && KindOf(ed) == "object" && KindOf(idd) == "string" && KindOf(td) == "string"
    ensures CreateTableType([FieldInfo(c, cd), FieldInfo(c + ElementMarker, ed),
                             FieldInfo(c + ElementMarker + "." + id, idd),
                             FieldInfo(c + ElementMarker + "." + title, td)], None)
            == Literal([Prop(c, IsOptional(cd),
                             ArrayOf(Literal([Prop(id, IsOptional(idd), StringKeyword, Some(DocText(idd))),
                                              Prop(title, IsOptional(td), StringKeyword, Some(DocText(td)))])),
                             Some(DocText(cd)))])
  {
    var arr, e := FieldInfo(c, cd), FieldInfo(c + ElementMarker, ed);
    var a, b := FieldInfo(c + ElementMarker + "." + id, idd), FieldInfo(c + ElementMarker + "." + title, td);
    var fields := [arr, e, a, b];
    ObjectArrayTop(arr, e, a, b, id, title);
    ObjectArrayDescendants(arr, e, a, b, id, title);
    OneFieldTop(fields, arr);
    PlainName(c);
    ArrayField(fields, arr);
    ObjectArrayElement(c, e, a, b, id, title);
    ElementPath(c);
    ElementLevel([e, a, b], Some(c), e);
    ObjectField([e, a, b], e);
    ObjectArrayFields(e, a, b, id, title);
    assert e.name[k] == c[k];
    PlainChild(e.name, id, k);
    PlainChild(e.name, title, k);
    KindField([a, b], a, "string", StringKeyword);
    KindField([a, b], b, "string", StringKeyword);
    TwoFieldLevel(a, b, Some(e.name), StringKeyword, StringKeyword);
  }

  /** The scenario's element `comments[*]`: a required object. */
  lemma CommentObjectDefinition(d: string)
    requires d == Definition("comments[*]", "object", Required)
    ensures KindOf(d) == "object"
  {
    ScenarioPrefix("comments[*]");
    RequiredField("comments[*]", "object", d);
  }

  /** The scenario's `comments[*].id`: an optional string whose comment has its first terminator replaced. */
  lemma CommentIdDefinition(d: string)
    requires d == Definition("comments[*].id", "string", " ASSERT $value = /" + "^comment:." + "*/")
    ensures KindOf(d) == "string" && IsOptional(d)
    ensures DocText(d) == Definition("comments[*].id", "string", " ASSERT $value = /" + "^comment:." + "[REPLACED]")
  {
    ScenarioPrefix("comments[*].id");
    PatternField("comments[*].id", "string", "^comment:.", d);
  }

  /** The scenario's `comments[*].title`: an optional string. */
  lemma CommentTitleDefinition(d: string)
    requires d == Definition("comments[*].title", "string", "")
    ensures KindOf(d) == "string" && IsOptional(d) && DocText(d) == d
  {
    ScenarioPrefix("comments[*].title");
    OptionalField("comments[*].title", "string", d);
  }

  /** The object-array scenario's paths, for definitions of the scenario's kinds. */
  lemma ArrayOfObjectsTable(cd: string, ed: string, idd: string, td: string)
    requires KindOf(cd) == "array" && KindOf(ed) == "object" && KindOf(idd) == "string" && KindOf(td) == "string"
    ensures CreateTableType([FieldInfo("comments", cd), FieldInfo("comments[*]", ed),
                             FieldInfo("comments[*].id", idd), FieldInfo("comments[*].title", td)], None)
            == Literal([Prop("comments", IsOptional(cd),
                             ArrayOf(Literal([Prop("id", IsOptional(idd), StringKeyword, Some(DocText(idd))),
                                              Prop("title", IsOptional(td), StringKeyword, Some(DocText(td)))])),
                             Some(DocText(cd)))])
  {
    assert "comments" + ElementMarker == "comments[*]";
    assert "comments" + ElementMarker + "." + "id" == "comments[*].id";
    assert "comments" + ElementMarker + "." + "title" == "comments[*].title";
    ArrayOfObjects("comments", cd, ed, "id", idd, "title", td, 0);
  }

  /**
   * `{ comments: { id?: string; title?: string }[] }` with the scenario's own definitions; the
   * comment of `id` has its regular expression's `*\/` replaced.
   */
  lemma ArrayOfObjectsScenario(cd: string, ed: string, idd: string, td: string)
    requires cd == Definition("comments", "array", Required)
    requires ed == Definition("comments[*]", "object", Required)
    requires idd == Definition("comments[*].id", "string", " ASSERT $value = /" + "^comment:." + "*/")
    requires td == Definition("comments[*].title", "string", "")
    ensures CreateTableType([FieldInfo("comments", cd), FieldInfo("comments[*]", ed),
                             FieldInfo("comments[*].id", idd), FieldInfo("comments[*].title", td)], None)
            == Literal([Prop("comments", false,
                             ArrayOf(Literal([Prop("id", true, StringKeyword,
                                                   Some(Definition("comments[*].id", "string",
                                                                   " ASSERT $value = /" + "^comment:." + "[REPLACED]"))),
                                              Prop("title", true, StringKeyword, Some(td))])),
                             Some(cd))])
  {
    CommentsDefinition(cd);
    CommentObjectDefinition(ed);
    CommentIdDefinition(idd);
    CommentTitleDefinition(td);
    ArrayOfObjectsTable(cd, ed, idd, td);
  }

  // ---------------------------------------------------------------------------
  // "can handle matrices"
  // ---------------------------------------------------------------------------

  /** The matrix, its rows and its cells: only the matrix is top-level; rows and cells are its descendants. */
  lemma MatrixTop(m: FieldInfo, row: FieldInfo, cell: FieldInfo)
    requires '.' !in m.name && '[' !in m.name
    requires row.name == m.name + ElementMarker && cell.name == m.name + ElementMarker + ElementMarker
    ensures BaseFields([m, row, cell], None) == [m]
    ensures WithPrefix([m, row, cell], row.name) == [row, cell]
  {
    PlainName(m.name);
    MarkedNameNotTopLevel(m.name, "");
    MarkedNameNotTopLevel(m.name, ElementMarker);
    assert m.name + ElementMarker + "" == row.name;
    BaseOfThree(m, row, cell, None);
    ElementPath(m.name);
    PrefixOf(row.name, ElementMarker);
    PrefixOfThree(m, row, cell, row.name);
  }

  /** Below the matrix only the rows belong, not the cells. */
  lemma MatrixRows(m: string, row: FieldInfo, cell: FieldInfo)
    requires row.name == m + ElementMarker && cell.name == m + ElementMarker + ElementMarker
    ensures BaseFields([row, cell], Some(m)) == [row]
  {
    MatrixRowPaths(m);
    BaseOfTwo(row, cell, Some(m));
  }

  /** `m[*]` is a direct child of `m`; `m[*][*]` is not. */
  lemma MatrixRowPaths(m: string)
    ensures IsDirectChild(m + ElementMarker, m)
    ensures !IsDirectChild(m + ElementMarker + ElementMarker, m)
  {
    ElementIsDirectChild(m);
    MatrixElementExcluded(m);
  }

  /** The cells are the only descendants of the rows, and they belong to the rows' level. */
  lemma MatrixCells(row: FieldInfo, cell: FieldInfo)
    requires cell.name == row.name + ElementMarker
    ensures WithPrefix([row, cell], cell.name) == [cell]
    ensures BaseFields([cell], Some(row.name)) == [cell]
  {
    assert [row, cell] == [row] + [cell] && [cell] == [cell] + [];
    ElementPath(row.name);
    WithPrefixCons(row, [cell], cell.name);
    WithPrefixCons(cell, [], cell.name);
    ElementIsDirectChild(row.name);
    BaseFieldsAll([cell], Some(row.name));
  }

  /** `{ m: number[][] }` for an array of arrays of integers. */
  lemma Matrices(m: string, md: string, rd: string, cd: string)
    requires '.' !in m && '[' !in m
    requires KindOf(md) == "array" && KindOf(rd) == "array" && KindOf(cd) == "int"
    ensures CreateTableType([FieldInfo(m, md), FieldInfo(m + ElementMarker, rd),
                             FieldInfo(m + ElementMarker + ElementMarker, cd)], None)
            == Literal([Prop(m, IsOptional(md), ArrayOf(ArrayOf(NumberKeyword)), Some(DocText(md)))])
  {
    var mat, row, cell := FieldInfo(m, md), FieldInfo(m + ElementMarker, rd),
                          FieldInfo(m + ElementMarker + ElementMarker, cd);
    var fields := [mat, row, cell];
    MatrixTop(mat, row, cell);
    MatrixRows(m, row, cell);
    MatrixCells(row, cell);
    OneFieldTop(fields, mat);
    PlainName(m);
    ArrayField(fields, mat);
    ElementPath(m);
    ElementLevel([row, cell], Some(m), row);
    ArrayField([row, cell], row);
    ElementPath(row.name);
    ElementLevel([cell], Some(row.name), cell);
    KindField([cell], cell, "int", NumberKeyword);
  }

  /** The scenario's `matrix`: a required array. */
  lemma MatrixDefinition(d: string)
    requires d == Definition("matrix", "array", Required)
    ensures KindOf(d) == "array" && !IsOptional(d) && DocText(d) == d
  {
    ScenarioPrefix("matrix");
    RequiredField("matrix", "array", d);
  }

  /** The scenario's rows `matrix[*]`: arrays. */
  lemma MatrixRowDefinition(d: string)
    requires d == Definition("matrix[*]", "array", Required)
    ensures KindOf(d) == "array"
  {
    ScenarioPrefix("matrix[*]");
    RequiredField("matrix[*]", "array", d);
  }

  /** The scenario's cells `matrix[*][*]`: integers. */
  lemma MatrixCellDefinition(d: string)
    requires d == Definition("matrix[*][*]", "int", Required)
    ensures KindOf(d) == "int"
  {
    ScenarioPrefix("matrix[*][*]");
    RequiredField("matrix[*][*]", "int", d);
  }

  /** The matrix scenario's paths, for definitions of the scenario's kinds. */
  lemma MatricesTable(md: string, rd: string, cd: string)
    requires KindOf(md) == "array" && KindOf(rd) == "array" && KindOf(cd) == "int"
    ensures CreateTableType([FieldInfo("matrix", md), FieldInfo("matrix[*]", rd), FieldInfo("matrix[*][*]", cd)], None)
            == Literal([Prop("matrix", IsOptional(md), ArrayOf(ArrayOf(NumberKeyword)), Some(DocText(md)))])
  {
    assert "matrix" + ElementMarker == "matrix[*]" && "matrix" + ElementMarker + ElementMarker == "matrix[*][*]";
    Matrices("matrix", md, rd, cd);
  }

  /** `{ matrix: number[][] }` with the scenario's own definitions. */
  lemma MatricesScenario(md: string, rd: string, cd: string)
    requires md == Definition("matrix", "array", Required)
    requires rd == Definition("matrix[*]", "array", Required)
    requires cd == Definition("matrix[*][*]", "int", Required)
    ensures CreateTableType([FieldInfo("matrix", md), FieldInfo("matrix[*]", rd), FieldInfo("matrix[*][*]", cd)], None)
            == Literal([Prop("matrix", false, ArrayOf(ArrayOf(NumberKeyword)), Some(md))])
  {
    MatrixDefinition(md);
    MatrixRowDefinition(rd);
    MatrixCellDefinition(cd);
    MatricesTable(md, rd, cd);
  }

  // ---------------------------------------------------------------------------
  // "can handle deeply nested arrays and objects"
  // ---------------------------------------------------------------------------

  /** A path that starts with `a[*]` is not top-level. */
  lemma MarkedPrefixNotTopLevel(name: string, a: string)
    requires StartsWith(name, a + ElementMarker)
    ensures !IsTopLevel(name)
  {
    assert name[|a|..|a| + 3] == (a + ElementMarker)[|a|..];
    ContainsAt(name, ElementMarker, |a|);
  }

  /** The paths of the nested scenario all descend from their element paths. */
  lemma NestedPrefixes(ne: string, num: string, pos: string, row: string, col: string)
    ensures var pe := ne + "." + pos + ElementMarker;
            StartsWith(ne, ne) && StartsWith(ne + "." + num, ne + ".") && StartsWith(ne + "." + pos, ne + ".")
            && StartsWith(pe, ne + ".") && StartsWith(pe + "." + row, ne + ".") && StartsWith(pe + "." + col, ne + ".")
            && StartsWith(pe, pe) && StartsWith(pe + "." + row, pe) && StartsWith(pe + "." + col, pe)
  {
    var pe := ne + "." + pos + ElementMarker;
    PrefixOf(ne, []);
    assert ne + [] == ne;
    PrefixOf(ne + ".", num);
    PrefixOf(ne + ".", pos);
    PrefixExtend(ne + "." + pos, ne + ".", ElementMarker);
    PrefixExtend(pe, ne + ".", "." + row);
    PrefixExtend(pe, ne + ".", "." + col);
    assert pe + ("." + row) == pe + "." + row && pe + ("." + col) == pe + "." + col;
    PrefixOf(pe, []);
    assert pe + [] == pe;
    PrefixOf(pe, "." + row);
    PrefixOf(pe, "." + col);
  }

  /** A dotted path below `ne` also starts with `ne`. */
  lemma DotPrefixShortens(s: string, ne: string)
    requires StartsWith(s, ne + ".")
    ensures StartsWith(s, ne)
  {
    assert s[..|ne|] == (ne + ".")[..|ne|];
  }

  /** Only the outer array of the nested scenario is top-level; everything else descends from its element. */
  lemma NestedTop(n: string, nest: FieldInfo, g: seq<FieldInfo>)
    requires '.' !in n && '[' !in n && nest.name == n
    requires forall f :: f in g ==> StartsWith(f.name, n + ElementMarker)
    ensures BaseFields([nest] + g, None) == [nest]
    ensures WithPrefix([nest] + g, n + ElementMarker) == g
  {
    PlainName(n);
    forall f | f in g
      ensures !IsBase(None, f)
    {
      MarkedPrefixNotTopLevel(f.name, n);
    }
    BaseFieldsCons(nest, g, None);
    BaseFieldsNone(g, None);
    WithPrefixCons(nest, g, n + ElementMarker);
    WithPrefixAll(g, n + ElementMarker);
  }

  /** A list of six fields of which only the first is a direct child of the parent. */
  lemma OnlyFirstOfSix(a: FieldInfo, b: FieldInfo, c: FieldInfo, d: FieldInfo, e: FieldInfo, g: FieldInfo,
                       parent: string)
    requires IsDirectChild(a.name, parent) && !IsDirectChild(b.name, parent) && !IsDirectChild(c.name, parent)
    requires !IsDirectChild(d.name, parent) && !IsDirectChild(e.name, parent) && !IsDirectChild(g.name, parent)
    ensures BaseFields([a, b, c, d, e, g], Some(parent)) == [a]
  {
    FilterFirstOfSix(a, b, c, d, e, g, (f: FieldInfo) => IsBase(Some(parent), f));
  }

  /** A list of five fields of which only the first two are direct children of the parent. */
  lemma FirstTwoOfFive(a: FieldInfo, b: FieldInfo, c: FieldInfo, d: FieldInfo, e: FieldInfo, parent: string)
    requires IsDirectChild(a.name, parent) && IsDirectChild(b.name, parent)
    requires !IsDirectChild(c.name, parent) && !IsDirectChild(d.name, parent) && !IsDirectChild(e.name, parent)
    ensures BaseFields([a, b, c, d, e], Some(parent)) == [a, b]
  {
    FilterFirstTwoOfFive(a, b, c, d, e, (f: FieldInfo) => IsBase(Some(parent), f));
  }

  /** Regrouping a concatenation of three strings. */
  lemma Regroup3(x: string, y: string, z: string)
    ensures x + (y + z) == x + y + z
  {
  }

  /** Regrouping a concatenation of five strings. */
  lemma Regroup5(x: string, y: string, z: string, w: string, v: string)
    ensures x + (y + z + w + v) == x + y + z + w + v
  {
  }

  /** The fields of the outer array's element are not direct children of the array. */
  lemma NestedElementFields(n: string, num: string, pos: string)
    requires n != [] && n[|n| - 1] != ']' && '.' !in n
    ensures !IsDirectChild(n + ElementMarker + "." + num, n) && !IsDirectChild(n + ElementMarker + "." + pos, n)
    ensures !IsDirectChild(n + ElementMarker + "." + pos + ElementMarker, n)
  {
    ElementFieldNotDirect(n, num);
    ElementFieldNotDirect(n, pos);
    ElementFieldNotDirect(n, pos + ElementMarker);
    Regroup3(n + ElementMarker + ".", pos, ElementMarker);
  }

  /** The fields of the inner array's element are not direct children of the outer array. */
  lemma NestedElementGrandchild(n: string, pos: string, leaf: string)
    requires n != [] && n[|n| - 1] != ']' && '.' !in n
    ensures !IsDirectChild(n + ElementMarker + "." + pos + ElementMarker + "." + leaf, n)
  {
    ElementFieldNotDirect(n, pos + ElementMarker + "." + leaf);
    Regroup5(n + ElementMarker + ".", pos, ElementMarker, ".", leaf);
  }

  /** Below the outer array only its element belongs. */
  lemma NestedElementLevel(n: string, elem: FieldInfo, numF: FieldInfo, posF: FieldInfo, pe: FieldInfo,
                           rowF: FieldInfo, colF: FieldInfo, num: string, pos: string, row: string, col: string)
    requires n != [] && n[|n| - 1] != ']' && '.' !in n
    requires elem.name == n + ElementMarker
    requires numF.name == n + ElementMarker + "." + num && posF.name == n + ElementMarker + "." + pos
    requires pe.name == n + ElementMarker + "." + pos + ElementMarker
    requires rowF.name == n + ElementMarker + "." + pos + ElementMarker + "." + row
    requires colF.name == n + ElementMarker + "." + pos + ElementMarker + "." + col
    ensures BaseFields([elem, numF, posF, pe, rowF, colF], Some(n)) == [elem]
  {
    ElementIsDirectChild(n);
    NestedElementFields(n, num, pos);
    NestedElementGrandchild(n, pos, row);
    NestedElementGrandchild(n, pos, col);
    OnlyFirstOfSix(elem, numF, posF, pe, rowF, colF, n);
  }

  /** `parent.w[*]`, an array property's element seen from the parent's level, is not a base field there. */
  lemma WordStarChildExcluded(parent: string, w: string, k: nat)
    requires k < |parent| && parent[k] !in w && parent[k] !in ElementMarker
    requires w != [] && IsWordChar(w[|w| - 1])
    ensures !IsDirectChild(parent + "." + w + ElementMarker, parent)
  {
    MissingCharNotContains(w + ElementMarker, parent, k);
    DirectChildIff(parent, w + ElementMarker);
    assert (w + ElementMarker)[|w + ElementMarker| - 4] == w[|w| - 1];
    assert (w + ElementMarker)[|w + ElementMarker| - 3..] == "[*]";
    assert parent + "." + (w + ElementMarker) == parent + "." + w + ElementMarker;
  }

  /** The inner array's element path and its fields are not direct children of the element object. */
  lemma NestedObjectExcluded(ne: string, pos: string, row: string, col: string, k: nat)
    requires '.' !in ne && pos != [] && IsWordChar(pos[|pos| - 1])
    requires k < |ne| && ne[k] !in pos && ne[k] !in ElementMarker
    ensures !IsDirectChild(ne + "." + pos + ElementMarker, ne)
    ensures !IsDirectChild(ne + "." + pos + ElementMarker + "." + row, ne)
    ensures !IsDirectChild(ne + "." + pos + ElementMarker + "." + col, ne)
  {
    WordStarChildExcluded(ne, pos, k);
    GrandchildExcluded(ne, pos + ElementMarker + "." + row);
    GrandchildExcluded(ne, pos + ElementMarker + "." + col);
    Regroup5(ne + ".", pos, ElementMarker, ".", row);
    Regroup5(ne + ".", pos, ElementMarker, ".", col);
    assert (pos + ElementMarker + "." + row)[|pos| + 3] == '.';
    assert (pos + ElementMarker + "." + col)[|pos| + 3] == '.';
  }

  /** Below the element object, its two plain fields belong; the array's element and its fields do not. */
  lemma NestedObjectLevel(ne: string, numF: FieldInfo, posF: FieldInfo, pe: FieldInfo, rowF: FieldInfo, colF: FieldInfo,
                          num: string, pos: string, row: string, col: string, k: nat)
    requires '.' !in ne && '.' !in num && '[' !in num && '.' !in pos && '[' !in pos
    requires pos != [] && IsWordChar(pos[|pos| - 1])
    requires k < |ne| && ne[k] !in num && ne[k] !in pos && ne[k] !in ElementMarker
    requires numF.name == ne + "." + num && posF.name == ne + "." + pos
    requires pe.name == ne + "." + pos + ElementMarker
    requires rowF.name == ne + "." + pos + ElementMarker + "." + row
    requires colF.name == ne + "." + pos + ElementMarker + "." + col
    ensures BaseFields([numF, posF, pe, rowF, colF], Some(ne)) == [numF, posF]
  {
    PlainChild(ne, num, k);
    PlainChild(ne, pos, k);
    NestedObjectExcluded(ne, pos, row, col, k);
    FirstTwoOfFive(numF, posF, pe, rowF, colF, ne);
  }

  /** The descendants of the inner array's element path are that element and its two fields. */
  lemma NestedPositionsDescendants(ne: string, numF: FieldInfo, posF: FieldInfo, pe: FieldInfo,
                                   rowF: FieldInfo, colF: FieldInfo, num: string, pos: string)
    requires num != [] && pos != [] && num[0] != pos[0]
    requires numF.name == ne + "." + num && posF.name == ne + "." + pos
    requires pe.name == posF.name + ElementMarker
    requires StartsWith(pe.name, pe.name) && StartsWith(rowF.name, pe.name) && StartsWith(colF.name, pe.name)
    ensures WithPrefix([numF, posF, pe, rowF, colF], pe.name) == [pe, rowF, colF]
  {
    NotPrefixAt(numF.name, pe.name, |ne| + 1);
    assert [numF, posF, pe, rowF, colF] == [numF] + ([posF] + [pe, rowF, colF]);
    WithPrefixCons(numF, [posF] + [pe, rowF, colF], pe.name);
    WithPrefixCons(posF, [pe, rowF, colF], pe.name);
    WithPrefixAll([pe, rowF, colF], pe.name);
  }

  /** Below the inner array only its element belongs. */
  lemma NestedPositionsLevel(ps: string, pe: FieldInfo, rowF: FieldInfo, colF: FieldInfo, row: string, col: string)
    requires ps != [] && ps[|ps| - 1] != ']' && '.' !in row && '.' !in col
    requires pe.name == ps + ElementMarker
    requires rowF.name == ps + ElementMarker + "." + row && colF.name == ps + ElementMarker + "." + col
    ensures BaseFields([pe, rowF, colF], Some(ps)) == [pe]
  {
    ElementIsDirectChild(ps);
    ElementFieldNotDirect(ps, row);
    ElementFieldNotDirect(ps, col);
    BaseOfThree(pe, rowF, colF, Some(ps));
  }

  /** The inner array's type: an array of `{ row?: number; col?: number }`. */
  lemma NestedPositions(g: seq<FieldInfo>, posF: FieldInfo, pe: FieldInfo, rowF: FieldInfo, colF: FieldInfo,
                        row: string, col: string, k: nat)
    requires posF in g && WithPrefix(g, posF.name + ElementMarker) == [pe, rowF, colF]
    requires posF.name != [] && posF.name[|posF.name| - 1] != ']'
    requires '.' !in row && '[' !in row && '.' !in col && '[' !in col
    requires pe.name == posF.name + ElementMarker
    requires rowF.name == pe.name + "." + row && colF.name == pe.name + "." + col
    requires k < |pe.name| && pe.name[k] !in row && pe.name[k] !in col
    requires KindOf(posF.definition) == "array" && KindOf(pe.definition) == "object"
    requires KindOf(rowF.definition) == "int" && KindOf(colF.definition) == "int"
    ensures FieldType(g, posF)
            == ArrayOf(Literal([Prop(row, IsOptional(rowF.definition), NumberKeyword, Some(DocText(rowF.definition))),
                                Prop(col, IsOptional(colF.definition), NumberKeyword, Some(DocText(colF.definition)))]))
  {
    ArrayField(g, posF);
    NestedPositionsLevel(posF.name, pe, rowF, colF, row, col);
    ElementPath(posF.name);
    ElementLevel([pe, rowF, colF], Some(posF.name), pe);
    ObjectField([pe, rowF, colF], pe);
    ObjectArrayFields(pe, rowF, colF, row, col);
    PlainChild(pe.name, row, k);
    PlainChild(pe.name, col, k);
    KindField([rowF, colF], rowF, "int", NumberKeyword);
    KindField([rowF, colF], colF, "int", NumberKeyword);
    TwoFieldLevel(rowF, colF, Some(pe.name), NumberKeyword, NumberKeyword);
  }

  /** The outer array's element object: `{ num?: number; positions?: { row?: number; column?: number }[] }`. */
  lemma NestedObject(ne: string, numF: FieldInfo, posF: FieldInfo, pe: FieldInfo, rowF: FieldInfo, colF: FieldInfo,
                     num: string, pos: string, row: string, col: string, k: nat)
    requires '.' !in ne && '.' !in num && '[' !in num && '.' !in pos && '[' !in pos
    requires '.' !in row && '[' !in row && '.' !in col && '[' !in col
    requires num != [] && pos != [] && num[0] != pos[0] && IsWordChar(pos[|pos| - 1])
    requires k < |ne| && ne[k] !in num && ne[k] !in pos && ne[k] !in row && ne[k] !in col && ne[k] !in ElementMarker
    requires numF.name == ne + "." + num && posF.name == ne + "." + pos
    requires pe.name == ne + "." + pos + ElementMarker
    requires rowF.name == ne + "." + pos + ElementMarker + "." + row
    requires colF.name == ne + "." + pos + ElementMarker + "." + col
    requires KindOf(numF.definition) == "int" && KindOf(posF.definition) == "array" && KindOf(pe.definition) == "object"
    requires KindOf(rowF.definition) == "int" && KindOf(colF.definition) == "int"
    ensures CreateTableType([numF, posF, pe, rowF, colF], Some(ne))
            == Literal([Prop(num, IsOptional(numF.definition), NumberKeyword, Some(DocText(numF.definition))),
                        Prop(pos, IsOptional(posF.definition),
                             ArrayOf(Literal([Prop(row, IsOptional(rowF.definition), NumberKeyword, Some(DocText(rowF.definition))),
                                              Prop(col, IsOptional(colF.definition), NumberKeyword, Some(DocText(colF.definition)))])),
                             Some(DocText(posF.definition)))])
  {
    var g := [numF, posF, pe, rowF, colF];
    NestedObjectLevel(ne, numF, posF, pe, rowF, colF, num, pos, row, col, k);
    LevelOfTwo(g, Some(ne), numF, posF);
    PlainChild(ne, num, k);
    PlainChild(ne, pos, k);
    KindField(g, numF, "int", NumberKeyword);
    NestedPrefixes(ne, num, pos, row, col);
    NestedPositionsDescendants(ne, numF, posF, pe, rowF, colF, num, pos);
    assert posF.name[|posF.name| - 1] == pos[|pos| - 1];
    assert pe.name[k] == ne[k];
    NestedPositions(g, posF, pe, rowF, colF, row, col, k);
  }

  /** The descendants of `e.name + "."` in a list headed by `e` when all the others start with that prefix. */
  lemma DescendantsAfterHead(e: FieldInfo, a: FieldInfo, b: FieldInfo, c: FieldInfo, d: FieldInfo, g: FieldInfo)
    requires StartsWith(a.name, e.name + ".") && StartsWith(b.name, e.name + ".") && StartsWith(c.name, e.name + ".")
    requires StartsWith(d.name, e.name + ".") && StartsWith(g.name, e.name + ".")
    ensures WithPrefix([e, a, b, c, d, g], e.name + ".") == [a, b, c, d, g]
  {
    assert [e, a, b, c, d, g] == [e] + [a, b, c, d, g];
    WithPrefixCons(e, [a, b, c, d, g], e.name + ".");
    WithPrefixAll([a, b, c, d, g], e.name + ".");
  }

  /** The outer array's level is the level of its element object's fields. */
  lemma NestedElementShape(n: string, elem: FieldInfo, numF: FieldInfo, posF: FieldInfo, pe: FieldInfo, rowF: FieldInfo,
                           colF: FieldInfo, num: string, pos: string, row: string, col: string)
    requires '.' !in n && n != [] && n[|n| - 1] != ']'
    requires elem.name == n + ElementMarker
    requires numF.name == n + ElementMarker + "." + num && posF.name == n + ElementMarker + "." + pos
    requires pe.name == n + ElementMarker + "." + pos + ElementMarker
    requires rowF.name == n + ElementMarker + "." + pos + ElementMarker + "." + row
    requires colF.name == n + ElementMarker + "." + pos + ElementMarker + "." + col
    requires KindOf(elem.definition) == "object"
    ensures CreateTableType([elem, numF, posF, pe, rowF, colF], Some(n))
            == CreateTableType([numF, posF, pe, rowF, colF], Some(n + ElementMarker))
  {
    NestedElementLevel(n, elem, numF, posF, pe, rowF, colF, num, pos, row, col);
    ElementPath(n);
    ElementLevel([elem, numF, posF, pe, rowF, colF], Some(n), elem);
    ObjectField([elem, numF, posF, pe, rowF, colF], elem);
    NestedPrefixes(n + ElementMarker, num, pos, row, col);
    DescendantsAfterHead(elem, numF, posF, pe, rowF, colF);
  }

  /** The outer array's element path keeps the name's character `k` and gains no dot. */
  lemma ElementPathChars(n: string, k: nat)
    requires '.' !in n && k < |n|
    ensures '.' !in n + ElementMarker && (n + ElementMarker)[k] == n[k]
  {
    assert '.' !in ElementMarker;
  }

  /** Every path of the nested scenario but the outer array's starts with the outer element path. */
  lemma NestedUnderElement(n: string, elem: FieldInfo, numF: FieldInfo, posF: FieldInfo, pe: FieldInfo,
                           rowF: FieldInfo, colF: FieldInfo, num: string, pos: string, row: string, col: string)
    requires elem.name == n + ElementMarker
    requires numF.name == n + ElementMarker + "." + num && posF.name == n + ElementMarker + "." + pos
    requires pe.name == n + ElementMarker + "." + pos + ElementMarker
    requires rowF.name == n + ElementMarker + "." + pos + ElementMarker + "." + row
    requires colF.name == n + ElementMarker + "." + pos + ElementMarker + "." + col
    ensures StartsWith(elem.name, n + ElementMarker) && StartsWith(numF.name, n + ElementMarker)
    ensures StartsWith(posF.name, n + ElementMarker) && StartsWith(pe.name, n + ElementMarker)
    ensures StartsWith(rowF.name, n + ElementMarker) && StartsWith(colF.name, n + ElementMarker)
  {
    var ne := n + ElementMarker;
    NestedPrefixes(ne, num, pos, row, col);
    DotPrefixShortens(numF.name, ne);
    DotPrefixShortens(posF.name, ne);
    DotPrefixShortens(pe.name, ne);
    DotPrefixShortens(rowF.name, ne);
    DotPrefixShortens(colF.name, ne);
  }

  /** The outer array is the only top-level property, and its type is the array of its element's level. */
  lemma NestedOuter(n: string, nest: FieldInfo, elem: FieldInfo, numF: FieldInfo, posF: FieldInfo, pe: FieldInfo,
                    rowF: FieldInfo, colF: FieldInfo, num: string, pos: string, row: string, col: string)
    requires '.' !in n && '[' !in n && nest.name == n && KindOf(nest.definition) == "array"
    requires elem.name == n + ElementMarker
    requires numF.name == n + ElementMarker + "." + num && posF.name == n + ElementMarker + "." + pos
    requires pe.name == n + ElementMarker + "." + pos + ElementMarker
    requires rowF.name == n + ElementMarker + "." + pos + ElementMarker + "." + row
    requires colF.name == n + ElementMarker + "." + pos + ElementMarker + "." + col
    ensures CreateTableType([nest, elem, numF, posF, pe, rowF, colF], None)
            == Literal([Prop(n, IsOptional(nest.definition),
                             ArrayOf(CreateTableType([elem, numF, posF, pe, rowF, colF], Some(n))),
                             Some(DocText(nest.definition)))])
  {
    var g := [elem, numF, posF, pe, rowF, colF];
    NestedUnderElement(n, elem, numF, posF, pe, rowF, colF, num, pos, row, col);
    NestedTop(n, nest, g);
    assert [nest] + g == [nest, elem, numF, posF, pe, rowF, colF];
    OneFieldTop([nest] + g, nest);
    PlainName(n);
    ArrayField([nest] + g, nest);
  }

  /** Two levels of arrays of objects, each level reconstructed from its own paths. */
  lemma Nested(n: string, nd: string, ed: string, num: string, numd: string, pos: string, posd: string, ped: string,
               row: string, rowd: string, col: string, cold: string, k: nat)
    requires '.' !in n && '[' !in n && n != [] && n[|n| - 1] != ']'
    requires '.' !in num && '[' !in num && '.' !in pos && '[' !in pos
    requires '.' !in row && '[' !in row && '.' !in col && '[' !in col
    requires num != [] && pos != [] && num[0] != pos[0] && IsWordChar(pos[|pos| - 1])
    requires k < |n| && n[k] !in num && n[k] !in pos && n[k] !in row && n[k] !in col && n[k] !in ElementMarker
    requires KindOf(nd) == "array" && KindOf(ed) == "object" && KindOf(numd) == "int"
    requires KindOf(posd) == "array" && KindOf(ped) == "object" && KindOf(rowd) == "int" && KindOf(cold) == "int"
    ensures CreateTableType([FieldInfo(n, nd), FieldInfo(n + ElementMarker, ed),
                             FieldInfo(n + ElementMarker + "." + num, numd),
                             FieldInfo(n + ElementMarker + "." + pos, posd),
                             FieldInfo(n + ElementMarker + "." + pos + ElementMarker, ped),
                             FieldInfo(n + ElementMarker + "." + pos + ElementMarker + "." + row, rowd),
                             FieldInfo(n + ElementMarker + "." + pos + ElementMarker + "." + col, cold)], None)
            == Literal([Prop(n, IsOptional(nd),
                             ArrayOf(Literal([Prop(num, IsOptional(numd), NumberKeyword, Some(DocText(numd))),
                                              Prop(pos, IsOptional(posd),
                                                   ArrayOf(Literal([Prop(row, IsOptional(rowd), NumberKeyword, Some(DocText(rowd))),
                                                                    Prop(col, IsOptional(cold), NumberKeyword, Some(DocText(cold)))])),
                                                   Some(DocText(posd)))])),
                             Some(DocText(nd)))])
  {
    var nest, elem := FieldInfo(n, nd), FieldInfo(n + ElementMarker, ed);
    var numF, posF := FieldInfo(n + ElementMarker + "." + num, numd), FieldInfo(n + ElementMarker + "." + pos, posd);
    var pe := FieldInfo(n + ElementMarker + "." + pos + ElementMarker, ped);
    var rowF := FieldInfo(n + ElementMarker + "." + pos + ElementMarker + "." + row, rowd);
    var colF := FieldInfo(n + ElementMarker + "." + pos + ElementMarker + "." + col, cold);
    NestedOuter(n, nest, elem, numF, posF, pe, rowF, colF, num, pos, row, col);
    NestedElementShape(n, elem, numF, posF, pe, rowF, colF, num, pos, row, col);
    ElementPathChars(n, k);
    NestedObject(n + ElementMarker, numF, posF, pe, rowF, colF, num, pos, row, col, k);
  }

  /** The scenario's `nested`: an optional array. */
  lemma NestedDefinition(d: string)
    requires d == Definition("nested", "array", "")
    ensures KindOf(d) == "array" && IsOptional(d) && DocText(d) == d
  {
    ScenarioPrefix("nested");
    OptionalField("nested", "array", d);
  }

  /** The scenario's `nested[*]`: an optional object. */
  lemma NestedElementDefinition(d: string)
    requires d == Definition("nested[*]", "object", "")
    ensures KindOf(d) == "object" && IsOptional(d) && DocText(d) == d
  {
    ScenarioPrefix("nested[*]");
    OptionalField("nested[*]", "object", d);
  }

  /** The scenario's `nested[*].num`: an optional int. */
  lemma NumDefinition(d: string)
    requires d == Definition("nested[*].num", "int", "")
    ensures KindOf(d) == "int" && IsOptional(d) && DocText(d) == d
  {
    ScenarioPrefix("nested[*].num");
    OptionalField("nested[*].num", "int", d);
  }

  /** The scenario's `nested[*].positions`: an optional array. */
  lemma PositionsDefinition(d: string)
    requires d == Definition("nested[*].positions", "array", "")
    ensures KindOf(d) == "array" && IsOptional(d) && DocText(d) == d
  {
    ScenarioPrefix("nested[*].positions");
    OptionalField("nested[*].positions", "array", d);
  }

  /** The scenario's `nested[*].positions[*]`: an optional object. */
  lemma PositionDefinition(d: string)
    requires d == Definition("nested[*].positions[*]", "object", "")
    ensures KindOf(d) == "object" && IsOptional(d) && DocText(d) == d
  {
    ScenarioPrefix("nested[*].positions[*]");
    OptionalField("nested[*].positions[*]", "object", d);
  }

  /** The scenario's `nested[*].positions[*].row`: an optional int. */
  lemma RowDefinition(d: string)
    requires d == Definition("nested[*].positions[*].row", "int", "")
    ensures KindOf(d) == "int" && IsOptional(d) && DocText(d) == d
  {
    ScenarioPrefix("nested[*].positions[*].row");
    OptionalField("nested[*].positions[*].row", "int", d);
  }

  /** The scenario's `nested[*].positions[*].column`: an optional int. */
  lemma ColumnDefinition(d: string)
    requires d == Definition("nested[*].positions[*].column", "int", "")
    ensures KindOf(d) == "int" && IsOptional(d) && DocText(d) == d
  {
    ScenarioPrefix("nested[*].positions[*].column");
    OptionalField("nested[*].positions[*].column", "int", d);
  }

  /** The nested scenario's paths, spelt out. */
  lemma NestedPaths()
    ensures "nested" + ElementMarker == "nested[*]"
    ensures "nested" + ElementMarker + "." + "num" == "nested[*].num"
    ensures "nested" + ElementMarker + "." + "positions" == "nested[*].positions"
    ensures "nested" + ElementMarker + "." + "positions" + ElementMarker == "nested[*].positions[*]"
    ensures "nested" + ElementMarker + "." + "positions" + ElementMarker + "." + "row" == "nested[*].positions[*].row"
    ensures "nested" + ElementMarker + "." + "positions" + ElementMarker + "." + "column"
            == "nested[*].positions[*].column"
  {
    assert "nested[*]" + "." + "num" == "nested[*].num";
    assert "nested[*]" + "." + "positions" == "nested[*].positions";
    assert "nested[*].positions" + ElementMarker == "nested[*].positions[*]";
    assert "nested[*].positions[*]" + "." + "row" == "nested[*].positions[*].row";
    assert "nested[*].positions[*]" + "." + "column" == "nested[*].positions[*].column";
  }

  /** The nested scenario's names meet the conditions of the generic reconstruction. */
  lemma NestedNames()
    ensures '.' !in "nested" && '[' !in "nested" && "nested" != [] && "nested"[|"nested"| - 1] != ']'
    ensures '.' !in "num" && '[' !in "num" && '.' !in "positions" && '[' !in "positions"
    ensures '.' !in "row" && '[' !in "row" && '.' !in "column" && '[' !in "column"
    ensures "num" != [] && "positions" != [] && "num"[0] != "positions"[0] && IsWordChar("positions"[|"positions"| - 1])
    ensures 1 < |"nested"| && "nested"[1] !in "num" && "nested"[1] !in "positions" && "nested"[1] !in "row"
    ensures "nested"[1] !in "column" && "nested"[1] !in ElementMarker
  {
  }

  /** The nested scenario's paths, for definitions of the scenario's kinds. */
  lemma NestedTable(nd: string, ed: string, numd: string, posd: string, ped: string, rowd: string, cold: string)
    requires KindOf(nd) == "array" && KindOf(ed) == "object" && KindOf(numd) == "int"
    requires KindOf(posd) == "array" && KindOf(ped) == "object" && KindOf(rowd) == "int" && KindOf(cold) == "int"
    ensures CreateTableType([FieldInfo("nested", nd), FieldInfo("nested[*]", ed), FieldInfo("nested[*].num", numd),
                             FieldInfo("nested[*].positions", posd), FieldInfo("nested[*].positions[*]", ped),
                             FieldInfo("nested[*].positions[*].row", rowd),
                             FieldInfo("nested[*].positions[*].column", cold)], None)
            == Literal([Prop("nested", IsOptional(nd),
                             ArrayOf(Literal([Prop("num", IsOptional(numd), NumberKeyword, Some(DocText(numd))),
                                              Prop("positions", IsOptional(posd),
                                                   ArrayOf(Literal([Prop("row", IsOptional(rowd), NumberKeyword, Some(DocText(rowd))),
                                                                    Prop("column", IsOptional(cold), NumberKeyword, Some(DocText(cold)))])),
                                                   Some(DocText(posd)))])),
                             Some(DocText(nd)))])
  {
    NestedPaths();
    NestedNames();
    Nested("nested", nd, ed, "num", numd, "positions", posd, ped, "row", rowd, "column", cold, 1);
  }

  /**
   * `{ nested?: { num?: number; positions?: { row?: number; column?: number }[] }[] }` with the
   * scenario's own definitions: every field is optional and commented with its definition.
   */
  lemma NestedScenario(nd: string, ed: string, numd: string, posd: string, ped: string, rowd: string, cold: string)
    requires nd == Definition("nested", "array", "")
    requires ed == Definition("nested[*]", "object", "")
    requires numd == Definition("nested[*].num", "int", "")
    requires posd == Definition("nested[*].positions", "array", "")
    requires ped == Definition("nested[*].positions[*]", "object", "")
    requires rowd == Definition("nested[*].positions[*].row", "int", "")
    requires cold == Definition("nested[*].positions[*].column", "int", "")
    ensures CreateTableType([FieldInfo("nested", nd), FieldInfo("nested[*]", ed), FieldInfo("nested[*].num", numd),
                             FieldInfo("nested[*].positions", posd), FieldInfo("nested[*].positions[*]", ped),
                             FieldInfo("nested[*].positions[*].row", rowd),
                             FieldInfo("nested[*].positions[*].column", cold)], None)
            == Literal([Prop("nested", true,
                             ArrayOf(Literal([Prop("num", true, NumberKeyword, Some(numd)),
                                              Prop("positions", true,
                                                   ArrayOf(Literal([Prop("row", true, NumberKeyword, Some(rowd)),
                                                                    Prop("column", true, NumberKeyword, Some(cold))])),
                                                   Some(posd))])),
                             Some(nd))])
  {
    NestedDefinition(nd);
    NestedElementDefinition(ed);
    NumDefinition(numd);
    PositionsDefinition(posd);
    PositionDefinition(ped);
    RowDefinition(rowd);
    ColumnDefinition(cold);
    NestedTable(nd, ed, numd, posd, ped, rowd, cold);
  }
}
