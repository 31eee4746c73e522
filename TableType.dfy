/**
 * The field-path tree reconstructor of lib/generate/utils/createTableType.ts: from the flat,
 * ordered list of `{ name, definition }` records of one table it rebuilds the nested type
 * literal the paths describe (`name.first` is a property of `name`, `comments[*]` is the
 * element of the array `comments`, `matrix[*][*]` the element of an element).
 */
module TableType {
  import opened Wrappers
  import opened Strings
  import opened Seqs
  import opened TypeNodes

  /** `getTypeFromDefinition`: the group of `/TYPE ([^\s]+)/`, or "string" when nothing matches. */
  function KindOf(definition: string): string {
    FirstMatch(definition, KindAfterType(NonSpace)).GetOr("string")
  }

  /**
   * `surrealTypeNameToTsTypeIdentifier`: maps a kind by the text before its first "(";
   * `record(t)` becomes a reference to table `t`.
   */
  function TsTypeOfKind(kind: string): TypeNode {
    var base := BeforeFirst(kind, '(');
    if base == "string" || base == "datetime" then StringKeyword
    else if base == "int" || base == "decimal" || base == "float" then NumberKeyword
    else if base == "bool" then BooleanKeyword
    else if base == "record" then IdRef(FirstMatch(kind, ParenWord).GetOr("unknown"))
    else UnknownKeyword
  }

  /** The comment text of a property: its definition with the first comment terminator neutralised. */
  function DocText(definition: string): string {
    ReplaceFirst(definition, "*/", "[REPLACED]")
  }

  /**
   * The base-field test for a nested level: strip the first "<parent>." and then the first
   * "<parent>", and keep what has no further dot, is not itself an array path and is not a
   * doubly nested array element.
   */
  predicate IsDirectChild(name: string, parent: string) {
    IsPlainLeave(Leave(name, parent))
  }

  /** What is left of a path once the first "<parent>." and then the first "<parent>" are removed. */
  function Leave(name: string, parent: string): string {
    ReplaceFirst(ReplaceFirst(name, parent + ".", ""), parent, "")
  }

  /** A leave that names one property of the current level. */
  predicate IsPlainLeave(leave: string) {
    !Contains(leave, ".") && !EndsWithWordStar(leave) && !StartsWith(leave, "[*][*]")
  }

  /** The base-field test of a level: top-level paths at the top, direct children below. */
  predicate IsBase(parent: Option<string>, f: FieldInfo) {
    match parent
    case None => IsTopLevel(f.name)
    case Some(p) => IsDirectChild(f.name, p)
  }

  /** The fields that form the current level, in input order. */
  function BaseFields(fields: seq<FieldInfo>, parent: Option<string>): (r: seq<FieldInfo>)
    ensures |r| <= |fields|
    ensures forall f :: f in r ==> f in fields
  {
    FilterMembers(fields, (f: FieldInfo) => IsBase(parent, f));
    Filter(fields, (f: FieldInfo) => IsBase(parent, f))
  }

  /** The base fields are exactly the fields of the list that pass the level's test. */
  lemma BaseFieldsMembers(fields: seq<FieldInfo>, parent: Option<string>)
    ensures forall f :: f in BaseFields(fields, parent) <==> f in fields && IsBase(parent, f)
  {
    FilterMembers(fields, (f: FieldInfo) => IsBase(parent, f));
  }

  /**
   * `createTableType(fieldInfo, parentField)`. A level whose only base field is an array
   * element stands for that element's type; any other level is a type literal.
   */
  function CreateTableType(fields: seq<FieldInfo>, parent: Option<string>): TypeNode
    decreases |fields|, 2, 0
  {
    var base := BaseFields(fields, parent);
    BaseFieldsMembers(fields, parent);
    if |base| == 1 && EndsWith(base[0].name, ElementMarker) then
      FieldType(fields, base[0])
    else
      Literal(Props(fields, base))
  }

  /** The type of one field: objects and arrays recurse over their descendants, the rest are leaves. */
  function FieldType(fields: seq<FieldInfo>, f: FieldInfo): TypeNode
    requires f in fields
    decreases |fields|, 0, 0
  {
    var kind := KindOf(f.definition);
    if kind == "object" then
      ChildrenShrink(fields, f, ".");
      CreateTableType(WithPrefix(fields, f.name + "."), Some(f.name))
    else if kind == "array" then
      ChildrenShrink(fields, f, ElementMarker);
      ArrayOf(CreateTableType(WithPrefix(fields, f.name + ElementMarker), Some(f.name)))
    else
      TsTypeOfKind(kind)
  }

  /** The property signature of one base field: its name, optionality, type and comment. */
  function PropOf(fields: seq<FieldInfo>, f: FieldInfo): Prop
    requires f in fields
    decreases |fields|, 1, 0
  {
    Prop(PropName(f.name), IsOptional(f.definition), FieldType(fields, f), Some(DocText(f.definition)))
  }

  /** One property signature per base field, in order. */
  function Props(fields: seq<FieldInfo>, base: seq<FieldInfo>): (ps: seq<Prop>)
    requires forall f :: f in base ==> f in fields
    decreases |fields|, 1, |base|
    ensures |ps| == |base|
  {
    seq(|base|, i requires 0 <= i < |base| => PropOf(fields, base[i]))
  }

  /** The property built for the `i`-th base field describes that field. */
  lemma PropsAt(fields: seq<FieldInfo>, base: seq<FieldInfo>, i: nat)
    requires forall f :: f in base ==> f in fields
    requires i < |base|
    ensures Props(fields, base)[i] == PropOf(fields, base[i])
  {
  }

  /** One level step at a time: a level that is not an unwrapped element is a type literal. */
  lemma LiteralLevel(fields: seq<FieldInfo>, parent: Option<string>)
    requires var base := BaseFields(fields, parent);
             !(|base| == 1 && EndsWith(base[0].name, ElementMarker))
    ensures CreateTableType(fields, parent) == Literal(Props(fields, BaseFields(fields, parent)))
  {
  }

  /** A level whose single base field is an element stands for that element's type. */
  lemma ElementLevel(fields: seq<FieldInfo>, parent: Option<string>, e: FieldInfo)
    requires BaseFields(fields, parent) == [e] && EndsWith(e.name, ElementMarker)
    ensures e in fields
    ensures CreateTableType(fields, parent) == FieldType(fields, e)
  {
    BaseFieldsMembers(fields, parent);
    assert e in BaseFields(fields, parent);
  }

  /** An object field's type is the level of its dotted descendants. */
  lemma ObjectField(fields: seq<FieldInfo>, f: FieldInfo)
    requires f in fields && KindOf(f.definition) == "object"
    ensures FieldType(fields, f) == CreateTableType(WithPrefix(fields, f.name + "."), Some(f.name))
  {
  }

  /** An array field's type is an array of the level of its element paths. */
  lemma ArrayField(fields: seq<FieldInfo>, f: FieldInfo)
    requires f in fields && KindOf(f.definition) == "array"
    ensures FieldType(fields, f)
            == ArrayOf(CreateTableType(WithPrefix(fields, f.name + ElementMarker), Some(f.name)))
  {
  }

  /** A list whose every field belongs to the level is its own base. */
  lemma BaseFieldsAll(fields: seq<FieldInfo>, parent: Option<string>)
    requires forall f :: f in fields ==> IsBase(parent, f)
    ensures BaseFields(fields, parent) == fields
  {
    FilterAll(fields, (f: FieldInfo) => IsBase(parent, f));
  }

  /** A list none of whose fields belongs to the level contributes no base field. */
  lemma BaseFieldsNone(fields: seq<FieldInfo>, parent: Option<string>)
    requires forall f :: f in fields ==> !IsBase(parent, f)
    ensures BaseFields(fields, parent) == []
  {
    FilterNone(fields, (f: FieldInfo) => IsBase(parent, f));
  }

  /** The properties of a one-field level. */
  lemma PropsOne(fields: seq<FieldInfo>, a: FieldInfo)
    requires a in fields
    ensures Props(fields, [a]) == [PropOf(fields, a)]
  {
    PropsAt(fields, [a], 0);
  }

  /** The properties of a two-field level, in order. */
  lemma PropsTwo(fields: seq<FieldInfo>, a: FieldInfo, b: FieldInfo)
    requires a in fields && b in fields
    ensures Props(fields, [a, b]) == [PropOf(fields, a), PropOf(fields, b)]
  {
    PropsAt(fields, [a, b], 0);
    PropsAt(fields, [a, b], 1);
    SeqTwo(Props(fields, [a, b]), PropOf(fields, a), PropOf(fields, b));
  }

  // ---------------------------------------------------------------------------
  // The definition parser and the kind mapping
  // ---------------------------------------------------------------------------

  /**
   * The kind is the whole whitespace-free token after the first "TYPE ": `record(user)` is kept
   * whole, and a field name such as `userType` before the keyword does not disturb it.
   */
  lemma {:induction false} KindOfDefineField(pre: string, tok: string, rest: string)
    requires NoTypeKeywordIn(pre)
    requires tok != [] && forall c :: c in tok ==> !IsSpace(c)
    requires rest == [] || IsSpace(rest[0])
    ensures KindOf(pre + TypeKeyword + tok + rest) == tok
  {
    var b := TypeKeyword + tok + rest;
    assert pre + TypeKeyword + tok + rest == pre + b;
    assert b == TypeKeyword + (tok + rest);
    assert b[..|TypeKeyword|] == TypeKeyword;
    assert b[|TypeKeyword|] == tok[0];
    assert tok[0] in tok;
    RunEndToken(tok, rest, NonSpace);
    RunEndShift(TypeKeyword, tok + rest, 0, NonSpace);
    SearchFinds(b, KindAfterType(NonSpace), 0);
    assert b[|TypeKeyword|..|TypeKeyword| + |tok|] == tok;
    forall q | 0 <= q < |pre|
      ensures !MatchesAt(pre + b, KindAfterType(NonSpace), q)
    {
      NoKindMatchIn(pre, b, NonSpace, q);
    }
    FirstMatchPastPrefix(pre, b, KindAfterType(NonSpace));
  }

  /** Without any "TYPE " the kind defaults to "string". */
  lemma KindOfDefault(definition: string)
    requires !Contains(definition, TypeKeyword)
    ensures KindOf(definition) == "string"
  {
    forall q: nat
      ensures !MatchesAt(definition, KindAfterType(NonSpace), q)
    {
      assert MatchesAt(definition, KindAfterType(NonSpace), q) ==> MatchesAt(definition, Text(TypeKeyword), q);
    }
  }

  /** The kind is never empty and never contains whitespace. */
  lemma KindOfIsToken(definition: string)
    ensures KindOf(definition) != []
    ensures forall c :: c in KindOf(definition) ==> !IsSpace(c)
  {
    match Search(definition, KindAfterType(NonSpace), 0)
    case None =>
    case Some(p) =>
      var e := RunEnd(definition, p + |TypeKeyword|, NonSpace);
      RunEndRun(definition, p + |TypeKeyword|, NonSpace);
      assert definition[p + |TypeKeyword|..e][0] == definition[p + |TypeKeyword|];
  }

  /** The mapping table: string/datetime, int/decimal/float, bool, and everything else unknown. */
  lemma TsTypeOfKindTable(kind: string)
    requires '(' !in kind
    ensures kind in {"string", "datetime"} ==> TsTypeOfKind(kind) == StringKeyword
    ensures kind in {"int", "decimal", "float"} ==> TsTypeOfKind(kind) == NumberKeyword
    ensures kind == "bool" ==> TsTypeOfKind(kind) == BooleanKeyword
    ensures kind == "record" ==> TsTypeOfKind(kind) == IdRef("unknown")
    ensures kind !in {"string", "datetime", "int", "decimal", "float", "bool", "record"}
            ==> TsTypeOfKind(kind) == UnknownKeyword
  {
    BeforeFirstAbsent(kind, '(');
    SearchLeadAbsent(kind, ParenWord);
  }

  /** Only the text before the first "(" selects the mapping, except that a record reads its table. */
  lemma TsTypeOfKindIgnoresArguments(kind: string, args: string)
    requires '(' !in kind && kind != "record"
    ensures TsTypeOfKind(kind + "(" + args) == TsTypeOfKind(kind)
  {
    BeforeFirstSplit(kind, '(', args);
    assert kind + "(" + args == kind + ['('] + args;
    BeforeFirstAbsent(kind, '(');
  }

  /** `/\((\w+)\)/` on a parenthesised word captures that word. */
  lemma {:induction false} ParenWordGroup(table: string, rest: string)
    requires table != [] && forall c :: c in table ==> IsWordChar(c)
    ensures FirstMatch("(" + table + ")" + rest, ParenWord) == Some(table)
  {
    var b := "(" + table + ")" + rest;
    assert b == "(" + (table + (")" + rest));
    RunEndToken(table, ")" + rest, Word);
    RunEndShift("(", table + (")" + rest), 0, Word);
    assert b[1] == table[0] && table[0] in table;
    assert b[|table| + 1] == ')';
    SearchFinds(b, ParenWord, 0);
    assert b[1..|table| + 1] == table;
  }

  /** `record(t)` with a word `t` maps to a reference to table `t`. */
  lemma TsTypeOfRecord(table: string, rest: string)
    requires table != [] && forall c :: c in table ==> IsWordChar(c)
    ensures TsTypeOfKind("record(" + table + ")" + rest) == IdRef(table)
  {
    var b := "(" + table + ")" + rest;
    var kind := "record(" + table + ")" + rest;
    assert kind == "record" + ['('] + (table + ")" + rest);
    BeforeFirstSplit("record", '(', table + ")" + rest);
    assert kind == "record" + b;
    ParenWordGroup(table, rest);
    FirstMatchSkipsPrefix("record", b, ParenWord);
  }

  /**
   * `record(t)` whose parenthesised text is not a word (empty, or holding a character outside
   * `\w`, as in `record(a,b)`) captures nothing and maps to a reference to "unknown".
   */
  lemma TsTypeOfRecordUnknown(t: string, rest: string)
    requires '(' !in t && ')' !in t && '(' !in rest
    requires t == [] || exists k :: 0 <= k < |t| && !IsWordChar(t[k])
    ensures TsTypeOfKind("record(" + t + ")" + rest) == IdRef("unknown")
  {
    var b := "(" + t + ")" + rest;
    var kind := "record(" + t + ")" + rest;
    assert kind == "record" + ['('] + (t + ")" + rest);
    BeforeFirstSplit("record", '(', t + ")" + rest);
    assert kind == "record" + b;
    forall q: nat
      ensures !MatchesAt(b, ParenWord, q)
    {
      if q == 0 {
        NoWordInParens(t, rest);
      } else {
        MatchLead(b, ParenWord, q);
        if q < |b| {
          assert b[q] == (t + ")" + rest)[q - 1];
          assert (t + ")" + rest)[q - 1] in t + ")" + rest;
        }
      }
    }
    FirstMatchSkipsPrefix("record", b, ParenWord);
  }

  /** `/\((\w+)\)/` does not match at an opening parenthesis whose text up to `)` is not a word. */
  lemma NoWordInParens(t: string, rest: string)
    requires ')' !in t
    requires t == [] || exists k :: 0 <= k < |t| && !IsWordChar(t[k])
    ensures !MatchesAt("(" + t + ")" + rest, ParenWord, 0)
  {
    var b := "(" + t + ")" + rest;
    if t != [] {
      var k :| 0 <= k < |t| && !IsWordChar(t[k]);
      assert b[1 + k] == t[k];
      RunEndRun(b, 1, Word);
      var e := RunEnd(b, 1, Word);
      assert e <= 1 + k;
      assert b[e] == t[e - 1] && t[e - 1] in t;
    }
  }

  /** The mapping only ever produces leaves. */
  lemma TsTypeOfKindIsLeaf(kind: string)
    ensures TsTypeOfKind(kind) in {StringKeyword, NumberKeyword, BooleanKeyword, UnknownKeyword}
            || TsTypeOfKind(kind).IdRef?
  {
  }

  // ---------------------------------------------------------------------------
  // Base-field selection
  // ---------------------------------------------------------------------------

  /** The base fields keep input order: selecting from a concatenation selects from each part. */
  lemma BaseFieldsAppend(fields: seq<FieldInfo>, parent: Option<string>, more: seq<FieldInfo>)
    ensures BaseFields(fields + more, parent) == BaseFields(fields, parent) + BaseFields(more, parent)
  {
    FilterAppend(fields, more, (f: FieldInfo) => IsBase(parent, f));
  }

  /** The base fields of a list, one element at a time. */
  lemma BaseFieldsCons(f: FieldInfo, rest: seq<FieldInfo>, parent: Option<string>)
    ensures BaseFields([f] + rest, parent)
            == (if IsBase(parent, f) then [f] else []) + BaseFields(rest, parent)
  {
    FilterCons(f, rest, (g: FieldInfo) => IsBase(parent, g));
  }

  /** What is left of a child path `parent.leaf` whose leaf does not repeat the parent. */
  lemma LeaveOfChild(parent: string, leaf: string)
    requires !Contains(leaf, parent)
    ensures Leave(parent + "." + leaf, parent) == leaf
  {
    assert parent + "." + leaf == (parent + ".") + leaf;
    ReplaceFirstPrefix(parent + ".", leaf, "");
    assert "" + leaf == leaf;
    ReplaceFirstAbsent(leaf, parent, "");
  }

  /** A leave without dots and markers names one property. */
  lemma PlainLeave(leave: string)
    requires '.' !in leave && '[' !in leave
    ensures IsPlainLeave(leave)
  {
    ContainsChar(leave, '.');
    if |leave| >= 3 {
      assert leave[|leave| - 3] in leave;
    }
    if |leave| >= 6 {
      assert leave[0] in leave;
    }
  }

  /** A child `parent.leaf` is a base field of `parent` exactly when `leaf` is a plain property name. */
  lemma DirectChildIff(parent: string, leaf: string)
    requires !Contains(leaf, parent)
    ensures IsDirectChild(parent + "." + leaf, parent)
            <==> '.' !in leaf && !EndsWithWordStar(leaf) && !StartsWith(leaf, "[*][*]")
  {
    LeaveOfChild(parent, leaf);
    ContainsChar(leaf, '.');
  }

  /** A grandchild `parent.a.b` is never a base field of `parent` (for a dot-free parent). */
  lemma GrandchildExcluded(parent: string, rest: string)
    requires '.' in rest && '.' !in parent
    ensures !IsDirectChild(parent + "." + rest, parent)
  {
    assert parent + "." + rest == (parent + ".") + rest;
    ReplaceFirstPrefix(parent + ".", rest, "");
    assert "" + rest == rest;
    var leave := ReplaceFirst(rest, parent, "");
    assert Leave(parent + "." + rest, parent) == leave;
    ReplaceFirstKeepsDot(rest, parent);
    ContainsChar(leave, '.');
    assert "." == ['.'];
  }

  /**
   * A path that repeats its parent after the dot leaves nothing and is kept: with a dotted
   * parent this keeps a grandchild, as `x.y.x.y` at the level of `x.y`.
   */
  lemma RepeatedParentKept(parent: string)
    ensures IsDirectChild(parent + "." + parent, parent)
  {
    assert parent + "." + parent == (parent + ".") + parent;
    ReplaceFirstPrefix(parent + ".", parent, "");
    assert "" + parent == parent + "";
    ReplaceFirstPrefix(parent, "", "");
    assert Leave(parent + "." + parent, parent) == "";
    ContainsChar("", '.');
    assert "." == ['.'];
  }

  /**
   * An array property named like its object keeps its element path: `parent.parent[*]` leaves
   * "[*]", which passes the test (so `a.a[*]` is kept at the level of `a`).
   */
  lemma RepeatedParentElementKept(parent: string)
    ensures IsDirectChild(parent + "." + parent + ElementMarker, parent)
  {
    var name, el := parent + "." + parent + ElementMarker, parent + ElementMarker;
    assert name == (parent + ".") + el;
    ReplaceFirstPrefix(parent + ".", el, "");
    assert ReplaceFirst(name, parent + ".", "") == el;
    ReplaceFirstPrefix(parent, ElementMarker, "");
    assert Leave(name, parent) == ElementMarker;
    PlainElementMarker();
  }

  /** The bare marker "[*]" is a plain leave. */
  lemma PlainElementMarker()
    ensures IsPlainLeave(ElementMarker)
  {
    ContainsChar(ElementMarker, '.');
    assert "." == ['.'];
  }

  /** No position at or after `from` of `s` holds a dot. */
  lemma NoDotFrom(parent: string, tail: string)
    requires '.' !in tail
    ensures !Contains(parent + tail, parent + ".")
  {
    var s := parent + tail;
    forall i: nat
      ensures !OccursAt(s, parent + ".", i)
    {
      if i + |parent| < |s| {
        assert s[i + |parent|] == tail[i];
        assert tail[i] in tail;
      }
      OccursAtChar(s, parent + ".", i, |parent|);
    }
  }

  /**
   * A child of an array's element, `parent[*].leaf`, is not a base field of the array level
   * `parent` (the element stands for it), for a parent path that does not end in a marker.
   */
  lemma ElementChildNotDirect(parent: string, leaf: string)
    requires parent != [] && parent[|parent| - 1] != ']'
    requires '.' !in leaf || '.' !in parent
    ensures !IsDirectChild(parent + "[*]." + leaf, parent)
  {
    var name := parent + "[*]." + leaf;
    if '.' !in leaf {
      forall k: nat
        ensures !MatchesAt(name, Text(parent + "."), k)
      {
        ElementChildOnlyDot(parent, leaf, k);
      }
    }
    match IndexOf(name, parent + ".")
    case None =>
      ElementPathWithoutParentDot(parent, leaf);
    case Some(k) =>
      ElementChildDotSurvives(parent, leaf, k);
      ReplaceFirstKeepsDot(ReplaceFirst(name, parent + ".", ""), parent);
      ContainsChar(Leave(name, parent), '.');
  }

  /** The same exclusion, with the path spelled as element path, dot and leaf. */
  lemma ElementFieldNotDirect(parent: string, leaf: string)
    requires parent != [] && parent[|parent| - 1] != ']'
    requires '.' !in leaf || '.' !in parent
    ensures !IsDirectChild(parent + ElementMarker + "." + leaf, parent)
  {
    assert parent + ElementMarker + "." + leaf == parent + "[*]." + leaf;
    ElementChildNotDirect(parent, leaf);
  }

  /** When "<parent>." does not occur, only the parent itself is stripped, leaving `[*].leaf`. */
  lemma ElementPathWithoutParentDot(parent: string, leaf: string)
    requires IndexOf(parent + "[*]." + leaf, parent + ".").None?
    ensures !IsDirectChild(parent + "[*]." + leaf, parent)
  {
    var name := parent + "[*]." + leaf;
    assert name == parent + ("[*]." + leaf);
    ReplaceFirstPrefix(parent, "[*]." + leaf, "");
    assert Leave(name, parent) == "[*]." + leaf;
    assert ("[*]." + leaf)[3] == '.';
    ContainsChar("[*]." + leaf, '.');
  }

  /** Where the first "<parent>." of `parent[*].leaf` can start, if anywhere. */
  lemma ElementChildDotSurvives(parent: string, leaf: string, k: nat)
    requires parent != [] && parent[|parent| - 1] != ']'
    requires '.' !in leaf || '.' !in parent
    requires IndexOf(parent + "[*]." + leaf, parent + ".") == Some(k)
    ensures '.' !in parent && '.' in ReplaceFirst(parent + "[*]." + leaf, parent + ".", "")
  {
    if '.' !in leaf {
      ElementChildOnlyDot(parent, leaf, k);
    } else {
      ElementChildLeafDot(parent, leaf, k);
    }
  }

  /** With a dot in the leaf, the dot after `[*]` lies before the removed "<parent>." and survives. */
  lemma ElementChildLeafDot(parent: string, leaf: string, k: nat)
    requires parent != [] && parent[|parent| - 1] != ']' && '.' !in parent
    requires IndexOf(parent + "[*]." + leaf, parent + ".") == Some(k)
    ensures '.' in ReplaceFirst(parent + "[*]." + leaf, parent + ".", "")
  {
    var name := parent + "[*]." + leaf;
    var t := parent + ".";
    var d := |parent| + 3;
    assert name[d] == '.' && name[d - 1] == ']';
    OccursAtChar(name, t, k, |parent|);
    OccursAtChar(name, t, k, |parent| - 1);
    forall j | k <= j < k + |parent|
      ensures name[j] != '.'
    {
      OccursAtChar(name, t, k, j - k);
      assert parent[j - k] in parent;
    }
    var s1 := name[..k] + name[k + |t|..];
    assert ReplaceFirst(name, t, "") == s1;
    assert d < k;
    assert s1[d] == '.';
  }

  /** With a dot-free leaf, `parent[*].leaf` holds no "<parent>." at all. */
  lemma ElementChildOnlyDot(parent: string, leaf: string, k: nat)
    requires parent != [] && parent[|parent| - 1] != ']' && '.' !in leaf
    ensures !OccursAt(parent + "[*]." + leaf, parent + ".", k)
  {
    var name := parent + "[*]." + leaf;
    var t := parent + ".";
    OccursAtChar(name, t, k, |parent|);
    OccursAtChar(name, t, k, |parent| - 1);
    if k + |parent| < |name| {
      if k + |parent| > |parent| + 3 {
        assert name[k + |parent|] == leaf[k - 4];
        assert leaf[k - 4] in leaf;
      } else if k + |parent| < |parent| + 3 {
        assert name[k + |parent|] == "[*]"[k];
      } else {
        assert name[k + |parent| - 1] == ']';
      }
    }
  }

  /** The element path `parent[*]` is a base field of `parent`. */
  lemma ElementIsDirectChild(parent: string)
    ensures IsDirectChild(parent + ElementMarker, parent)
  {
    NoDotFrom(parent, ElementMarker);
    ReplaceFirstAbsent(parent + ElementMarker, parent + ".", "");
    ReplaceFirstPrefix(parent, ElementMarker, "");
    ContainsChar(ElementMarker, '.');
  }

  /** The doubly nested element `parent[*][*]` is not a base field of `parent`. */
  lemma MatrixElementExcluded(parent: string)
    ensures !IsDirectChild(parent + ElementMarker + ElementMarker, parent)
  {
    assert parent + ElementMarker + ElementMarker == parent + "[*][*]";
    NoDotFrom(parent, "[*][*]");
    ReplaceFirstAbsent(parent + "[*][*]", parent + ".", "");
    ReplaceFirstPrefix(parent, "[*][*]", "");
  }

  // ---------------------------------------------------------------------------
  // The shape of the result
  // ---------------------------------------------------------------------------

  /**
   * At the top level the result is a type literal with one property per top-level path, in
   * input order, named by that path, optional unless its definition asserts not-NONE.
   */
  lemma TopLevelShape(fields: seq<FieldInfo>)
    ensures CreateTableType(fields, None).Literal?
    ensures var ps := CreateTableType(fields, None).props;
            var base := BaseFields(fields, None);
            |ps| == |base| &&
            forall i :: 0 <= i < |ps| ==>
              ps[i].name == base[i].name && ps[i].optional == IsOptional(base[i].definition)
              && ps[i].ty == FieldType(fields, base[i]) && ps[i].doc == Some(DocText(base[i].definition))
  {
    var base := BaseFields(fields, None);
    BaseFieldsMembers(fields, None);
    TopLevelIsLiteral(fields);
    forall i | 0 <= i < |base|
      ensures PropName(base[i].name) == base[i].name
      ensures Props(fields, base)[i]
              == Prop(base[i].name, IsOptional(base[i].definition),
                      FieldType(fields, base[i]), Some(DocText(base[i].definition)))
    {
      assert base[i] in base;
      PropNameTopLevel(base[i].name);
      PropsAt(fields, base, i);
    }
  }

  /** The top level is never an unwrapped element: its base fields carry no marker. */
  lemma TopLevelIsLiteral(fields: seq<FieldInfo>)
    ensures CreateTableType(fields, None) == Literal(Props(fields, BaseFields(fields, None)))
  {
    var base := BaseFields(fields, None);
    BaseFieldsMembers(fields, None);
    if |base| == 1 {
      assert base[0] in base;
      assert IsTopLevel(base[0].name);
      if EndsWith(base[0].name, ElementMarker) {
        EndsWithContains(base[0].name, ElementMarker);
      }
    }
  }

  /** When no path is nested, the properties are exactly the input fields, in order. */
  lemma FlatTable(fields: seq<FieldInfo>)
    requires forall f :: f in fields ==> IsTopLevel(f.name)
    ensures CreateTableType(fields, None).Literal?
    ensures var ps := CreateTableType(fields, None).props;
            |ps| == |fields| &&
            forall i :: 0 <= i < |ps| ==>
              ps[i].name == fields[i].name && ps[i].optional == IsOptional(fields[i].definition)
  {
    FilterAll(fields, (f: FieldInfo) => IsBase(None, f));
    TopLevelShape(fields);
  }

  /** A leaf field's type is the mapping of its kind; objects and arrays are never mapped. */
  lemma LeafFieldType(fields: seq<FieldInfo>, f: FieldInfo)
    requires f in fields && KindOf(f.definition) !in {"object", "array"}
    ensures FieldType(fields, f) == TsTypeOfKind(KindOf(f.definition))
  {
  }

  /** An array field is always an array type, whatever its element. */
  lemma ArrayFieldIsArray(fields: seq<FieldInfo>, f: FieldInfo)
    requires f in fields && KindOf(f.definition) == "array"
    ensures FieldType(fields, f).ArrayOf?
  {
  }

  // ---------------------------------------------------------------------------
  // The array element unwrap
  // ---------------------------------------------------------------------------

  /** A field's type depends only on its own descendants: it is the same among any prefix's descendants that include it. */
  lemma FieldTypeAmongDescendants(fields: seq<FieldInfo>, prefix: string, e: FieldInfo)
    requires e in fields && StartsWith(e.name, prefix)
    ensures e in WithPrefix(fields, prefix)
    ensures FieldType(WithPrefix(fields, prefix), e) == FieldType(fields, e)
  {
    WithPrefixMembers(fields, prefix);
    var kind := KindOf(e.definition);
    if kind == "object" || kind == "array" {
      var suffix := if kind == "object" then "." else ElementMarker;
      assert (e.name + suffix)[..|prefix|] == e.name[..|prefix|];
      WithPrefixNested(fields, prefix, e.name + suffix);
    }
  }

  /** "<parent>." does not start among the first `n` characters of `name`. */
  predicate NoParentDotBefore(name: string, parent: string, n: nat) {
    forall q :: 0 <= q < n ==> !OccursAt(name, parent + ".", q)
  }

  /**
   * `g` lies below the element of the array path `parent`: it is the element's own element, or
   * a path `parent[*][*]...` or `parent[*]....` in which "<parent>." does not start again before
   * the end of `parent[*][*]` or `parent[*].`, or a child of the element under a parent not
   * ending in a marker with a dot-free parent or leaf.
   */
  predicate BelowElement(parent: string, g: FieldInfo) {
    var el := parent + ElementMarker;
    g.name == el + ElementMarker
    || (StartsWith(g.name, el + ElementMarker) && NoParentDotBefore(g.name, parent, |el| + 3))
    || (StartsWith(g.name, el + ".") && NoParentDotBefore(g.name, parent, |el| + 1))
    || (parent != [] && parent[|parent| - 1] != ']' && StartsWith(g.name, el + ".")
        && ('.' !in parent || '.' !in g.name[|el| + 1..]))
  }

  /**
   * When "<parent>." does not start before `n`, the first replace leaves the first `n`
   * characters alone and the second strips the leading parent: the leave begins with what
   * lay between the parent and `n`.
   */
  lemma LeaveKeepsFront(name: string, parent: string, n: nat)
    requires StartsWith(name, parent) && |parent| <= n <= |name|
    requires NoParentDotBefore(name, parent, n)
    ensures StartsWith(Leave(name, parent), name[|parent|..n])
  {
    var s1 := ReplaceFirst(name, parent + ".", "");
    match IndexOf(name, parent + ".")
    case None =>
      assert s1 == name;
    case Some(k) =>
      assert OccursAt(name, parent + ".", k);
      assert s1 == name[..k] + name[k + |parent| + 1..];
    assert |s1| >= n && s1[..n] == name[..n];
    assert s1 == parent + s1[|parent|..];
    ReplaceFirstPrefix(parent, s1[|parent|..], "");
    assert Leave(name, parent) == s1[|parent|..];
    assert s1[|parent|..][..n - |parent|] == name[|parent|..n];
  }

  /** A path into the element's own element leaves "[*][*]..." and is excluded. */
  lemma MatrixPathExcluded(parent: string, name: string)
    requires StartsWith(name, parent + ElementMarker + ElementMarker)
    requires NoParentDotBefore(name, parent, |parent| + 6)
    ensures !IsDirectChild(name, parent)
  {
    LeaveKeepsFront(name, parent, |parent| + 6);
    assert name[|parent|..|parent| + 6] == "[*][*]";
  }

  /** A path into the element's object leaves "[*]." followed by more and is excluded. */
  lemma ElementPathExcluded(parent: string, name: string)
    requires StartsWith(name, parent + ElementMarker + ".")
    requires NoParentDotBefore(name, parent, |parent| + 4)
    ensures !IsDirectChild(name, parent)
  {
    LeaveKeepsFront(name, parent, |parent| + 4);
    var leave := Leave(name, parent);
    assert leave[3] == name[|parent| + 3] == '.';
    ContainsChar(leave, '.');
    assert "." == ['.'];
  }

  /** A path below the element is never a base field of the array's level. */
  lemma BelowElementNotBase(parent: string, g: FieldInfo)
    requires BelowElement(parent, g)
    ensures !IsBase(Some(parent), g)
  {
    var el := parent + ElementMarker;
    if g.name == el + ElementMarker {
      MatrixElementExcluded(parent);
    } else if StartsWith(g.name, el + ElementMarker) && NoParentDotBefore(g.name, parent, |el| + 3) {
      MatrixPathExcluded(parent, g.name);
    } else if StartsWith(g.name, el + ".") && NoParentDotBefore(g.name, parent, |el| + 1) {
      ElementPathExcluded(parent, g.name);
    } else {
      var leaf := g.name[|el| + 1..];
      assert g.name == g.name[..|el| + 1] + leaf;
      assert g.name == parent + ElementMarker + "." + leaf;
      ElementFieldNotDirect(parent, leaf);
    }
  }

  /** Among its own paths and paths below it, an element is the only base field of its array's level. */
  lemma ElementAlone(parent: string, e: FieldInfo, before: seq<FieldInfo>, after: seq<FieldInfo>)
    requires e.name == parent + ElementMarker
    requires forall g :: g in before + after ==> BelowElement(parent, g)
    ensures BaseFields(before + [e] + after, Some(parent)) == [e]
  {
    forall g | g in before + after
      ensures !IsBase(Some(parent), g)
    {
      BelowElementNotBase(parent, g);
    }
    BaseFieldsNone(before, Some(parent));
    BaseFieldsNone(after, Some(parent));
    ElementIsDirectChild(parent);
    BaseFieldsAll([e], Some(parent));
    BaseFieldsAppend(before, Some(parent), [e]);
    BaseFieldsAppend(before + [e], Some(parent), after);
  }

  /**
   * The `[*]` unwrap, for every input: when the paths below an array field `f` are its element
   * `f[*]`, once, and otherwise only paths below that element, the array's item type is the
   * element's own type (a leaf's mapping, an object's literal, a nested array), whatever the
   * element's optionality and comment.
   */
  lemma ArrayOfElement(fields: seq<FieldInfo>, f: FieldInfo, e: FieldInfo, before: seq<FieldInfo>, after: seq<FieldInfo>)
    requires f in fields && KindOf(f.definition) == "array"
    requires e.name == f.name + ElementMarker
    requires WithPrefix(fields, f.name + ElementMarker) == before + [e] + after
    requires forall g :: g in before + after ==> BelowElement(f.name, g)
    ensures e in fields
    ensures FieldType(fields, f) == ArrayOf(FieldType(fields, e))
    ensures KindOf(e.definition) !in {"object", "array"}
            ==> FieldType(fields, f) == ArrayOf(TsTypeOfKind(KindOf(e.definition)))
    ensures KindOf(e.definition) == "object"
            ==> FieldType(fields, f) == ArrayOf(CreateTableType(WithPrefix(fields, e.name + "."), Some(e.name)))
  {
    var sub := WithPrefix(fields, f.name + ElementMarker);
    WithPrefixMembers(fields, f.name + ElementMarker);
    assert e in sub;
    ElementAlone(f.name, e, before, after);
    assert e.name[|e.name| - |ElementMarker|..] == ElementMarker;
    ElementLevel(sub, Some(f.name), e);
    assert e.name[..|f.name + ElementMarker|] == f.name + ElementMarker;
    FieldTypeAmongDescendants(fields, f.name + ElementMarker, e);
  }

  /**
   * Every path into the element's own element, `parent[*][*]<tail>` (a matrix of objects, a
   * three-dimensional matrix), lies below the element when the parent starts with a word
   * character that does not recur after the start.
   */
  lemma MatrixPathBelow(parent: string, tail: string, definition: string)
    requires parent != [] && IsWordChar(parent[0]) && parent[0] !in parent[1..] && parent[0] !in tail
    ensures BelowElement(parent, FieldInfo(parent + "[*][*]" + tail, definition))
  {
    var name := parent + "[*][*]" + tail;
    assert name == parent + ("[*][*]" + tail);
    assert parent[0] !in "[*][*]" + tail;
    ParentDotAbsent(parent, "[*][*]" + tail);
    assert name[..|parent| + 6] == parent + ElementMarker + ElementMarker;
  }

  /**
   * Every path into the element's object, `parent[*].<tail>`, however deep (an array of nested
   * objects under a dotted parent), lies below the element when the parent starts with a word
   * character that does not recur after the start.
   */
  lemma ObjectPathBelow(parent: string, tail: string, definition: string)
    requires parent != [] && IsWordChar(parent[0]) && parent[0] !in parent[1..] && parent[0] !in tail
    ensures BelowElement(parent, FieldInfo(parent + "[*]." + tail, definition))
  {
    var name := parent + "[*]." + tail;
    assert name == parent + ("[*]." + tail);
    assert parent[0] !in "[*]." + tail;
    ParentDotAbsent(parent, "[*]." + tail);
    assert name[..|parent| + 4] == parent + ElementMarker + ".";
  }

  /**
   * A path whose first character does not recur after the start, and which does not continue
   * its parent with a dot, holds no "<parent>." at all.
   */
  lemma ParentDotAbsent(parent: string, tail: string)
    requires parent != [] && (tail == [] || tail[0] != '.')
    requires parent[0] !in parent[1..] && parent[0] !in tail
    ensures forall q :: !OccursAt(parent + tail, parent + ".", q)
  {
    var s := parent + tail;
    forall q: nat
      ensures !OccursAt(s, parent + ".", q)
    {
      OccursAtChar(s, parent + ".", q, 0);
      OccursAtChar(s, parent + ".", q, |parent|);
      if q == 0 {
        assert |s| > |parent| ==> s[|parent|] == tail[0];
      } else if q < |parent| {
        assert s[q] == parent[1..][q - 1];
      } else if q < |s| {
        assert s[q] == tail[q - |parent|];
      }
    }
  }

  /** The descendants of `parent[*]` in a list of an array path and its element path are the element alone. */
  lemma ElementDescendants(parent: string, ad: string, ed: string)
    ensures var arr, elem := FieldInfo(parent, ad), FieldInfo(parent + ElementMarker, ed);
            WithPrefix([arr, elem], parent + ElementMarker) == [elem]
  {
    var arr, elem := FieldInfo(parent, ad), FieldInfo(parent + ElementMarker, ed);
    FilterCons(arr, [elem], (f: FieldInfo) => StartsWith(f.name, parent + ElementMarker));
    FilterCons(elem, [], (f: FieldInfo) => StartsWith(f.name, parent + ElementMarker));
    assert elem.name[..|parent + ElementMarker|] == parent + ElementMarker;
  }

  /**
   * An array whose only descendant is its leaf element is an array of that leaf's mapping, for
   * every array path, dotted ones included.
   */
  lemma LeafElementArray(parent: string, ad: string, ed: string)
    requires KindOf(ad) == "array" && KindOf(ed) !in {"object", "array"}
    ensures var arr, elem := FieldInfo(parent, ad), FieldInfo(parent + ElementMarker, ed);
            FieldType([arr, elem], arr) == ArrayOf(TsTypeOfKind(KindOf(ed)))
  {
    var arr, elem := FieldInfo(parent, ad), FieldInfo(parent + ElementMarker, ed);
    ElementDescendants(parent, ad, ed);
    assert [] + [elem] + [] == [elem];
    ArrayOfElement([arr, elem], arr, elem, [], []);
  }

  // ---------------------------------------------------------------------------
  // The property comment
  // ---------------------------------------------------------------------------

  /** The two-character terminator occurs at `j` exactly when its two characters are there. */
  lemma TerminatorAt(s: string, j: nat)
    ensures OccursAt(s, "*/", j) <==> j + 1 < |s| && s[j] == '*' && s[j + 1] == '/'
  {
    if j + 2 <= |s| && s[j] == '*' && s[j + 1] == '/' {
      assert s[j..j + 2] == "*/";
    }
    OccursAtChar(s, "*/", j, 0);
    OccursAtChar(s, "*/", j, 1);
  }

  /**
   * Only the first "*\/" of a definition is replaced: the comment text still holds a comment
   * terminator exactly when the definition holds a second one.
   */
  lemma DocReplacesFirstOnly(definition: string)
    ensures !Contains(definition, "*/") ==> DocText(definition) == definition
    ensures Contains(definition, "*/") ==>
      var i := IndexOf(definition, "*/").value;
      (Contains(DocText(definition), "*/") <==> Contains(definition[i + 2..], "*/"))
  {
    if Contains(definition, "*/") {
      var i := IndexOf(definition, "*/").value;
      DocKeepsLaterTerminators(definition, i);
      DocOnlyLaterTerminators(definition, i);
    }
  }

  /** The comment text around the first terminator. */
  lemma DocSplit(definition: string, i: nat)
    requires IndexOf(definition, "*/") == Some(i)
    ensures i + 2 <= |definition|
    ensures DocText(definition) == (definition[..i] + "[REPLACED]") + definition[i + 2..]
  {
  }

  lemma DocKeepsLaterTerminators(definition: string, i: nat)
    requires IndexOf(definition, "*/") == Some(i)
    ensures i + 2 <= |definition|
    ensures Contains(definition[i + 2..], "*/") ==> Contains(DocText(definition), "*/")
  {
    DocSplit(definition, i);
    var rest := definition[i + 2..];
    var head := definition[..i] + "[REPLACED]";
    if Contains(rest, "*/") {
      var j := IndexOf(rest, "*/").value;
      MatchesShift(head, rest, Text("*/"), j);
      ContainsAt(DocText(definition), "*/", |head| + j);
    }
  }

  lemma DocOnlyLaterTerminators(definition: string, i: nat)
    requires IndexOf(definition, "*/") == Some(i)
    ensures i + 2 <= |definition|
    ensures Contains(DocText(definition), "*/") ==> Contains(definition[i + 2..], "*/")
  {
    DocSplit(definition, i);
    var rest := definition[i + 2..];
    var head := definition[..i] + "[REPLACED]";
    if Contains(DocText(definition), "*/") {
      var j := IndexOf(DocText(definition), "*/").value;
      DocTerminatorAfterReplacement(definition, i, j);
      MatchesShift(head, rest, Text("*/"), j - |head|);
      ContainsAt(rest, "*/", j - |head|);
    }
  }

  /** A comment terminator in the comment text can only start after the replacement text. */
  lemma DocTerminatorAfterReplacement(definition: string, i: nat, j: nat)
    requires IndexOf(definition, "*/") == Some(i)
    ensures OccursAt(DocText(definition), "*/", j) ==> j >= i + |"[REPLACED]"|
  {
    var doc := DocText(definition);
    var r := "[REPLACED]";
    assert doc == definition[..i] + r + definition[i + 2..];
    TerminatorAt(doc, j);
    if j + 1 < i {
      assert !MatchesAt(definition, Text("*/"), j);
      TerminatorAt(definition, j);
      assert doc[j] == definition[j] && doc[j + 1] == definition[j + 1];
    } else if j + 1 == i {
      assert doc[j + 1] == '[';
    } else if j < i + |r| {
      assert doc[j] == r[j - i];
      assert r[j - i] in r;
    }
  }

  /**
   * In `x/y*\/post`, where neither `x` nor `y` holds a slash and `x` does not end in `*`, the
   * terminator right after `y` is the first one, and it alone is replaced.
   */
  lemma DocTextFirstTerminator(x: string, y: string, post: string)
    requires '/' !in x && '/' !in y && (x == [] || x[|x| - 1] != '*')
    ensures DocText(x + "/" + y + "*/" + post) == x + "/" + y + "[REPLACED]" + post
  {
    var s := x + "/" + y + "*/" + post;
    var p := |x| + 1 + |y|;
    assert s[p..p + 2] == "*/";
    forall q: nat | q < p
      ensures !MatchesAt(s, Text("*/"), q)
    {
      TerminatorAt(s, q);
      if q + 1 < |x| {
        assert s[q + 1] == x[q + 1];
      } else if q + 1 == |x| {
        assert s[q] == x[q];
      } else if q + 1 < p {
        assert s[q + 1] == y[q - |x|];
      }
    }
    SearchFinds(s, Text("*/"), p);
    assert s[..p] == x + "/" + y;
    assert s[p + 2..] == post;
  }
}
