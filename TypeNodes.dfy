/**
 * The type tree that the table-type reconstructor builds (in the repository a TypeScript
 * compiler `TypeNode`), the field records it consumes, and the pieces of the field-path
 * grammar that both variants of the reconstructor share.
 */
module TypeNodes {
  import opened Wrappers
  import opened Strings
  import opened Seqs

  /** One `{ name, definition }` record: a field path and its raw `DEFINE FIELD` text. */
  datatype FieldInfo = FieldInfo(name: string, definition: string)

  /** A TypeScript type as the generator emits it. */
  datatype TypeNode =
    | StringKeyword                 // string
    | NumberKeyword                 // number
    | BooleanKeyword                // boolean
    | UnknownKeyword                // unknown
    | MissingKeyword                // a keyword node built from a kind the lookup table lacks
    | IdRef(table: string)          // Id<"table">
    | ArrayOf(element: TypeNode)    // element[]
    | Literal(props: seq<Prop>)     // { name?: type; ... }

  /** A property signature of a type literal, with the comment attached to it, if any. */
  datatype Prop = Prop(name: string, optional: bool, ty: TypeNode, doc: Option<string>)

  /** The path suffix that marks an array's element. */
  const ElementMarker: string := "[*]"

  /** The assertion whose presence makes a field required. */
  const NotNoneAssertion: string := "ASSERT $value != NONE"

  /** A field is optional unless its definition asserts it is not NONE. */
  predicate IsOptional(definition: string) {
    !Contains(definition, NotNoneAssertion)
  }

  /** The property name of a path: its last dot-segment with the first `[*]` removed. */
  function PropName(path: string): string {
    ReplaceFirst(LastSegment(path), ElementMarker, "")
  }

  /** `fieldInfo.filter((f) => f.name.startsWith(prefix))` */
  function WithPrefix(fields: seq<FieldInfo>, prefix: string): (r: seq<FieldInfo>)
    ensures |r| <= |fields|
  {
    Filter(fields, (f: FieldInfo) => StartsWith(f.name, prefix))
  }

  /** The descendants selected are exactly the fields whose path starts with the prefix. */
  lemma WithPrefixMembers(fields: seq<FieldInfo>, prefix: string)
    ensures forall f :: f in WithPrefix(fields, prefix) <==> f in fields && StartsWith(f.name, prefix)
  {
    FilterMembers(fields, (f: FieldInfo) => StartsWith(f.name, prefix));
  }

  /** The descendants of a path, one field at a time. */
  lemma WithPrefixCons(f: FieldInfo, rest: seq<FieldInfo>, prefix: string)
    ensures WithPrefix([f] + rest, prefix)
            == (if StartsWith(f.name, prefix) then [f] else []) + WithPrefix(rest, prefix)
  {
    FilterCons(f, rest, (g: FieldInfo) => StartsWith(g.name, prefix));
  }

  /** When every field starts with the prefix, all of them are descendants, in order. */
  lemma WithPrefixAll(fields: seq<FieldInfo>, prefix: string)
    requires forall f :: f in fields ==> StartsWith(f.name, prefix)
    ensures WithPrefix(fields, prefix) == fields
  {
    FilterAll(fields, (f: FieldInfo) => StartsWith(f.name, prefix));
  }

  /** When no field starts with the prefix, there are no descendants. */
  lemma WithPrefixNone(fields: seq<FieldInfo>, prefix: string)
    requires forall f :: f in fields ==> !StartsWith(f.name, prefix)
    ensures WithPrefix(fields, prefix) == []
  {
    FilterNone(fields, (f: FieldInfo) => StartsWith(f.name, prefix));
  }

  /** The descendants of a concatenation are the descendants of each part, in order. */
  lemma WithPrefixAppend(xs: seq<FieldInfo>, ys: seq<FieldInfo>, prefix: string)
    ensures WithPrefix(xs + ys, prefix) == WithPrefix(xs, prefix) + WithPrefix(ys, prefix)
  {
    FilterAppend(xs, ys, (f: FieldInfo) => StartsWith(f.name, prefix));
  }

  /** The descendants of a longer prefix among the descendants of a shorter one are all of its descendants. */
  lemma WithPrefixNested(fields: seq<FieldInfo>, a: string, b: string)
    requires StartsWith(b, a)
    ensures WithPrefix(WithPrefix(fields, a), b) == WithPrefix(fields, b)
  {
    forall f: FieldInfo | StartsWith(f.name, b)
      ensures StartsWith(f.name, a)
    {
      assert f.name[..|b|][..|a|] == f.name[..|a|];
    }
    FilterNarrow(fields, (f: FieldInfo) => StartsWith(f.name, a), (f: FieldInfo) => StartsWith(f.name, b));
  }

  /** A top-level path: no dot and no array marker. */
  predicate IsTopLevel(name: string) {
    !Contains(name, ".") && !Contains(name, ElementMarker)
  }

  /** The children selected for a field of the list are a strict sub-list: recursion always shrinks. */
  lemma ChildrenShrink(fields: seq<FieldInfo>, f: FieldInfo, suffix: string)
    requires f in fields && suffix != []
    ensures |WithPrefix(fields, f.name + suffix)| < |fields|
    ensures forall g :: g in WithPrefix(fields, f.name + suffix) ==> g in fields && g != f
  {
    FilterShrinks(fields, (g: FieldInfo) => StartsWith(g.name, f.name + suffix), f);
    WithPrefixMembers(fields, f.name + suffix);
  }

  /** A name without dots and array markers is its own property name. */
  lemma PropNameTopLevel(name: string)
    requires IsTopLevel(name)
    ensures PropName(name) == name
  {
    ContainsChar(name, '.');
    LastSegmentNoDot(name);
  }

  /** The property name of `parent.leaf` with a marker-free `leaf` is `leaf`. */
  lemma PropNameChild(parent: string, leaf: string)
    requires '.' !in leaf && '[' !in leaf
    ensures PropName(parent + "." + leaf) == leaf
  {
    LastSegmentAfterDot(parent, leaf);
    MissingCharNotContains(leaf, ElementMarker, 0);
  }

  /** The property name of `parent.leaf[*]` with a marker-free `leaf` is `leaf`. */
  lemma PropNameChildArray(parent: string, leaf: string)
    requires '.' !in leaf && '[' !in leaf
    ensures PropName(parent + "." + leaf + ElementMarker) == leaf
  {
    assert parent + "." + leaf + ElementMarker == parent + "." + (leaf + ElementMarker);
    LastSegmentAfterDot(parent, leaf + ElementMarker);
    SearchSkipsPrefixSome(leaf, ElementMarker, Text(ElementMarker), 0) by {
      assert ElementMarker + [] == ElementMarker;
      ReplaceFirstPrefix(ElementMarker, [], "");
    }
    assert (leaf + ElementMarker)[..|leaf|] == leaf;
    assert (leaf + ElementMarker)[|leaf| + 3..] == [];
  }

  /** The property name of an element path `a[*]tail` with a plain `a` and dot-free `tail` is `a + tail`. */
  lemma PropNameElement(a: string, tail: string)
    requires '.' !in a && '[' !in a && '.' !in tail
    ensures PropName(a + ElementMarker + tail) == a + tail
  {
    var b := ElementMarker + tail;
    ElementPathNoDot(a, tail);
    assert a + ElementMarker + tail == a + b;
    LastSegmentNoDot(a + b);
    FirstMarker(a, tail);
  }

  /** An element path `a[*]tail` built from dot-free parts has no dot. */
  lemma ElementPathNoDot(a: string, tail: string)
    requires '.' !in a && '.' !in tail
    ensures '.' !in a + ElementMarker + tail
  {
    var s := a + ElementMarker + tail;
    forall i | 0 <= i < |s|
      ensures s[i] != '.'
    {
      if i < |a| {
        assert s[i] == a[i];
      } else if i >= |a| + 3 {
        assert s[i] == tail[i - |a| - 3];
      }
    }
  }

  /** Removing the first marker of `a[*]tail`, with a marker-free `a`, leaves `a + tail`. */
  lemma FirstMarker(a: string, tail: string)
    requires '[' !in a
    ensures ReplaceFirst(a + (ElementMarker + tail), ElementMarker, "") == a + tail
  {
    var b := ElementMarker + tail;
    var s := a + b;
    assert b[0..3] == ElementMarker;
    SearchFinds(b, Text(ElementMarker), 0);
    SearchSkipsPrefixSome(a, b, Text(ElementMarker), 0);
    assert s[..|a|] == a && s[|a| + 3..] == tail;
  }
}
