/**
 * The JavaScript string operations the generator relies on, stated over `seq<char>`:
 * `includes`, `startsWith`, `endsWith`, `indexOf`, `replace` with a string pattern
 * (first occurrence only), `split(sep)[0]`, `split(sep).at(-1)` and `join`, and the
 * three regular expressions of the type reconstructor, each written out as an explicit
 * "matches at position p" predicate searched leftmost-first, as a regex engine does.
 */
module Strings {
  import opened Wrappers

  /** `t` occurs in `s` starting at index `i`. */
  predicate OccursAt(s: string, t: string, i: nat) {
    i + |t| <= |s| && s[i..i + |t|] == t
  }

  /** `s.startsWith(t)` */
  predicate StartsWith(s: string, t: string) {
    |t| <= |s| && s[..|t|] == t
  }

  /** `s.endsWith(t)` */
  predicate EndsWith(s: string, t: string) {
    |t| <= |s| && s[|s| - |t|..] == t
  }

  /** The regular-expression class `\w`. */
  predicate IsWordChar(c: char) {
    ('a' <= c <= 'z') || ('A' <= c <= 'Z') || ('0' <= c <= '9') || c == '_'
  }

  /** The regular-expression class `\s` (ECMAScript WhiteSpace and LineTerminator code points). */
  predicate IsSpace(c: char) {
    c == ' ' || c == '\t' || c == '\n' || c == '\r' || c == '\U{000B}' || c == '\U{000C}'
    || c == '\U{00A0}' || c == '\U{1680}' || ('\U{2000}' <= c <= '\U{200A}')
    || c == '\U{2028}' || c == '\U{2029}' || c == '\U{202F}' || c == '\U{205F}'
    || c == '\U{3000}' || c == '\U{FEFF}'
  }

  /** The character classes repeated by the patterns: `\w` and `[^\s]`. */
  datatype CharClass = Word | NonSpace

  predicate InClass(c: char, cls: CharClass) {
    match cls
    case Word => IsWordChar(c)
    case NonSpace => !IsSpace(c)
  }

  /** End of the maximal run of `cls` characters starting at `j` (a greedy `+`/`*`). */
  function RunEnd(s: string, j: nat, cls: CharClass): (e: nat)
    requires j <= |s|
    decreases |s| - j
    ensures j <= e <= |s|
    ensures e == |s| || !InClass(s[e], cls)
  {
    if j == |s| || !InClass(s[j], cls) then j else RunEnd(s, j + 1, cls)
  }

  /** Every character the greedy run passes over is in the class. */
  lemma {:induction false} RunEndRun(s: string, j: nat, cls: CharClass)
    requires j <= |s|
    decreases |s| - j
    ensures forall k :: j <= k < RunEnd(s, j, cls) ==> InClass(s[k], cls)
  {
    if j < |s| && InClass(s[j], cls) {
      RunEndRun(s, j + 1, cls);
    }
  }

  const TypeKeyword: string := "TYPE "

  /**
   * The patterns the generator searches for:
   *   Text(t)              a plain substring (`includes`, `indexOf`, `replace` with a string);
   *   KindAfterType(cls)   `/TYPE ([^\s]+)/` (cls = NonSpace) or `/TYPE (\w+)/` (cls = Word);
   *   ParenWord            `/\((\w+)\)/`.
   */
  datatype Pattern = Text(text: string) | KindAfterType(cls: CharClass) | ParenWord

  /** The pattern matches `s` at position `p`. */
  predicate MatchesAt(s: string, pat: Pattern, p: nat) {
    match pat
    case Text(t) => OccursAt(s, t, p)
    case KindAfterType(cls) =>
      OccursAt(s, TypeKeyword, p) && p + |TypeKeyword| < |s| && InClass(s[p + |TypeKeyword|], cls)
    case ParenWord =>
      p + 1 < |s| && s[p] == '(' && IsWordChar(s[p + 1])
      && RunEnd(s, p + 1, Word) < |s| && s[RunEnd(s, p + 1, Word)] == ')'
  }

  /** The leftmost position at or after `from` where `pat` matches. */
  function Search(s: string, pat: Pattern, from: nat): (r: Option<nat>)
    decreases |s| + 1 - from
    ensures r.Some? ==> from <= r.value && MatchesAt(s, pat, r.value)
    ensures r.Some? ==> forall q :: from <= q < r.value ==> !MatchesAt(s, pat, q)
    ensures r.None? ==> forall q :: from <= q ==> !MatchesAt(s, pat, q)
  {
    if from > |s| then None
    else if MatchesAt(s, pat, from) then Some(from)
    else Search(s, pat, from + 1)
  }

  /** The text a match at `p` captures: the first group of a regex, the text itself otherwise. */
  function Group(s: string, pat: Pattern, p: nat): string
    requires MatchesAt(s, pat, p)
  {
    match pat
    case Text(t) => t
    case KindAfterType(cls) => s[p + |TypeKeyword|..RunEnd(s, p + |TypeKeyword|, cls)]
    case ParenWord => s[p + 1..RunEnd(s, p + 1, Word)]
  }

  /** `s.match(re)?.[1]`: the group captured by the leftmost match, if any. */
  function FirstMatch(s: string, pat: Pattern): Option<string> {
    match Search(s, pat, 0)
    case None => None
    case Some(p) => Some(Group(s, pat, p))
  }

  /** `s.indexOf(t)`, with `None` for -1. */
  function IndexOf(s: string, t: string): Option<nat> {
    Search(s, Text(t), 0)
  }

  /** `s.includes(t)` */
  predicate Contains(s: string, t: string) {
    IndexOf(s, t).Some?
  }

  /** `s.replace(t, rep)` with a string pattern: only the leftmost occurrence is replaced. */
  function ReplaceFirst(s: string, t: string, rep: string): string {
    match IndexOf(s, t)
    case None => s
    case Some(i) => s[..i] + rep + s[i + |t|..]
  }

  /** `/\w+\[\*\]$/.test(s)`: `s` ends in `[*]` right after a word character. */
  predicate EndsWithWordStar(s: string) {
    EndsWith(s, "[*]") && |s| >= 4 && IsWordChar(s[|s| - 4])
  }

  /** `s.split(".").at(-1)`: the text after the last dot. */
  function LastSegment(s: string): (r: string)
    ensures |r| <= |s| && r == s[|s| - |r|..]
    ensures '.' !in r
    ensures |r| < |s| ==> s[|s| - |r| - 1] == '.'
  {
    if s == [] then []
    else if s[|s| - 1] == '.' then []
    else LastSegment(s[..|s| - 1]) + [s[|s| - 1]]
  }

  /** `s.split(c)[0]`: the text before the first `c`. */
  function BeforeFirst(s: string, c: char): (r: string)
    ensures |r| <= |s| && r == s[..|r|]
    ensures c !in r
    ensures |r| < |s| ==> s[|r|] == c
  {
    if s == [] then []
    else if s[0] == c then []
    else [s[0]] + BeforeFirst(s[1..], c)
  }

  /** `parts.join(sep)` */
  function Join(parts: seq<string>, sep: string): string {
    if parts == [] then []
    else if |parts| == 1 then parts[0]
    else parts[0] + sep + Join(parts[1..], sep)
  }

  // ---------------------------------------------------------------------------
  // Facts about the operations above
  // ---------------------------------------------------------------------------

  /** A found occurrence makes `includes` true. */
  lemma ContainsAt(s: string, t: string, i: nat)
    requires OccursAt(s, t, i)
    ensures Contains(s, t)
  {
    assert MatchesAt(s, Text(t), i);
  }

  /** `includes` of a one-character string is sequence membership. */
  lemma ContainsChar(s: string, c: char)
    ensures Contains(s, [c]) <==> c in s
  {
    if c in s {
      var i :| 0 <= i < |s| && s[i] == c;
      assert s[i..i + 1] == [c];
      ContainsAt(s, [c], i);
    }
    if Contains(s, [c]) {
      var i := IndexOf(s, [c]).value;
      assert s[i..i + 1][0] == s[i];
    }
  }

  /** A string missing one of the characters of `t` does not contain `t`. */
  lemma MissingCharNotContains(s: string, t: string, k: nat)
    requires k < |t| && t[k] !in s
    ensures !Contains(s, t)
  {
  }

  /** `t` is contained in anything that has it as an infix. */
  lemma ContainsInfix(a: string, t: string, b: string)
    ensures Contains(a + t + b, t)
  {
    assert (a + t + b)[|a|..|a| + |t|] == t;
    ContainsAt(a + t + b, t, |a|);
  }

  /** A suffix is contained. */
  lemma EndsWithContains(s: string, t: string)
    requires EndsWith(s, t)
    ensures Contains(s, t)
  {
    assert s[|s| - |t|..|s| - |t| + |t|] == s[|s| - |t|..];
    ContainsAt(s, t, |s| - |t|);
  }

  /** The character every match of `pat` starts with, when there is one. */
  function Lead(pat: Pattern): Option<char> {
    match pat
    case Text(t) => if t == [] then None else Some(t[0])
    case KindAfterType(_) => Some(TypeKeyword[0])
    case ParenWord => Some('(')
  }

  /** `a` cannot hold the start of a match of `pat`. */
  predicate LeadAbsent(a: string, pat: Pattern) {
    Lead(pat).Some? && Lead(pat).value !in a
  }

  /** Every match starts with the lead character. */
  lemma MatchLead(s: string, pat: Pattern, q: nat)
    requires Lead(pat).Some?
    ensures MatchesAt(s, pat, q) ==> q < |s| && s[q] == Lead(pat).value
  {
    match pat
    case Text(t) =>
      if OccursAt(s, t, q) {
        assert s[q..q + |t|][0] == s[q];
      }
    case KindAfterType(_) =>
      if OccursAt(s, TypeKeyword, q) {
        assert s[q..q + |TypeKeyword|][0] == s[q];
      }
    case ParenWord =>
  }

  /** The leftmost match, once exhibited, is what the search finds. */
  lemma SearchFinds(s: string, pat: Pattern, p: nat)
    requires MatchesAt(s, pat, p)
    requires forall q: nat :: q < p ==> !MatchesAt(s, pat, q)
    ensures Search(s, pat, 0) == Some(p)
  {
  }

  /** Prefixing a string with text never moves a greedy run's end relative to its start. */
  lemma {:induction false} RunEndShift(a: string, b: string, j: nat, cls: CharClass)
    requires j <= |b|
    decreases |b| - j
    ensures RunEnd(a + b, |a| + j, cls) == |a| + RunEnd(b, j, cls)
  {
    if j < |b| {
      assert (a + b)[|a| + j] == b[j];
      if InClass(b[j], cls) {
        RunEndShift(a, b, j + 1, cls);
      }
    }
  }

  /** A run over a whole token stops right after it when the next character is outside the class. */
  lemma {:induction false} RunEndToken(tok: string, rest: string, cls: CharClass)
    requires forall c :: c in tok ==> InClass(c, cls)
    requires rest == [] || !InClass(rest[0], cls)
    decreases |tok|
    ensures RunEnd(tok + rest, 0, cls) == |tok|
  {
    if tok != [] {
      assert tok + rest == [tok[0]] + (tok[1..] + rest);
      RunEndToken(tok[1..], rest, cls);
      RunEndShift([tok[0]], tok[1..] + rest, 0, cls);
    }
  }

  /** Matching is invariant under prefixing: a match in `b` is a match in `a + b`, shifted. */
  lemma MatchesShift(a: string, b: string, pat: Pattern, j: nat)
    ensures MatchesAt(a + b, pat, |a| + j) <==> MatchesAt(b, pat, j)
  {
    match pat
    case Text(t) =>
      if j + |t| <= |b| {
        assert (a + b)[|a| + j..|a| + j + |t|] == b[j..j + |t|];
      }
    case KindAfterType(cls) =>
      if j + |TypeKeyword| <= |b| {
        assert (a + b)[|a| + j..|a| + j + |TypeKeyword|] == b[j..j + |TypeKeyword|];
      }
      if j + |TypeKeyword| < |b| {
        assert (a + b)[|a| + j + |TypeKeyword|] == b[j + |TypeKeyword|];
      }
    case ParenWord =>
      if j + 1 < |b| {
        assert (a + b)[|a| + j] == b[j];
        assert (a + b)[|a| + j + 1] == b[j + 1];
        RunEndShift(a, b, j + 1, Word);
        var e := RunEnd(b, j + 1, Word);
        if e < |b| {
          assert (a + b)[|a| + e] == b[e];
        }
      }
  }

  /** No match starts inside a prefix that lacks the lead character. */
  lemma NoMatchInPrefix(a: string, b: string, pat: Pattern, q: nat)
    requires LeadAbsent(a, pat) && q < |a|
    ensures !MatchesAt(a + b, pat, q)
  {
    MatchLead(a + b, pat, q);
    assert (a + b)[q] == a[q];
    assert a[q] in a;
  }

  /** The captured text of a shifted match is the captured text in the rest. */
  lemma GroupShift(a: string, b: string, pat: Pattern, p: nat)
    requires MatchesAt(b, pat, p)
    ensures MatchesAt(a + b, pat, |a| + p)
    ensures Group(a + b, pat, |a| + p) == Group(b, pat, p)
  {
    match pat
    case Text(_) =>
      MatchesShift(a, b, pat, p);
    case KindAfterType(cls) =>
      GroupShiftKind(a, b, cls, p);
    case ParenWord =>
      GroupShiftParen(a, b, p);
  }

  /** The kind captured after `TYPE ` moves with its match. */
  lemma GroupShiftKind(a: string, b: string, cls: CharClass, p: nat)
    requires MatchesAt(b, KindAfterType(cls), p)
    ensures MatchesAt(a + b, KindAfterType(cls), |a| + p)
    ensures Group(a + b, KindAfterType(cls), |a| + p) == Group(b, KindAfterType(cls), p)
  {
    var j := p + |TypeKeyword|;
    MatchesShift(a, b, KindAfterType(cls), p);
    RunEndShift(a, b, j, cls);
    SliceShift(a, b, j, RunEnd(b, j, cls));
  }

  /** The word captured between parentheses moves with its match. */
  lemma GroupShiftParen(a: string, b: string, p: nat)
    requires MatchesAt(b, ParenWord, p)
    ensures MatchesAt(a + b, ParenWord, |a| + p)
    ensures Group(a + b, ParenWord, |a| + p) == Group(b, ParenWord, p)
  {
    MatchesShift(a, b, ParenWord, p);
    RunEndShift(a, b, p + 1, Word);
    SliceShift(a, b, p + 1, RunEnd(b, p + 1, Word));
  }

  /** A slice of the rest is the same slice of the whole, shifted. */
  lemma SliceShift(a: string, b: string, i: nat, j: nat)
    requires i <= j <= |b|
    ensures (a + b)[|a| + i..|a| + j] == b[i..j]
  {
  }

  /** Searching past a prefix that lacks the lead character finds no match when the rest has none. */
  lemma SearchSkipsPrefixNone(a: string, b: string, pat: Pattern)
    requires LeadAbsent(a, pat) && Search(b, pat, 0).None?
    ensures Search(a + b, pat, 0).None?
  {
    forall q: nat
      ensures !MatchesAt(a + b, pat, q)
    {
      if q < |a| {
        NoMatchInPrefix(a, b, pat, q);
      } else {
        MatchesShift(a, b, pat, q - |a|);
      }
    }
  }

  /** Searching past a prefix that lacks the lead character finds the match of the rest, shifted. */
  lemma SearchSkipsPrefixSome(a: string, b: string, pat: Pattern, p: nat)
    requires LeadAbsent(a, pat) && Search(b, pat, 0) == Some(p)
    ensures Search(a + b, pat, 0) == Some(|a| + p)
    ensures Group(a + b, pat, |a| + p) == Group(b, pat, p)
  {
    NoEarlyMatch(a, b, pat, p);
    GroupShift(a, b, pat, p);
    SearchFinds(a + b, pat, |a| + p);
  }

  /** With no match in `b` before `p`, there is none in `a + b` before `|a| + p`. */
  lemma NoEarlyMatch(a: string, b: string, pat: Pattern, p: nat)
    requires LeadAbsent(a, pat) && forall q :: 0 <= q < p ==> !MatchesAt(b, pat, q)
    ensures forall q: nat :: q < |a| + p ==> !MatchesAt(a + b, pat, q)
  {
    forall q: nat | q < |a| + p
      ensures !MatchesAt(a + b, pat, q)
    {
      if q < |a| {
        NoMatchInPrefix(a, b, pat, q);
      } else {
        assert !MatchesAt(b, pat, q - |a|);
        MatchesShift(a, b, pat, q - |a|);
      }
    }
  }

  /** When the search in `a + b` finds the match of `b`, shifted, both strings capture the same text. */
  lemma FirstMatchShifted(a: string, b: string, pat: Pattern)
    requires Search(b, pat, 0).None? ==> Search(a + b, pat, 0).None?
    requires Search(b, pat, 0).Some? ==>
               Search(a + b, pat, 0) == Some(|a| + Search(b, pat, 0).value)
               && Group(a + b, pat, |a| + Search(b, pat, 0).value) == Group(b, pat, Search(b, pat, 0).value)
    ensures FirstMatch(a + b, pat) == FirstMatch(b, pat)
  {
    FirstMatchOfSearch(b, pat);
    FirstMatchOfSearch(a + b, pat);
  }

  /** A prefix without the lead character does not change what the pattern captures. */
  lemma FirstMatchSkipsPrefix(a: string, b: string, pat: Pattern)
    requires LeadAbsent(a, pat)
    ensures FirstMatch(a + b, pat) == FirstMatch(b, pat)
  {
    match Search(b, pat, 0)
    case None => SearchSkipsPrefixNone(a, b, pat);
    case Some(p) => SearchSkipsPrefixSome(a, b, pat, p);
    FirstMatchShifted(a, b, pat);
  }

  /** A prefix in which no match of the whole starts does not change what the pattern captures. */
  lemma FirstMatchPastPrefix(a: string, b: string, pat: Pattern)
    requires forall q :: 0 <= q < |a| ==> !MatchesAt(a + b, pat, q)
    ensures FirstMatch(a + b, pat) == FirstMatch(b, pat)
  {
    match Search(b, pat, 0)
    case None => SearchPastPrefixNone(a, b, pat);
    case Some(p) =>
      NoMatchBeforeShifted(a, b, pat, p);
      GroupShift(a, b, pat, p);
      SearchFinds(a + b, pat, |a| + p);
    FirstMatchShifted(a, b, pat);
  }

  /** Without a match in `b` and none starting in the prefix, `a + b` has no match. */
  lemma SearchPastPrefixNone(a: string, b: string, pat: Pattern)
    requires forall q :: 0 <= q < |a| ==> !MatchesAt(a + b, pat, q)
    requires Search(b, pat, 0).None?
    ensures Search(a + b, pat, 0).None?
  {
    forall q: nat
      ensures !MatchesAt(a + b, pat, q)
    {
      if q >= |a| {
        MatchesShift(a, b, pat, q - |a|);
      }
    }
  }

  /** With no match starting in the prefix and none in `b` before `p`, there is none in `a + b` before `|a| + p`. */
  lemma NoMatchBeforeShifted(a: string, b: string, pat: Pattern, p: nat)
    requires forall q :: 0 <= q < |a| ==> !MatchesAt(a + b, pat, q)
    requires forall q :: 0 <= q < p ==> !MatchesAt(b, pat, q)
    ensures forall q: nat :: q < |a| + p ==> !MatchesAt(a + b, pat, q)
  {
    forall q: nat | |a| <= q < |a| + p
      ensures !MatchesAt(a + b, pat, q)
    {
      assert !MatchesAt(b, pat, q - |a|);
      MatchesShift(a, b, pat, q - |a|);
    }
  }

  /**
   * No "TYPE " starts inside `pre`, not even one that runs on into a keyword written right
   * after it: the first "TYPE " of `pre + "TYPE " + ...` is the one after `pre`.
   */
  predicate NoTypeKeywordIn(pre: string) {
    forall q :: 0 <= q < |pre| ==> !OccursAt(pre + TypeKeyword, TypeKeyword, q)
  }

  /** Every occurrence fixes the characters it covers. */
  lemma OccursAtChar(s: string, t: string, i: nat, k: nat)
    ensures OccursAt(s, t, i) && k < |t| ==> s[i + k] == t[k]
  {
    if OccursAt(s, t, i) && k < |t| {
      assert s[i..i + |t|][k] == s[i + k];
    }
  }

  /** A text without a capital T holds no "TYPE ". */
  lemma NoTypeKeywordWithoutT(pre: string)
    requires 'T' !in pre
    ensures NoTypeKeywordIn(pre)
  {
    forall q | 0 <= q < |pre|
      ensures !OccursAt(pre + TypeKeyword, TypeKeyword, q)
    {
      assert (pre + TypeKeyword)[q] == pre[q];
      OccursAtChar(pre + TypeKeyword, TypeKeyword, q, 0);
    }
  }

  /** A text whose every capital T is followed by something other than a capital Y holds no "TYPE ": `userType` is such a text. */
  lemma NoTypeKeywordCamel(pre: string)
    requires forall q :: 0 <= q < |pre| - 1 && pre[q] == 'T' ==> pre[q + 1] != 'Y'
    ensures NoTypeKeywordIn(pre)
  {
    var s := pre + TypeKeyword;
    forall q | 0 <= q < |pre|
      ensures !OccursAt(s, TypeKeyword, q)
    {
      OccursAtChar(s, TypeKeyword, q, 0);
      OccursAtChar(s, TypeKeyword, q, 1);
      assert s[q] == pre[q];
      if q + 1 < |pre| {
        assert s[q + 1] == pre[q + 1];
      } else {
        assert s[q + 1] == TypeKeyword[0];
      }
    }
  }

  /** Where no "TYPE " starts inside `pre`, the kind patterns have no match there either, whatever follows the keyword. */
  lemma NoKindMatchIn(pre: string, b: string, cls: CharClass, q: nat)
    requires NoTypeKeywordIn(pre) && StartsWith(b, TypeKeyword) && q < |pre|
    ensures !MatchesAt(pre + b, KindAfterType(cls), q)
  {
    var s := pre + b;
    var w := pre + TypeKeyword;
    forall k | q <= k < q + |TypeKeyword|
      ensures w[k] == s[k]
    {
      if k >= |pre| {
        assert b[..|TypeKeyword|][k - |pre|] == b[k - |pre|];
      }
    }
    assert w[q..q + |TypeKeyword|] == s[q..q + |TypeKeyword|];
    assert !OccursAt(w, TypeKeyword, q);
  }

  /** `match` returns the group of the leftmost match, and nothing when there is none. */
  lemma FirstMatchOfSearch(s: string, pat: Pattern)
    ensures Search(s, pat, 0).None? ==> FirstMatch(s, pat).None?
    ensures Search(s, pat, 0).Some? ==> FirstMatch(s, pat) == Some(Group(s, pat, Search(s, pat, 0).value))
  {
  }

  /** A string without the lead character has no match at all. */
  lemma SearchLeadAbsent(s: string, pat: Pattern)
    requires LeadAbsent(s, pat)
    ensures Search(s, pat, 0).None? && FirstMatch(s, pat).None?
  {
    forall q: nat
      ensures !MatchesAt(s, pat, q)
    {
      MatchLead(s, pat, q);
      if q < |s| {
        assert s[q] in s;
      }
    }
  }

  /** Replacing an absent pattern changes nothing. */
  lemma ReplaceFirstAbsent(s: string, t: string, rep: string)
    requires !Contains(s, t)
    ensures ReplaceFirst(s, t, rep) == s
  {
  }

  /** Replacing a pattern that starts the string replaces that prefix. */
  lemma ReplaceFirstPrefix(t: string, b: string, rep: string)
    ensures ReplaceFirst(t + b, t, rep) == rep + b
  {
    var s := t + b;
    assert s[0..|t|] == t;
    assert MatchesAt(s, Text(t), 0);
    SearchFinds(s, Text(t), 0);
    assert s[..0] + rep + s[|t|..] == rep + b;
  }

  /** Removing a dot-free pattern cannot remove the dots of a string. */
  lemma ReplaceFirstKeepsDot(s: string, t: string)
    requires '.' !in t && '.' in s
    ensures '.' in ReplaceFirst(s, t, "")
  {
    match IndexOf(s, t)
    case None =>
    case Some(i) =>
      var k :| 0 <= k < |s| && s[k] == '.';
      assert s[i..i + |t|] == t;
      if k < i {
        assert (s[..i] + "" + s[i + |t|..])[k] == s[k];
      } else if i + |t| <= k {
        assert (s[..i] + "" + s[i + |t|..])[k - |t|] == s[k];
      }
  }

  /** The last segment of a dot-free string is the string itself. */
  lemma LastSegmentNoDot(s: string)
    requires '.' !in s
    ensures LastSegment(s) == s
  {
  }

  /** The last segment is what follows the last dot. */
  lemma {:induction false} LastSegmentAfterDot(a: string, b: string)
    requires '.' !in b
    decreases |b|
    ensures LastSegment(a + "." + b) == b
  {
    if b != [] {
      var s, b' := a + "." + b, b[..|b| - 1];
      var last := b[|b| - 1];
      assert s[..|s| - 1] == a + "." + b' && s[|s| - 1] == last;
      assert last in b;
      assert LastSegment(s) == LastSegment(a + "." + b') + [last];
      LastSegmentAfterDot(a, b');
      assert b == b' + [last];
    }
  }

  /** The text before the first `c` of `a + [c] + b`, when `a` has no `c`, is `a`. */
  lemma {:induction false} BeforeFirstSplit(a: string, c: char, b: string)
    requires c !in a
    decreases |a|
    ensures BeforeFirst(a + [c] + b, c) == a
  {
    if a != [] {
      assert (a + [c] + b)[1..] == a[1..] + [c] + b;
      assert a[0] in a;
      BeforeFirstSplit(a[1..], c, b);
      assert a == [a[0]] + a[1..];
    }
  }

  /** The text before the first `c` of a string without `c` is the whole string. */
  lemma BeforeFirstAbsent(s: string, c: char)
    requires c !in s
    ensures BeforeFirst(s, c) == s
  {
  }

  /** Joining one more part appends the separator and the part. */
  lemma {:induction false} JoinSnoc(parts: seq<string>, x: string, sep: string)
    requires parts != []
    decreases |parts|
    ensures Join(parts + [x], sep) == Join(parts, sep) + sep + x
  {
    if |parts| == 1 {
      assert (parts + [x])[1..] == [x];
    } else {
      assert (parts + [x])[1..] == parts[1..] + [x];
      JoinSnoc(parts[1..], x, sep);
    }
  }

  /** A join begins with its first part and ends with its last. */
  lemma {:induction false} JoinEnds(parts: seq<string>, sep: string)
    requires parts != []
    decreases |parts|
    ensures StartsWith(Join(parts, sep), parts[0])
    ensures EndsWith(Join(parts, sep), parts[|parts| - 1])
  {
    if |parts| > 1 {
      JoinEnds(parts[1..], sep);
      var rest := Join(parts[1..], sep);
      assert Join(parts, sep) == parts[0] + (sep + rest);
      assert (parts[0] + (sep + rest))[..|parts[0]|] == parts[0];
      assert (parts[0] + (sep + rest))[|parts[0] + (sep + rest)| - |rest|..] == rest;
      assert rest[|rest| - |parts[|parts| - 1]|..] == parts[1..][|parts[1..]| - 1];
    }
  }
}
