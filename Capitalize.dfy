/** `capitalize` of src/utils/capitalize.ts: upper-case the first character, keep the rest. */
module Capitalize {

  /** `toUpperCase` on one character, restricted to the ASCII letters. */
  function UpperAscii(c: char): char {
    if 'a' <= c <= 'z' then (c as int - 32) as char else c
  }

  predicate IsAscii(s: string) {
    forall i :: 0 <= i < |s| ==> s[i] as int < 128
  }

  /** `s.charAt(0).toUpperCase() + s.slice(1)` */
  function Capitalize(s: string): string {
    if s == [] then [] else [UpperAscii(s[0])] + s[1..]
  }

  /** The first character is upper-cased, every later one is kept, and the length is preserved. */
  lemma CapitalizeShape(s: string)
    ensures |Capitalize(s)| == |s|
    ensures s != [] ==> Capitalize(s)[0] == UpperAscii(s[0]) && !('a' <= Capitalize(s)[0] <= 'z')
    ensures forall i :: 1 <= i < |s| ==> Capitalize(s)[i] == s[i]
    ensures s == [] ==> Capitalize(s) == []
  {
  }

  /** A lower-case ASCII letter becomes its upper-case partner; every other first character is kept. */
  lemma UpperAsciiLetters(c: char)
    ensures 'a' <= c <= 'z' ==> UpperAscii(c) as int == c as int - ('a' as int - 'A' as int)
    ensures !('a' <= c <= 'z') ==> UpperAscii(c) == c
    ensures c as int < 128 ==> UpperAscii(c) as int < 128
  {
  }

  /** Capitalizing twice is capitalizing once, and ASCII stays ASCII. */
  lemma CapitalizeIdempotent(s: string)
    ensures Capitalize(Capitalize(s)) == Capitalize(s)
    ensures IsAscii(s) ==> IsAscii(Capitalize(s))
  {
    if s != [] {
      UpperAsciiLetters(s[0]);
    }
  }

  /** The repository's own example. */
  lemma CapitalizeExample()
    ensures Capitalize("hello, World!") == "Hello, World!"
  {
  }
}
