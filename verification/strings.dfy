/** Ordinal string operations the client relies on: prefix tests, searching,
    trimming, joining and splitting.  Strings are sequences of characters.
 */
module Strings {
  import opened Outcomes

  /** `string.IsNullOrEmpty`. */
  predicate IsNullOrEmpty(s: Option<string>) {
    s.None? || s.value == []
  }

  predicate StartsWith(s: string, prefix: string) {
    |prefix| <= |s| && s[..|prefix|] == prefix
  }

  /** `pat` occurs in `s` at position `i`. */
  predicate OccursAt(s: string, pat: string, i: nat) {
    i + |pat| <= |s| && s[i..i + |pat|] == pat
  }

  predicate Contains(s: string, pat: string) {
    exists i: nat | i <= |s| :: OccursAt(s, pat, i)
  }

  /** The first position at or after `from` where `pat` occurs; `None` where
      C#'s `IndexOf` returns -1. */
  function IndexOf(s: string, pat: string, from: nat): (r: Option<nat>)
    ensures r.Some? ==> from <= r.value && OccursAt(s, pat, r.value)
    ensures r.Some? ==> forall j: nat :: from <= j < r.value ==> !OccursAt(s, pat, j)
    ensures r.None? ==> forall j: nat :: from <= j ==> !OccursAt(s, pat, j)
    decreases |s| - from
  {
    if |s| < from + |pat| then None
    else if OccursAt(s, pat, from) then Some(from)
    else IndexOf(s, pat, from + 1)
  }

  lemma ContainsIffIndexOf(s: string, pat: string)
    ensures Contains(s, pat) <==> IndexOf(s, pat, 0).Some?
  {
    if IndexOf(s, pat, 0).Some? {
      assert OccursAt(s, pat, IndexOf(s, pat, 0).value);
    }
  }

  /** An occurrence starts with the pattern's first character. */
  lemma OccursAtHead(s: string, pat: string, i: nat)
    requires pat != []
    ensures OccursAt(s, pat, i) ==> i < |s| && s[i] == pat[0]
  {
    if OccursAt(s, pat, i) {
      assert s[i..i + |pat|][0] == s[i];
    }
  }

  /** The position `IndexOf` returns, pinned down by the occurrences around it. */
  lemma IndexOfIs(s: string, pat: string, from: nat, i: nat)
    requires from <= i && OccursAt(s, pat, i)
    requires forall j: nat :: from <= j < i ==> !OccursAt(s, pat, j)
    ensures IndexOf(s, pat, from) == Some(i)
  {
  }

  lemma IndexOfNone(s: string, pat: string, from: nat)
    requires forall j: nat :: from <= j ==> !OccursAt(s, pat, j)
    ensures IndexOf(s, pat, from) == None
  {
  }

  /** A pattern holding a character that `s` lacks does not occur in `s`. */
  lemma AbsentChar(s: string, pat: string, k: nat)
    requires k < |pat| && pat[k] !in s
    ensures forall j: nat :: !OccursAt(s, pat, j)
  {
    forall j: nat ensures !OccursAt(s, pat, j) {
      if j + |pat| <= |s| {
        assert s[j..j + |pat|][k] == s[j + k];
      }
    }
  }

  /** An occurrence of a pattern is an occurrence of each of its prefixes. */
  lemma OccursPrefix(s: string, p: string, q: string, j: nat)
    ensures OccursAt(s, p + q, j) ==> OccursAt(s, p, j)
  {
    if OccursAt(s, p + q, j) {
      assert s[j..j + |p|] == s[j..j + |p + q|][..|p|];
    }
  }

  /** An occurrence of `pat` inside the slice `s[lo..hi]` is an occurrence in `s`. */
  lemma OccursInSlice(s: string, pat: string, lo: nat, hi: nat, i: nat)
    requires lo <= hi <= |s|
    ensures OccursAt(s[lo..hi], pat, i) ==> OccursAt(s, pat, lo + i) && lo + i + |pat| <= hi
  {
    if OccursAt(s[lo..hi], pat, i) {
      OccursInSliceAt(s, pat, lo, hi, i);
    }
  }

  lemma OccursInSliceAt(s: string, pat: string, lo: nat, hi: nat, i: nat)
    requires lo <= hi <= |s|
    requires OccursAt(s[lo..hi], pat, i)
    ensures OccursAt(s, pat, lo + i) && lo + i + |pat| <= hi
  {
    var t := s[lo..hi];
    assert i + |pat| <= |t|;
    forall k | 0 <= k < |pat|
      ensures s[lo + i + k] == pat[k]
    {
      assert t[i..i + |pat|][k] == pat[k];
    }
    assert s[lo + i..lo + i + |pat|] == pat;
  }

  /** The characters `char.IsWhiteSpace` accepts: the separators of categories
      Zs, Zl and Zp and the controls U+0009 to U+000D and U+0085. */
  predicate IsWhiteSpace(c: char) {
    || c == ' ' || ('\t' <= c <= '\r') || c == '\U{0085}' || c == '\U{00A0}'
    || c == '\U{1680}' || ('\U{2000}' <= c <= '\U{200A}') || c == '\U{2028}'
    || c == '\U{2029}' || c == '\U{202F}' || c == '\U{205F}' || c == '\U{3000}'
  }

  /** Within ASCII the blanks are the space and the controls from tab to
      carriage return; the zero-width space and the byte-order mark are not
      blanks, as for `char.IsWhiteSpace`. */
  lemma WhiteSpaceAscii()
    ensures forall c: char :: c < '\U{0080}' ==> (IsWhiteSpace(c) <==> c == ' ' || '\t' <= c <= '\r')
    ensures IsWhiteSpace('\U{00A0}') && IsWhiteSpace('\U{3000}')
    ensures !IsWhiteSpace('\U{200B}') && !IsWhiteSpace('\U{FEFF}')
  {
  }

  function TrimStart(s: string): (r: string)
    ensures |r| <= |s| && r == s[|s| - |r|..]
    ensures forall i :: 0 <= i < |s| - |r| ==> IsWhiteSpace(s[i])
    ensures r == [] || !IsWhiteSpace(r[0])
  {
    if s != [] && IsWhiteSpace(s[0]) then TrimStart(s[1..]) else s
  }

  function TrimEnd(s: string): (r: string)
    ensures |r| <= |s| && r == s[..|r|]
    ensures forall i :: |r| <= i < |s| ==> IsWhiteSpace(s[i])
    ensures r == [] || !IsWhiteSpace(r[|r| - 1])
  {
    if s != [] && IsWhiteSpace(s[|s| - 1]) then TrimEnd(s[..|s| - 1]) else s
  }

  /** `string.Trim()`: `s` without its leading and trailing white space. */
  function Trim(s: string): (r: string)
    ensures exists lo, hi :: 0 <= lo <= hi <= |s| && r == s[lo..hi]
                             && (forall i :: 0 <= i < lo ==> IsWhiteSpace(s[i]))
                             && (forall i :: hi <= i < |s| ==> IsWhiteSpace(s[i]))
    ensures r == [] || (!IsWhiteSpace(r[0]) && !IsWhiteSpace(r[|r| - 1]))
  {
    var t := TrimStart(s);
    var r := TrimEnd(t);
    var lo := |s| - |t|;
    assert r == s[lo..lo + |r|];
    r
  }

  /** Leading blanks are all `Trim` removes from a string whose ends are not
      white space. */
  lemma TrimAfterBlanks(pad: string, s: string)
    requires forall i :: 0 <= i < |pad| ==> pad[i] == ' '
    requires s != [] && !IsWhiteSpace(s[0]) && !IsWhiteSpace(s[|s| - 1])
    ensures Trim(pad + s) == s
  {
    var t := pad + s;
    assert t[|pad|] == s[0];
    assert t[|pad|..] == s;
    assert TrimStart(t) == s;
    assert TrimEnd(s) == s;
  }

  /** `string.Join("", parts)`. */
  function Concat(parts: seq<string>): (r: string)
    ensures |r| == SumLengths(parts)
  {
    if parts == [] then [] else parts[0] + Concat(parts[1..])
  }

  function SumLengths(parts: seq<string>): nat {
    if parts == [] then 0 else |parts[0]| + SumLengths(parts[1..])
  }

  lemma {:induction false} ConcatAppend(a: seq<string>, b: seq<string>)
    ensures Concat(a + b) == Concat(a) + Concat(b)
  {
    if a == [] {
      assert a + b == b;
    } else {
      assert (a + b)[1..] == a[1..] + b;
      ConcatAppend(a[1..], b);
    }
  }

  /** `string.Join(sep, parts)` for a one-character separator. */
  function JoinWith(sep: char, parts: seq<string>): string {
    if parts == [] then []
    else if |parts| == 1 then parts[0]
    else parts[0] + [sep] + JoinWith(sep, parts[1..])
  }

  /** `s.Split(sep)`: the pieces between the separators, empty ones kept. */
  function SplitOn(sep: char, s: string): (r: seq<string>)
    ensures |r| >= 1
    ensures forall k :: 0 <= k < |r| ==> sep !in r[k]
  {
    if sep !in s then [s]
    else
      var i := FirstIndex(sep, s);
      [s[..i]] + SplitOn(sep, s[i + 1..])
  }

  /** `s.Split(sep)[0]`: the text before the first separator, or all of `s`. */
  lemma SplitHead(sep: char, s: string)
    ensures SplitOn(sep, s)[0] == (if sep in s then s[..FirstIndex(sep, s)] else s)
  {
  }

  function FirstIndex(c: char, s: string): (i: nat)
    requires c in s
    ensures i < |s| && s[i] == c && c !in s[..i]
  {
    if s[0] == c then 0 else 1 + FirstIndex(c, s[1..])
  }

  /** Joining pieces that do not hold the separator and splitting the result
      again gives the pieces back. */
  lemma {:induction false} SplitJoin(sep: char, parts: seq<string>)
    requires |parts| >= 1
    requires forall k :: 0 <= k < |parts| ==> sep !in parts[k]
    ensures SplitOn(sep, JoinWith(sep, parts)) == parts
  {
    if |parts| == 1 {
    } else {
      var rest := JoinWith(sep, parts[1..]);
      var s := parts[0] + [sep] + rest;
      assert s[|parts[0]|] == sep;
      assert s[..|parts[0]|] == parts[0];
      assert FirstIndex(sep, s) == |parts[0]| by {
        FirstIndexOfPrefix(sep, parts[0], [sep] + rest);
      }
      assert s[|parts[0]| + 1..] == rest;
      SplitJoin(sep, parts[1..]);
    }
  }

  lemma {:induction false} FirstIndexOfPrefix(c: char, a: string, b: string)
    requires c !in a && b != [] && b[0] == c
    ensures c in a + b && FirstIndex(c, a + b) == |a|
  {
    assert (a + b)[|a|] == c;
    if a != [] {
      assert (a + b)[1..] == a[1..] + b;
      FirstIndexOfPrefix(c, a[1..], b);
    }
  }

  /** ASCII lower-casing, the part of `string.ToLower()` the lookups depend on. */
  function AsciiLower(s: string): (r: string)
    ensures |r| == |s|
    ensures forall i :: 0 <= i < |s| ==> r[i] == LowerChar(s[i])
  {
    if s == [] then [] else [LowerChar(s[0])] + AsciiLower(s[1..])
  }

  function LowerChar(c: char): char {
    if 'A' <= c <= 'Z' then (c as int - 'A' as int + 'a' as int) as char else c
  }

  /** A string lower-cases to a word of lower-case ASCII letters only when
      every character of it is an ASCII letter: a lookup of such a word never
      depends on how characters outside ASCII are cased. */
  lemma LowerWordAscii(s: string, w: string)
    requires forall i :: 0 <= i < |w| ==> 'a' <= w[i] <= 'z'
    requires AsciiLower(s) == w
    ensures forall i :: 0 <= i < |s| ==> 'a' <= s[i] <= 'z' || 'A' <= s[i] <= 'Z'
  {
    forall i | 0 <= i < |s|
      ensures 'a' <= s[i] <= 'z' || 'A' <= s[i] <= 'Z'
    {
      assert LowerChar(s[i]) == w[i];
    }
  }
}
