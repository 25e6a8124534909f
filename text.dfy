/**
 * The string primitives the front ends use: lower-casing (`g_utf8_strdown`,
 * restricted here to the ASCII letters), substring search (`strstr`) and
 * suffix test (`g_str_has_suffix`).
 */
module Text {
  function LowerChar(c: char): (r: char)
    ensures 'A' <= c <= 'Z' ==> r as int == c as int + 32
    ensures !('A' <= c <= 'Z') ==> r == c
    ensures !('A' <= r <= 'Z')
  {
    if 'A' <= c <= 'Z' then (c as int + 32) as char else c
  }

  function UpperChar(c: char): (r: char)
    ensures 'a' <= c <= 'z' ==> r as int == c as int - 32
    ensures !('a' <= c <= 'z') ==> r == c
  {
    if 'a' <= c <= 'z' then (c as int - 32) as char else c
  }

  /** `g_utf8_strdown` on the ASCII range: every upper-case letter is replaced by its lower-case form. */
  function Lower(s: string): (r: string)
    ensures |r| == |s|
    ensures forall i :: 0 <= i < |s| ==> r[i] == LowerChar(s[i])
  {
    if s == [] then [] else [LowerChar(s[0])] + Lower(s[1..])
  }

  function Upper(s: string): (r: string)
    ensures |r| == |s|
    ensures forall i :: 0 <= i < |s| ==> r[i] == UpperChar(s[i])
  {
    if s == [] then [] else [UpperChar(s[0])] + Upper(s[1..])
  }

  /** Lower-casing is idempotent. */
  lemma LowerIdempotent(s: string)
    ensures Lower(Lower(s)) == Lower(s)
  {
  }

  /** A string and its upper-cased form lower-case to the same string. */
  lemma LowerOfUpper(s: string)
    ensures Lower(Upper(s)) == Lower(s)
  {
    assert forall i :: 0 <= i < |s| ==> LowerChar(UpperChar(s[i])) == LowerChar(s[i]);
  }

  /** `strstr(s, q) != NULL`: `q` occurs in `s` at its start or somewhere further along. */
  predicate IsSubstring(q: string, s: string)
    decreases |s|
  {
    q <= s || (|s| > 0 && IsSubstring(q, s[1..]))
  }

  /** `q` occurs in `s` starting at index `i`. */
  predicate OccursAt(q: string, s: string, i: nat)
  {
    i + |q| <= |s| && s[i..i + |q|] == q
  }

  /** An occurrence at any position is found by the search. */
  lemma {:induction false} OccurrenceFound(q: string, s: string, i: nat)
    requires OccursAt(q, s, i)
    ensures IsSubstring(q, s)
    decreases i
  {
    if i > 0 {
      assert s[1..][i - 1..i - 1 + |q|] == s[i..i + |q|];
      OccurrenceFound(q, s[1..], i - 1);
    }
  }

  /** What the search finds occurs at some position. */
  lemma {:induction false} FoundOccurs(q: string, s: string) returns (i: nat)
    requires IsSubstring(q, s)
    ensures OccursAt(q, s, i)
    decreases |s|
  {
    if q <= s {
      i := 0;
    } else {
      var j := FoundOccurs(q, s[1..]);
      assert s[j + 1..j + 1 + |q|] == s[1..][j..j + |q|];
      i := j + 1;
    }
  }

  /** The search agrees with the definition by position: `q` occurs somewhere in `s`. */
  lemma IsSubstringAt(q: string, s: string)
    ensures IsSubstring(q, s) <==> exists i: nat :: OccursAt(q, s, i)
  {
    if IsSubstring(q, s) {
      var i := FoundOccurs(q, s);
    } else if i: nat :| OccursAt(q, s, i) {
      OccurrenceFound(q, s, i);
    }
  }

  /** `g_str_has_suffix`. */
  predicate HasSuffix(s: string, suffix: string)
  {
    |suffix| <= |s| && s[|s| - |suffix|..] == suffix
  }
}
