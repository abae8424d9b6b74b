/**
 * The few JavaScript string built-ins the chatbot relies on, with case
 * mapping restricted to ASCII: `toLowerCase` (section 22.1.3.28 of
 * ECMA-262), `toUpperCase` (22.1.3.30), `indexOf` (22.1.3.9), `includes`
 * (22.1.3.8) and `replace` with a string pattern (22.1.3.19).
 */
module JsString {
  import opened Wrappers

  predicate IsUpperAscii(c: char) { 'A' <= c <= 'Z' }

  predicate IsLowerAscii(c: char) { 'a' <= c <= 'z' }

  predicate IsAsciiLetter(c: char) { IsUpperAscii(c) || IsLowerAscii(c) }

  function ToLowerChar(c: char): char
  {
    if IsUpperAscii(c) then (c as int + 32) as char else c
  }

  function ToUpperChar(c: char): char
  {
    if IsLowerAscii(c) then (c as int - 32) as char else c
  }

  /** `s.toLowerCase()` on ASCII letters; every other character is kept. */
  function Lower(s: string): string
  {
    seq(|s|, i requires 0 <= i < |s| => ToLowerChar(s[i]))
  }

  /** `s.toUpperCase()` on ASCII letters; every other character is kept. */
  function Upper(s: string): string
  {
    seq(|s|, i requires 0 <= i < |s| => ToUpperChar(s[i]))
  }

  predicate AllUpperLetters(s: string)
  {
    forall i :: 0 <= i < |s| ==> IsUpperAscii(s[i])
  }

  /** `pat` occurs in `s` starting at index `i`. */
  predicate OccursAt(s: string, pat: string, i: nat)
  {
    i + |pat| <= |s| && s[i..i + |pat|] == pat
  }

  /** The characters of `pat` from index `k` on appear in `s` from index `i + k` on:
      the character-by-character comparison of StringIndexOf. */
  predicate MatchesFrom(s: string, pat: string, i: nat, k: nat)
    requires i + |pat| <= |s| && k <= |pat|
    decreases |pat| - k
  {
    k == |pat| || (s[i + k] == pat[k] && MatchesFrom(s, pat, i, k + 1))
  }

  lemma {:induction false} MatchesFromSlice(s: string, pat: string, i: nat, k: nat)
    requires i + |pat| <= |s| && k <= |pat|
    ensures MatchesFrom(s, pat, i, k) <==> s[i + k..i + |pat|] == pat[k..]
    decreases |pat| - k
  {
    if k < |pat| {
      MatchesFromSlice(s, pat, i, k + 1);
      assert s[i + k..i + |pat|] == [s[i + k]] + s[i + k + 1..i + |pat|];
      assert pat[k..] == [pat[k]] + pat[k + 1..];
    }
  }

  /** StringIndexOf(s, pat, from): the first index at or after `from` where `pat` occurs. */
  function IndexOfFrom(s: string, pat: string, from: nat): (r: Option<nat>)
    ensures r.Some? ==> from <= r.value && r.value + |pat| <= |s|
    decreases |s| - from
  {
    if from + |pat| > |s| then None
    else if MatchesFrom(s, pat, from, 0) then Some(from)
    else IndexOfFrom(s, pat, from + 1)
  }

  /** The index found is the first occurrence at or after `from`; none is found only when there is none. */
  lemma {:induction false} IndexOfFromFirst(s: string, pat: string, from: nat)
    ensures IndexOfFrom(s, pat, from).Some? ==>
              var i := IndexOfFrom(s, pat, from).value;
              from <= i && OccursAt(s, pat, i) &&
              forall j: nat :: from <= j < i ==> !OccursAt(s, pat, j)
    ensures IndexOfFrom(s, pat, from).None? ==> forall j: nat :: from <= j ==> !OccursAt(s, pat, j)
    decreases |s| - from
  {
    if from + |pat| <= |s| {
      MatchesFromSlice(s, pat, from, 0);
      if !MatchesFrom(s, pat, from, 0) {
        IndexOfFromFirst(s, pat, from + 1);
      }
    }
  }

  /** `s.indexOf(pat)`, with -1 as None. */
  function IndexOf(s: string, pat: string): Option<nat>
  {
    IndexOfFrom(s, pat, 0)
  }

  /** `s.includes(pat)`. */
  predicate Includes(s: string, pat: string)
  {
    IndexOf(s, pat).Some?
  }

  /** `s.replace(pat, rep)` with a string pattern and a replacement without `$`:
      only the first occurrence is replaced. */
  function ReplaceFirst(s: string, pat: string, rep: string): string
  {
    match IndexOf(s, pat)
    case None => s
    case Some(i) => s[..i] + rep + s[i + |pat|..]
  }

  lemma IncludesIff(s: string, pat: string)
    ensures Includes(s, pat) <==> exists i: nat :: OccursAt(s, pat, i)
  {
    IndexOfFromFirst(s, pat, 0);
    if Includes(s, pat) {
      assert OccursAt(s, pat, IndexOf(s, pat).value);
    }
  }

  /** Whatever occurs in a piece of `t` occurs in `t`. */
  lemma IncludesInSlice(t: string, p: nat, q: nat, pat: string)
    requires p <= q <= |t|
    requires Includes(t[p..q], pat)
    ensures Includes(t, pat)
  {
    var u := t[p..q];
    IndexOfFromFirst(u, pat, 0);
    var i := IndexOf(u, pat).value;
    assert u[i..i + |pat|] == pat;
    forall k | 0 <= k < |pat|
      ensures t[p + i..p + i + |pat|][k] == pat[k]
    {
      assert u[i..i + |pat|][k] == u[i + k] == t[p + i + k];
    }
    assert OccursAt(t, pat, p + i);
    IncludesIff(t, pat);
  }

  /** A pattern holding a character that `s` lacks does not occur in `s`. */
  lemma MissingChar(s: string, pat: string, c: char)
    requires c in pat && c !in s
    ensures !Includes(s, pat)
  {
    IndexOfFromFirst(s, pat, 0);
  }

  lemma LowerSlice(s: string, p: nat, q: nat)
    requires p <= q <= |s|
    ensures Lower(s)[p..q] == Lower(s[p..q])
  {
  }

  /** Upper-casing first does not change the lower-case form, and vice versa. */
  lemma CaseRoundTrips(s: string)
    ensures Lower(Upper(s)) == Lower(s)
    ensures Upper(Lower(s)) == Upper(s)
  {
  }

  lemma UpperOfUpper(s: string)
    requires AllUpperLetters(s)
    ensures Upper(s) == s
  {
  }
}
