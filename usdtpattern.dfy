/**
 * The regular expression `/([A-Z]{3,10}USDT)/i` of `extractSymbol`, with the
 * backtracking semantics of section 22.2 of ECMA-262: every start index is
 * tried from the left, and at each one the greedy `{3,10}` first takes as
 * many letters as it can (at most ten) and then gives them back one at a
 * time until `USDT` follows.
 *
 * Without the `u` flag, the `i` flag canonicalises by upper-casing and never
 * maps a non-ASCII character to an ASCII one, so `[A-Z]` matches exactly the
 * ASCII letters of either case and `USDT` matches exactly the ASCII
 * spellings of these four letters in any case.
 */
module UsdtPattern {
  import opened Wrappers
  import opened JsString

  const MinLetters: nat := 3
  const MaxLetters: nat := 10

  /** The `k` characters from index `p` are all letters. */
  predicate LettersFrom(s: string, p: nat, k: nat)
  {
    p + k <= |s| && forall i :: p <= i < p + k ==> IsAsciiLetter(s[i])
  }

  /** `USDT`, in any case, follows the `k` characters from index `p`. */
  predicate UsdtAfter(s: string, p: nat, k: nat)
  {
    p + k + 4 <= |s| && Lower(s[p + k..p + k + 4]) == "usdt"
  }

  /** Reference definition: the pattern matches at index `p`, with `k` letters before `USDT`. */
  predicate MatchAt(s: string, p: nat, k: nat)
  {
    MinLetters <= k <= MaxLetters && LettersFrom(s, p, k) && UsdtAfter(s, p, k)
  }

  /** The greedy phase: how many letters `[A-Z]{…}` takes from `p`, at most `cap`. */
  function LetterRun(s: string, p: nat, cap: nat): (n: nat)
    ensures n <= cap
    ensures forall k: nat :: 0 < k <= cap ==> (LettersFrom(s, p, k) <==> k <= n)
    decreases cap
  {
    if cap == 0 || p >= |s| || !IsAsciiLetter(s[p]) then 0
    else
      assert forall k: nat :: 1 <= k <= cap ==>
          (LettersFrom(s, p, k) <==> LettersFrom(s, p + 1, k - 1));
      1 + LetterRun(s, p + 1, cap - 1)
  }

  /** The backtracking phase: give letters back, from `k` down to the minimum, until `USDT` follows. */
  function Backtrack(s: string, p: nat, k: nat): (r: Option<nat>)
    ensures r.Some? ==>
              MinLetters <= r.value <= k && UsdtAfter(s, p, r.value) &&
              forall j: nat :: r.value < j <= k ==> !UsdtAfter(s, p, j)
    ensures r.None? ==> forall j: nat :: MinLetters <= j <= k ==> !UsdtAfter(s, p, j)
    decreases k
  {
    if k < MinLetters then None
    else if UsdtAfter(s, p, k) then Some(k)
    else Backtrack(s, p, k - 1)
  }

  /** The match attempt at one start index: the letter count of the match, if any. */
  function AttemptAt(s: string, p: nat): (r: Option<nat>)
    ensures r.Some? ==> MatchAt(s, p, r.value) && forall k: nat :: r.value < k ==> !MatchAt(s, p, k)
    ensures r.None? ==> forall k: nat :: !MatchAt(s, p, k)
  {
    Backtrack(s, p, LetterRun(s, p, MaxLetters))
  }

  /** RegExpBuiltinExec from `lastIndex` = `p`: the first start index with a match, and its letter count. */
  function SearchFrom(s: string, p: nat): (r: Option<(nat, nat)>)
    ensures r.Some? ==>
              var (q, k) := r.value;
              p <= q && MatchAt(s, q, k) &&
              (forall q': nat, k': nat :: p <= q' < q ==> !MatchAt(s, q', k')) &&
              (forall k': nat :: k < k' ==> !MatchAt(s, q, k'))
    ensures r.None? ==> forall q': nat, k': nat :: p <= q' ==> !MatchAt(s, q', k')
    decreases |s| - p
  {
    if p > |s| then None
    else
      match AttemptAt(s, p)
      case Some(k) => Some((p, k))
      case None => SearchFrom(s, p + 1)
  }

  /** `s.match(/([A-Z]{3,10}USDT)/i)`: start index and letter count of the match. */
  function Exec(s: string): Option<(nat, nat)>
  {
    SearchFrom(s, 0)
  }

  /** Capture group 1 of the match, which is the whole match. */
  function Capture(s: string): (r: Option<string>)
  {
    match Exec(s)
    case None => None
    case Some((p, k)) => Some(s[p..p + k + 4])
  }

  /** The match found is exactly the leftmost match, and at its start the longest one. */
  lemma ExecIsLeftmostLongest(s: string, p: nat, k: nat)
    ensures Exec(s) == Some((p, k)) <==>
              MatchAt(s, p, k) &&
              (forall q: nat, k': nat :: q < p ==> !MatchAt(s, q, k')) &&
              (forall k': nat :: k < k' ==> !MatchAt(s, p, k'))
  {
    if MatchAt(s, p, k) && (forall q: nat, k': nat :: q < p ==> !MatchAt(s, q, k')) &&
       (forall k': nat :: k < k' ==> !MatchAt(s, p, k'))
    {
      match Exec(s)
      case None =>
        assert false;
      case Some((q, j)) =>
        if q < p {
          assert false;
        } else if p < q {
          assert false;
        } else if j < k {
          assert false;
        } else if k < j {
          assert false;
        }
    }
  }

  /** There is no match at all exactly when no start index and letter count fit the pattern. */
  lemma ExecNoneIff(s: string)
    ensures Exec(s).None? <==> forall p: nat, k: nat :: !MatchAt(s, p, k)
  {
  }

  /** Whether the pattern matches only depends on the lower-case form of the input. */
  lemma MatchAtCaseInsensitive(s: string, t: string, p: nat, k: nat)
    requires Lower(s) == Lower(t)
    ensures MatchAt(s, p, k) <==> MatchAt(t, p, k)
  {
    assert |s| == |Lower(s)| == |t|;
    if p + k + 4 <= |s| {
      LowerSlice(s, p + k, p + k + 4);
      LowerSlice(t, p + k, p + k + 4);
    }
    if p + k <= |s| {
      assert forall i :: p <= i < p + k ==> (IsAsciiLetter(s[i]) <==> IsAsciiLetter(t[i])) by {
        forall i | p <= i < p + k
          ensures IsAsciiLetter(s[i]) <==> IsAsciiLetter(t[i])
        {
          assert Lower(s)[i] == Lower(t)[i];
        }
      }
    }
  }

  lemma ExecCaseInsensitive(s: string, t: string)
    requires Lower(s) == Lower(t)
    ensures Exec(s) == Exec(t)
  {
    forall p: nat, k: nat ensures MatchAt(s, p, k) <==> MatchAt(t, p, k) {
      MatchAtCaseInsensitive(s, t, p, k);
    }
    match Exec(s)
    case None =>
      ExecNoneIff(s);
      ExecNoneIff(t);
    case Some((p, k)) =>
      ExecIsLeftmostLongest(s, p, k);
      ExecIsLeftmostLongest(t, p, k);
  }

  /** The captured text, upper-cased, only depends on the lower-case form of the input. */
  lemma CaptureCaseInsensitive(s: string, t: string)
    requires Lower(s) == Lower(t)
    ensures Capture(s).Some? <==> Capture(t).Some?
    ensures Capture(s).Some? ==> Upper(Capture(s).value) == Upper(Capture(t).value)
  {
    ExecCaseInsensitive(s, t);
    if Exec(s).Some? {
      var (p, k) := Exec(s).value;
      assert |s| == |t|;
      LowerSlice(s, p, p + k + 4);
      LowerSlice(t, p, p + k + 4);
      CaseRoundTrips(s[p..p + k + 4]);
      CaseRoundTrips(t[p..p + k + 4]);
    }
  }
}
