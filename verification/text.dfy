/** Substring search and the ASCII case mapping used by the pipeline's text
    matching. Strings are `seq<char>`; no Unicode case folding is modelled. */
module Text {
  import opened Wrappers

  /** `pat` occurs in `s` starting at index `k`. */
  predicate MatchAt(s: string, pat: string, k: nat)
  {
    k + |pat| <= |s| && s[k..k + |pat|] == pat
  }

  /** `pat` is a substring of `s` (Python's `pat in s`). */
  predicate Occurs(s: string, pat: string)
  {
    exists k :: 0 <= k <= |s| && MatchAt(s, pat, k)
  }

  /** The leftmost occurrence of `pat` in `s` at or after index `from`
      (Python's `s.find(pat, from)`, with `None` for -1). */
  function FindFrom(s: string, pat: string, from: nat): (r: Option<nat>)
    ensures r.Some? ==> from <= r.value && MatchAt(s, pat, r.value)
    ensures forall k: nat :: from <= k && MatchAt(s, pat, k) ==> r.Some? && r.value <= k
    decreases |s| - from
  {
    if from + |pat| > |s| then None
    else if s[from..from + |pat|] == pat then Some(from)
    else FindFrom(s, pat, from + 1)
  }

  function LowerChar(c: char): char
  {
    if 'A' <= c <= 'Z' then (c as int + 32) as char else c
  }

  function UpperChar(c: char): char
  {
    if 'a' <= c <= 'z' then (c as int - 32) as char else c
  }

  function Lower(s: string): (r: string)
    ensures |r| == |s|
    ensures forall i :: 0 <= i < |s| ==> r[i] == LowerChar(s[i])
  {
    seq(|s|, i requires 0 <= i < |s| => LowerChar(s[i]))
  }

  /** Python's `str.capitalize` restricted to ASCII: first character upper-case,
      the rest lower-case. */
  function Capitalize(s: string): (r: string)
    ensures |r| == |s|
    ensures |s| > 0 ==> r[0] == UpperChar(s[0]) && r[1..] == Lower(s[1..])
  {
    if |s| == 0 then "" else [UpperChar(s[0])] + Lower(s[1..])
  }

  /** SQL `column LIKE '%' || needle || '%'` as SQLite evaluates it by default:
      substring match, case-insensitive for ASCII letters. */
  predicate ContainsIgnoreCase(hay: string, needle: string)
  {
    Occurs(Lower(hay), Lower(needle))
  }
}
