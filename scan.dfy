/** A left-to-right search for a literal key followed by one or more characters of a class,
    capturing the whole run: what Python's `re.search(key + "([...]+)", s).group(1)` computes. */
module Scan {
  import opened Wrappers

  /** `\d`, restricted to the ASCII digits. */
  predicate IsDigit(c: char) {
    '0' <= c <= '9'
  }

  /** The pattern matches at position `p`: `key` there, then at least one character of the class. */
  predicate MatchesAt(s: string, key: string, cls: char -> bool, p: nat) {
    p + |key| < |s| && key <= s[p..] && cls(s[p + |key|])
  }

  /** `p` is where `re.search` reports the match: the first position at which it matches. */
  predicate LeftmostAt(s: string, key: string, cls: char -> bool, p: nat) {
    MatchesAt(s, key, cls, p) && forall q: nat :: q < p ==> !MatchesAt(s, key, cls, q)
  }

  /** `t` is the greedy capture after `key` at `p`: the run of class characters cannot be extended. */
  predicate CapturedAt(s: string, key: string, cls: char -> bool, p: nat, t: string) {
    p <= |s| && key + t <= s[p..] && (p + |key| + |t| == |s| || !cls(s[p + |key| + |t|]))
  }

  /** Length of the run of class characters that starts at `i`. */
  function RunLength(s: string, cls: char -> bool, i: nat): (n: nat)
    requires i <= |s|
    ensures i + n <= |s|
    ensures forall k :: i <= k < i + n ==> cls(s[k])
    ensures i + n == |s| || !cls(s[i + n])
    decreases |s| - i
  {
    if i < |s| && cls(s[i]) then 1 + RunLength(s, cls, i + 1) else 0
  }

  /** The first position at or after `i` where the pattern matches. */
  function FindFrom(s: string, key: string, cls: char -> bool, i: nat): (r: Option<nat>)
    ensures r.Some? ==> i <= r.value && MatchesAt(s, key, cls, r.value)
    ensures r.Some? ==> forall q: nat :: i <= q < r.value ==> !MatchesAt(s, key, cls, q)
    ensures r.None? ==> forall q: nat :: i <= q ==> !MatchesAt(s, key, cls, q)
    decreases |s| - i
  {
    if i + |key| >= |s| then None
    else if MatchesAt(s, key, cls, i) then Some(i)
    else FindFrom(s, key, cls, i + 1)
  }

  /** The captured run of the leftmost match, or `None` when the pattern matches nowhere. */
  function Search(s: string, key: string, cls: char -> bool): (r: Option<string>)
    ensures r.None? <==> forall q: nat :: !MatchesAt(s, key, cls, q)
    ensures r.Some? ==> |r.value| > 0 && forall k :: 0 <= k < |r.value| ==> cls(r.value[k])
    ensures r.Some? ==> exists p: nat :: LeftmostAt(s, key, cls, p) && CapturedAt(s, key, cls, p, r.value)
  {
    match FindFrom(s, key, cls, 0)
    case None => None
    case Some(p) =>
      var start := p + |key|;
      var n := RunLength(s, cls, start);
      var t := s[start..start + n];
      assert key + t <= s[p..] by {
        assert s[p..][..|key|] == key;
        assert forall k :: 0 <= k < |key| + n ==> (key + t)[k] == s[p..][k];
      }
      assert LeftmostAt(s, key, cls, p);
      Some(t)
  }

  /** A capture that runs to the end of the text is the whole remainder after the key. */
  lemma CapturedToEnd(s: string, key: string, cls: char -> bool, p: nat, t: string, u: string)
    requires p <= |s| && s[p..] == key + u
    requires forall k :: 0 <= k < |u| ==> cls(u[k])
    requires CapturedAt(s, key, cls, p, t)
    ensures t == u
  {
    assert |t| <= |u|;
    forall i | 0 <= i < |t| ensures t[i] == u[i] {
      assert (key + t)[|key| + i] == s[p..][|key| + i];
    }
  }
}
