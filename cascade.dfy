/** The player-page pattern cascade: an ordered list of regular expressions, each tried against the
    page text in turn, the first one that matches winning. The regular-expression engine is not
    modelled; each pattern is an opaque matcher giving its first capture group, if any. */
module Cascade {
  import opened Wrappers

  /** `re.search(pattern, text, ...)`, reduced to the text of `group(1)` when it matches. */
  type Matcher = string -> Option<string>

  /** The capture of the first matcher that matches, trying them in order. */
  function FirstHit(ms: seq<Matcher>, text: string): Option<string> {
    if ms == [] then None
    else if ms[0](text).Some? then ms[0](text)
    else FirstHit(ms[1..], text)
  }

  /** `FirstHit` is nothing only when no matcher matches; otherwise it is the capture of a matcher
      every one of whose predecessors failed. */
  lemma {:induction false} FirstHitSpec(ms: seq<Matcher>, text: string)
    ensures FirstHit(ms, text).None? <==> forall k :: 0 <= k < |ms| ==> ms[k](text).None?
    ensures FirstHit(ms, text).Some? ==>
      exists k :: 0 <= k < |ms| && ms[k](text) == FirstHit(ms, text)
        && forall j :: 0 <= j < k ==> ms[j](text).None?
  {
    if ms != [] && ms[0](text).None? {
      FirstHitSpec(ms[1..], text);
      if FirstHit(ms, text).Some? {
        var k :| 0 <= k < |ms[1..]| && ms[1..][k](text) == FirstHit(ms[1..], text)
          && forall j :: 0 <= j < k ==> ms[1..][j](text).None?;
        assert ms[k + 1](text) == FirstHit(ms, text);
        assert forall j :: 0 <= j < k + 1 ==> ms[j](text).None? by {
          forall j | 0 <= j < k + 1 ensures ms[j](text).None? {
            if j > 0 {
              assert ms[j] == ms[1..][j - 1];
            }
          }
        }
      }
    }
  }

  /** Whichever matcher matches first determines the result. */
  lemma {:induction false} FirstHitIsFirst(ms: seq<Matcher>, text: string, k: nat)
    requires k < |ms| && ms[k](text).Some?
    requires forall j :: 0 <= j < k ==> ms[j](text).None?
    ensures FirstHit(ms, text) == ms[k](text)
  {
    if k > 0 {
      assert ms[0](text).None?;
      assert forall j :: 0 <= j < k - 1 ==> ms[1..][j](text).None? by {
        forall j | 0 <= j < k - 1 ensures ms[1..][j](text).None? {
          assert ms[1..][j] == ms[j + 1];
        }
      }
      FirstHitIsFirst(ms[1..], text, k - 1);
    }
  }

  /** The loop `for pattern in patterns: ... if match: return ...`: stops at the first match. */
  method FirstMatch(ms: seq<Matcher>, text: string) returns (r: Option<string>)
    ensures r == FirstHit(ms, text)
  {
    var i := 0;
    while i < |ms|
      invariant 0 <= i <= |ms|
      invariant FirstHit(ms, text) == FirstHit(ms[i..], text)
    {
      var m := ms[i](text);
      if m.Some? {
        return m;
      }
      assert ms[i..][1..] == ms[i + 1..];
      i := i + 1;
    }
    return None;
  }
}
