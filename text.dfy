/** The handful of Python `str` operations the scripts rely on, as exact functions on `seq<char>`. */
module Text {

  /** `"\n".join(lines)`. */
  function Join(lines: seq<string>): string {
    if |lines| == 0 then ""
    else if |lines| == 1 then lines[0]
    else lines[0] + "\n" + Join(lines[1..])
  }

  /** `s.split("\n")`: always at least one piece. */
  function Split(s: string): (lines: seq<string>)
    ensures |lines| >= 1
  {
    if s == [] then [""]
    else
      var rest := Split(s[1..]);
      if s[0] == '\n' then [""] + rest else [[s[0]] + rest[0]] + rest[1..]
  }

  lemma {:induction false} SplitSingleLine(s: string)
    requires '\n' !in s
    ensures Split(s) == [s]
  {
    if s != [] {
      SplitSingleLine(s[1..]);
      assert [s[0]] + s[1..] == s;
    }
  }

  lemma {:induction false} SplitAfterLine(x: string, rest: string)
    requires '\n' !in x
    ensures Split(x + "\n" + rest) == [x] + Split(rest)
  {
    if x == [] {
      assert x + "\n" + rest == "\n" + rest;
      assert ("\n" + rest)[1..] == rest;
    } else {
      SplitAfterLine(x[1..], rest);
      assert (x + "\n" + rest)[1..] == x[1..] + "\n" + rest;
      assert [x[0]] + x[1..] == x;
    }
  }

  /** Splitting the joined text gives the lines back, as long as no line holds a newline. */
  lemma {:induction false} SplitJoin(lines: seq<string>)
    requires |lines| >= 1
    requires forall i :: 0 <= i < |lines| ==> '\n' !in lines[i]
    ensures Split(Join(lines)) == lines
  {
    if |lines| == 1 {
      SplitSingleLine(lines[0]);
    } else {
      SplitJoin(lines[1..]);
      SplitAfterLine(lines[0], Join(lines[1..]));
    }
  }

  /** Joining the pieces of a split gives the text back, whatever it holds. */
  lemma {:induction false} JoinSplit(s: string)
    ensures Join(Split(s)) == s
  {
    if s != [] {
      JoinSplit(s[1..]);
      var rest := Split(s[1..]);
      if |rest| >= 2 {
        assert Join(rest) == rest[0] + "\n" + Join(rest[1..]);
      }
      if s[0] != '\n' {
        assert [s[0]] + s[1..] == s;
      }
    }
  }

  /** The joined text starts with the first line. */
  lemma {:induction false} JoinStartsWithFirst(lines: seq<string>)
    requires |lines| >= 1
    ensures lines[0] <= Join(lines)
  {
  }

  /** Joining two or more lines whose last one is empty leaves a trailing newline. */
  lemma {:induction false} JoinEndsWithNewline(lines: seq<string>)
    requires |lines| >= 2 && lines[|lines| - 1] == ""
    ensures |Join(lines)| > 0 && Join(lines)[|Join(lines)| - 1] == '\n'
  {
    if |lines| > 2 {
      JoinEndsWithNewline(lines[1..]);
    } else {
      assert Join(lines[1..]) == "";
    }
  }

  /** The characters Python's `str.strip()` removes: `str.isspace()` is true exactly for these. */
  predicate IsSpace(c: char) {
    ('\t' <= c <= '\r') || ('\U{1C}' <= c <= ' ') || c == '\U{85}' || c == '\U{A0}'
    || c == '\U{1680}' || ('\U{2000}' <= c <= '\U{200A}') || c == '\U{2028}' || c == '\U{2029}'
    || c == '\U{202F}' || c == '\U{205F}' || c == '\U{3000}'
  }

  /** `s.lstrip()`: drops the leading whitespace and nothing else. */
  function TrimStart(s: string): (r: string)
    ensures |r| <= |s| && r == s[|s| - |r|..]
    ensures r == [] || !IsSpace(r[0])
  {
    if s != [] && IsSpace(s[0]) then TrimStart(s[1..]) else s
  }

  /** What `lstrip()` drops is whitespace. */
  lemma {:induction false} TrimStartDropsSpace(s: string)
    ensures forall i :: 0 <= i < |s| - |TrimStart(s)| ==> IsSpace(s[i])
  {
    if s != [] && IsSpace(s[0]) {
      TrimStartDropsSpace(s[1..]);
      forall i | 1 <= i < |s| - |TrimStart(s)| ensures IsSpace(s[i]) {
        assert s[i] == s[1..][i - 1];
      }
    }
  }

  /** `s.rstrip()`: drops the trailing whitespace and nothing else. */
  function TrimEnd(s: string): (r: string)
    ensures |r| <= |s| && r == s[..|r|]
    ensures r == [] || !IsSpace(r[|r| - 1])
  {
    if s != [] && IsSpace(s[|s| - 1]) then TrimEnd(s[..|s| - 1]) else s
  }

  /** What `rstrip()` drops is whitespace. */
  lemma {:induction false} TrimEndDropsSpace(s: string)
    ensures forall i :: |TrimEnd(s)| <= i < |s| ==> IsSpace(s[i])
  {
    if s != [] && IsSpace(s[|s| - 1]) {
      TrimEndDropsSpace(s[..|s| - 1]);
    }
  }

  /** `s.strip()`. */
  function Strip(s: string): string {
    TrimEnd(TrimStart(s))
  }

  /** `strip()` keeps the part of `s` between its leading and its trailing whitespace: what it drops
      is whitespace, and what it keeps neither starts nor ends with whitespace. */
  lemma StripSpec(s: string)
    ensures |Strip(s)| <= |TrimStart(s)| <= |s|
    ensures var r := Strip(s); r == [] || (!IsSpace(r[0]) && !IsSpace(r[|r| - 1]))
    ensures var r, lo := Strip(s), |s| - |TrimStart(s)|;
      r == s[lo..lo + |r|]
      && (forall i :: 0 <= i < lo ==> IsSpace(s[i]))
      && (forall i :: lo + |r| <= i < |s| ==> IsSpace(s[i]))
  {
    var t := TrimStart(s);
    var r := TrimEnd(t);
    StripEnds(s);
    TrimStartDropsSpace(s);
    TrimEndDropsSpace(t);
    MiddleOfSuffix(s, t, r, |s| - |t|);
  }

  lemma StripEnds(s: string)
    ensures var r := Strip(s); r == [] || (!IsSpace(r[0]) && !IsSpace(r[|r| - 1]))
  {
    var t := TrimStart(s);
    var r := TrimEnd(t);
    if r != [] {
      assert r[0] == t[0];
    }
  }

  /** A prefix `r` of a suffix `t` of `s`, where `t` past `r` is whitespace, sits in the middle of `s`. */
  lemma MiddleOfSuffix(s: string, t: string, r: string, lo: nat)
    requires lo <= |s| && t == s[lo..]
    requires |r| <= |t| && r == t[..|r|]
    requires forall i :: |r| <= i < |t| ==> IsSpace(t[i])
    ensures r == s[lo..lo + |r|]
    ensures forall i :: lo + |r| <= i < |s| ==> IsSpace(s[i])
  {
    forall i | lo + |r| <= i < |s| ensures IsSpace(s[i]) {
      assert s[i] == t[i - lo];
    }
  }

  /** Text without surrounding whitespace is its own `strip()`. */
  lemma StripTrimmed(s: string)
    requires s == [] || (!IsSpace(s[0]) && !IsSpace(s[|s| - 1]))
    ensures Strip(s) == s
  {
    assert TrimStart(s) == s;
    assert TrimEnd(s) == s;
  }

  /** `s.replace(a, b)` for one-character `a` and `b`. */
  function ReplaceChar(s: string, a: char, b: char): (r: string)
    ensures |r| == |s|
    ensures forall i :: 0 <= i < |s| ==> r[i] == if s[i] == a then b else s[i]
  {
    if s == [] then [] else [if s[0] == a then b else s[0]] + ReplaceChar(s[1..], a, b)
  }

  /** `sub in s`. */
  predicate Contains(s: string, sub: string) {
    exists i | 0 <= i <= |s| :: sub <= s[i..]
  }

  /** `s.rstrip(c)` for one character `c`. */
  function TrimEndChar(s: string, c: char): (r: string)
    ensures |r| <= |s| && r == s[..|r|]
    ensures r == [] || r[|r| - 1] != c
    ensures forall i :: |r| <= i < |s| ==> s[i] == c
  {
    if s != [] && s[|s| - 1] == c then TrimEndChar(s[..|s| - 1], c) else s
  }
}
