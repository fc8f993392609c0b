/** The string operations of Python that the converter relies on, over `seq<char>`. */
module Text {

  /** Python's `str.isspace()` for one character: exactly the characters `str.strip()` removes. */
  predicate IsSpace(c: char) {
    || c == ' '
    || '\t' <= c <= '\r'
    || '\U{1c}' <= c <= '\U{1f}'
    || c == '\U{85}' || c == '\U{a0}' || c == '\U{1680}'
    || '\U{2000}' <= c <= '\U{200a}'
    || c == '\U{2028}' || c == '\U{2029}' || c == '\U{202f}' || c == '\U{205f}' || c == '\U{3000}'
  }

  predicate AllSpace(s: string) {
    forall i :: 0 <= i < |s| ==> IsSpace(s[i])
  }

  /** Python's `s.find(c)`, except that a missing `c` gives `|s|` rather than -1. */
  function FirstIndex(s: string, c: char): (k: nat)
    ensures k <= |s|
    ensures k < |s| ==> s[k] == c
    ensures c !in s[..k]
  {
    if s == [] then 0
    else if s[0] == c then 0
    else 1 + FirstIndex(s[1..], c)
  }

  /** `FirstIndex` is determined by its contract. */
  lemma {:induction false} FirstIndexIs(s: string, c: char, k: nat)
    requires k <= |s| && (k < |s| ==> s[k] == c) && c !in s[..k]
    ensures FirstIndex(s, c) == k
  {
    if s != [] && s[0] != c {
      assert s[0] == s[..k][0];
      assert s[1..][..k - 1] == s[..k][1..];
      FirstIndexIs(s[1..], c, k - 1);
    }
  }

  /** `s.find(c)` finds something exactly when `c` occurs in `s`. */
  lemma FirstIndexFound(s: string, c: char)
    ensures FirstIndex(s, c) < |s| <==> c in s
  {
    assert s[..|s|] == s;
  }

  /** The first `c` of `a + b`, where `a` has none and `b` is empty or starts with `c`, is where `b` begins. */
  lemma FirstIndexAfter(a: string, b: string, c: char)
    requires c !in a && (b == [] || b[0] == c)
    ensures FirstIndex(a + b, c) == |a|
  {
    assert (a + b)[..|a|] == a;
    FirstIndexIs(a + b, c, |a|);
  }

  /** Drops the leading whitespace (Python's `lstrip()`); see `TrimStartFacts`. */
  function TrimStart(s: string): string {
    if s != [] && IsSpace(s[0]) then TrimStart(s[1..]) else s
  }

  /** `lstrip()` keeps a suffix, drops only whitespace, and leaves no whitespace in front. */
  lemma {:induction false} TrimStartFacts(s: string)
    ensures var r := TrimStart(s);
      && |r| <= |s| && r == s[|s| - |r|..]
      && AllSpace(s[..|s| - |r|])
      && (r == [] || !IsSpace(r[0]))
  {
    if s != [] && IsSpace(s[0]) {
      TrimStartFacts(s[1..]);
      var r := TrimStart(s[1..]);
      assert s[..|s| - |r|] == [s[0]] + s[1..][..|s| - 1 - |r|];
    }
  }

  /** Drops the trailing whitespace (Python's `rstrip()`); see `TrimEndFacts`. */
  function TrimEnd(s: string): string {
    if s != [] && IsSpace(s[|s| - 1]) then TrimEnd(s[..|s| - 1]) else s
  }

  /** `rstrip()` keeps a prefix, drops only whitespace, and leaves no whitespace at the end. */
  lemma {:induction false} TrimEndFacts(s: string)
    ensures var r := TrimEnd(s);
      && |r| <= |s| && r == s[..|r|]
      && AllSpace(s[|r|..])
      && (r == [] || !IsSpace(r[|r| - 1]))
  {
    if s != [] && IsSpace(s[|s| - 1]) {
      TrimEndFacts(s[..|s| - 1]);
      var r := TrimEnd(s[..|s| - 1]);
      assert s[|r|..] == s[..|s| - 1][|r|..] + [s[|s| - 1]];
    }
  }

  /** Python's `s.strip()`: `s` with whitespace cut from both ends (see `StripFacts`). */
  function Strip(s: string): string {
    TrimEnd(TrimStart(s))
  }

  /**
    `Strip(s)` is the part of `s` left between a whitespace run in front and one at the end; it
    neither starts nor ends with whitespace, and it is empty exactly when `s` is whitespace alone.
  */
  lemma StripFacts(s: string)
    ensures var i := |s| - |TrimStart(s)|;
      && 0 <= i && i + |Strip(s)| <= |s| && Strip(s) == s[i..i + |Strip(s)|]
      && AllSpace(s[..i]) && AllSpace(s[i + |Strip(s)|..])
    ensures Strip(s) == [] || (!IsSpace(Strip(s)[0]) && !IsSpace(Strip(s)[|Strip(s)| - 1]))
    ensures Strip(s) == [] <==> AllSpace(s)
  {
    var t := TrimStart(s);
    var r := TrimEnd(t);
    assert Strip(s) == r;
    TrimStartFacts(s);
    TrimEndFacts(t);
    StripParts(s, t, r);
    var i := |s| - |t|;
    assert AllSpace(s[..i]) && r == s[i..i + |r|] && AllSpace(s[i + |r|..]);
  }

  lemma StripParts(s: string, t: string, r: string)
    requires |t| <= |s| && t == s[|s| - |t|..] && AllSpace(s[..|s| - |t|])
    requires |r| <= |t| && r == t[..|r|] && AllSpace(t[|r|..])
    requires r == [] || !IsSpace(r[0])
    ensures var i := |s| - |t|;
      && r == s[i..i + |r|] && AllSpace(s[i + |r|..])
      && (r == [] <==> AllSpace(s))
  {
    var i := |s| - |t|;
    assert s[i..i + |r|] == t[..|r|];
    assert s[i + |r|..] == t[|r|..];
    if r == [] {
      forall j | 0 <= j < |s| ensures IsSpace(s[j]) {
        if j < i {
          assert s[j] == s[..i][j];
        } else {
          assert s[j] == t[|r|..][j - i];
        }
      }
    } else {
      assert s[i] == r[0];
    }
  }

  /** The concatenation of a list of fragments (Python's `"".join(parts)`). */
  function Concat(parts: seq<string>): string {
    if parts == [] then [] else parts[0] + Concat(parts[1..])
  }

  /** The concatenation is empty exactly when every fragment is. */
  lemma {:induction false} ConcatEmpty(parts: seq<string>)
    ensures Concat(parts) == [] <==> forall i :: 0 <= i < |parts| ==> parts[i] == []
  {
    if parts != [] {
      ConcatEmpty(parts[1..]);
      assert forall i :: 1 <= i < |parts| ==> parts[i] == parts[1..][i - 1];
    }
  }

  /** Python's `sep.join(parts)` for a one-character separator. */
  function Join(parts: seq<string>, sep: char): string {
    if parts == [] then []
    else if |parts| == 1 then parts[0]
    else parts[0] + [sep] + Join(parts[1..], sep)
  }

  /** Python's `s.split(sep)` for a one-character separator: never empty, and joining gives `s` back. */
  function Split(s: string, sep: char): (parts: seq<string>)
    ensures |parts| >= 1
    ensures parts[0] == s[..FirstIndex(s, sep)]
    ensures forall i :: 0 <= i < |parts| ==> sep !in parts[i]
    ensures Join(parts, sep) == s
    decreases |s|
  {
    var k := FirstIndex(s, sep);
    if k == |s| then [s]
    else
      var rest := Split(s[k + 1..], sep);
      assert s == s[..k] + [sep] + s[k + 1..];
      [s[..k]] + rest
  }

  /** Python's `str.lower()` on the ASCII letters. */
  function LowerChar(c: char): char {
    if 'A' <= c <= 'Z' then (c as int + 32) as char else c
  }

  function Lower(s: string): (r: string)
    ensures |r| == |s|
  {
    seq(|s|, i requires 0 <= i < |s| => LowerChar(s[i]))
  }

  predicate StartsWith(s: string, prefix: string) {
    |prefix| <= |s| && s[..|prefix|] == prefix
  }
}
