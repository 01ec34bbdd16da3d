/**
 * The string operations the monitor relies on: lower-casing, the substring test of
 * Python's `in`, the file name of a path (`Path(path).name`) and the first field of
 * `str.split(':')`.
 */
module Text {

  /** ASCII lower-casing of one character. */
  function LowerChar(c: char): char
  {
    if 'A' <= c <= 'Z' then (c as int + 32) as char else c
  }

  predicate IsUpper(c: char)
  {
    'A' <= c <= 'Z'
  }

  /** `s.lower()`, restricted to ASCII letters. */
  function Lower(s: string): (r: string)
    ensures |r| == |s|
    ensures forall i :: 0 <= i < |r| ==> !IsUpper(r[i])
    ensures forall i :: 0 <= i < |s| && !IsUpper(s[i]) ==> r[i] == s[i]
    ensures forall i :: 0 <= i < |s| && IsUpper(s[i]) ==> r[i] as int == s[i] as int + 32
  {
    seq(|s|, i requires 0 <= i < |s| => LowerChar(s[i]))
  }

  /** Python's `sub in s` on strings: `sub` occurs at some position of `s`. */
  predicate Contains(s: string, sub: string)
  {
    sub <= s || (s != [] && Contains(s[1..], sub))
  }

  lemma {:induction false} ContainsAt(s: string, sub: string, k: nat)
    requires k + |sub| <= |s| && s[k..k + |sub|] == sub
    ensures Contains(s, sub)
  {
    if k > 0 {
      assert s[1..][k - 1..k - 1 + |sub|] == sub;
      ContainsAt(s[1..], sub, k - 1);
    } else {
      assert sub <= s;
    }
  }

  /** Conversely, when `Contains` holds, `sub` occurs at some position `k` of `s`. */
  lemma {:induction false} ContainsWitness(s: string, sub: string) returns (k: nat)
    requires Contains(s, sub)
    ensures k + |sub| <= |s| && s[k..k + |sub|] == sub
  {
    if sub <= s {
      k := 0;
    } else {
      var j := ContainsWitness(s[1..], sub);
      k := j + 1;
      assert s[k..k + |sub|] == s[1..][j..j + |sub|];
    }
  }

  /** Every string contains the empty string and itself. */
  lemma ContainsTrivial(s: string)
    ensures Contains(s, [])
    ensures Contains(s, s)
  {
  }

  predicate IsSeparator(c: char)
  {
    c == '/' || c == '\\'
  }

  /** The path with its trailing separators removed, as pathlib does when it parses a path. */
  function StripTrailingSeparators(p: string): (r: string)
    ensures r <= p
    ensures r == [] || !IsSeparator(r[|r| - 1])
    ensures forall i :: |r| <= i < |p| ==> IsSeparator(p[i])
  {
    if p != [] && IsSeparator(p[|p| - 1]) then StripTrailingSeparators(p[..|p| - 1]) else p
  }

  /** The longest separator-free suffix of `p`. */
  function LastSegment(p: string): (r: string)
    ensures |r| <= |p| && p[|p| - |r|..] == r
    ensures forall i :: 0 <= i < |r| ==> !IsSeparator(r[i])
    ensures |r| < |p| ==> IsSeparator(p[|p| - |r| - 1])
  {
    if p == [] || IsSeparator(p[|p| - 1]) then []
    else LastSegment(p[..|p| - 1]) + [p[|p| - 1]]
  }

  /** `Path(path).name`: the last component of a path with `/` or `\` separators. */
  function Basename(path: string): (r: string)
    ensures var q := StripTrailingSeparators(path);
      && q <= path
      && (forall i :: |q| <= i < |path| ==> IsSeparator(path[i]))
      && |r| <= |q| && q[|q| - |r|..] == r
      && (|r| < |q| ==> IsSeparator(q[|q| - |r| - 1]))
    ensures forall i :: 0 <= i < |r| ==> !IsSeparator(r[i])
  {
    LastSegment(StripTrailingSeparators(path))
  }

  /** A file name without separators is its own base name. */
  lemma BasenameOfPlainName(name: string)
    requires forall i :: 0 <= i < |name| ==> !IsSeparator(name[i])
    ensures Basename(name) == name
  {
  }

  /** `s.split(sep)[0]`: the text before the first `sep`, or all of `s` when there is none. */
  function FirstField(s: string, sep: char): (r: string)
    ensures r <= s
    ensures sep !in r
    ensures |r| < |s| ==> s[|r|] == sep
  {
    if s == [] || s[0] == sep then [] else [s[0]] + FirstField(s[1..], sep)
  }

  /** The first field of `prefix + [sep] + rest` is `prefix` whenever `prefix` holds no `sep`. */
  lemma FirstFieldOfJoin(prefix: string, sep: char, rest: string)
    requires sep !in prefix
    ensures FirstField(prefix + [sep] + rest, sep) == prefix
  {
    var s := prefix + [sep] + rest;
    assert s[|prefix|] == sep;
    assert s[..|prefix|] == prefix;
  }
}
