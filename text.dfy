/** The three Python string operations the grounding code relies on:
    `str.strip()`, `str.lower()` and the substring test `a in b`. */
module Text {

  /** Python's `str.isspace()` characters, i.e. what `str.strip()` with no argument removes. */
  const WHITESPACE: set<char> := {
    '\U{20}', '\U{9}', '\U{a}', '\U{b}', '\U{c}', '\U{d}', '\U{1c}', '\U{1d}',
    '\U{1e}', '\U{1f}', '\U{85}', '\U{a0}', '\U{1680}', '\U{2000}', '\U{2001}', '\U{2002}',
    '\U{2003}', '\U{2004}', '\U{2005}', '\U{2006}', '\U{2007}', '\U{2008}', '\U{2009}', '\U{200a}',
    '\U{2028}', '\U{2029}', '\U{202f}', '\U{205f}', '\U{3000}'
  }

  predicate IsSpace(c: char) {
    c in WHITESPACE
  }

  /** `s.lstrip()`: drop leading whitespace. */
  function TrimStart(s: string): string {
    if s != [] && IsSpace(s[0]) then TrimStart(s[1..]) else s
  }

  /** `s.rstrip()`: drop trailing whitespace. */
  function TrimEnd(s: string): string {
    if s != [] && IsSpace(s[|s| - 1]) then TrimEnd(s[..|s| - 1]) else s
  }

  /** `TrimStart` removes a whitespace prefix, and exactly all of it. */
  lemma {:induction false} TrimStartCorrect(s: string)
    ensures |TrimStart(s)| <= |s| && TrimStart(s) == s[|s| - |TrimStart(s)|..]
    ensures forall i :: 0 <= i < |s| - |TrimStart(s)| ==> IsSpace(s[i])
    ensures TrimStart(s) != [] ==> !IsSpace(TrimStart(s)[0])
  {
    if s != [] && IsSpace(s[0]) {
      var t := s[1..];
      TrimStartCorrect(t);
      forall i | 0 <= i < |s| - |TrimStart(s)| ensures IsSpace(s[i]) {
        if i > 0 { assert s[i] == t[i - 1]; }
      }
    }
  }

  /** `TrimEnd` removes a whitespace suffix, and exactly all of it. */
  lemma {:induction false} TrimEndCorrect(s: string)
    ensures |TrimEnd(s)| <= |s| && TrimEnd(s) == s[..|TrimEnd(s)|]
    ensures forall i :: |TrimEnd(s)| <= i < |s| ==> IsSpace(s[i])
    ensures TrimEnd(s) != [] ==> !IsSpace(TrimEnd(s)[|TrimEnd(s)| - 1])
  {
    if s != [] && IsSpace(s[|s| - 1]) {
      var t := s[..|s| - 1];
      TrimEndCorrect(t);
      forall i | |TrimEnd(s)| <= i < |s| ensures IsSpace(s[i]) {
        if i < |s| - 1 { assert s[i] == t[i]; }
      }
    }
  }

  /** `s.strip()`: whitespace cut off both ends, one character at a time. */
  function Strip(s: string): string {
    if s != [] && IsSpace(s[0]) then Strip(s[1..])
    else if s != [] && IsSpace(s[|s| - 1]) then Strip(s[..|s| - 1])
    else s
  }

  /** `strip` is `rstrip` after `lstrip`. */
  lemma {:induction false} StripIsTrims(s: string)
    ensures Strip(s) == TrimEnd(TrimStart(s))
  {
    if s != [] && IsSpace(s[0]) {
      StripIsTrims(s[1..]);
    } else if s != [] && IsSpace(s[|s| - 1]) {
      var t := s[..|s| - 1];
      StripIsTrims(t);
      assert t != [] && t[0] == s[0];
    }
  }

  /** `Strip` returns a slice of its input obtained by cutting whitespace off both ends, and the
      result neither starts nor ends with whitespace. */
  lemma StripCorrect(s: string)
    ensures exists i, j ::
      && 0 <= i <= j <= |s| && Strip(s) == s[i..j]
      && (forall k :: 0 <= k < i ==> IsSpace(s[k]))
      && (forall k :: j <= k < |s| ==> IsSpace(s[k]))
    ensures Strip(s) != [] ==> !IsSpace(Strip(s)[0]) && !IsSpace(Strip(s)[|Strip(s)| - 1])
  {
    StripIsTrims(s);
    var t := TrimStart(s);
    TrimStartCorrect(s);
    var r := TrimEnd(t);
    TrimEndCorrect(t);
    var i, j := |s| - |t|, |s| - |t| + |r|;
    assert r == s[i..j];
    forall k | j <= k < |s| ensures IsSpace(s[k]) {
      assert s[k] == t[k - i];
    }
    if r != [] {
      assert r[0] == t[0];
    }
    assert 0 <= i <= j <= |s| && Strip(s) == s[i..j];
  }

  /** `str.lower()` on one character: ASCII capitals and the Latin-1 capitals that map within Latin-1. */
  function LowerChar(c: char): char {
    if 'A' <= c <= 'Z' then (c as int + 32) as char
    else if ('\U{c0}' <= c <= '\U{de}') && c != '\U{d7}' then (c as int + 32) as char
    else c
  }

  function Lower(s: string): (r: string)
    ensures |r| == |s| && forall i :: 0 <= i < |s| ==> r[i] == LowerChar(s[i])
  {
    seq(|s|, i requires 0 <= i < |s| => LowerChar(s[i]))
  }

  lemma LowerCharIdempotent(c: char)
    ensures LowerChar(LowerChar(c)) == LowerChar(c)
  {
  }

  /** Lower-casing twice is lower-casing once. */
  lemma LowerIdempotent(s: string)
    ensures Lower(Lower(s)) == Lower(s)
  {
    forall i | 0 <= i < |s| ensures Lower(Lower(s))[i] == Lower(s)[i] {
      LowerCharIdempotent(s[i]);
    }
  }

  predicate StartsWith(s: string, prefix: string) {
    |prefix| <= |s| && s[..|prefix|] == prefix
  }

  /** Python's `sub in s`, scanning start positions left to right. */
  function Contains(s: string, sub: string): bool
    decreases |s|
  {
    if StartsWith(s, sub) then true
    else if s == [] then false
    else Contains(s[1..], sub)
  }

  /** `sub` occurs in `s` starting at position `i`. */
  predicate OccursAt(s: string, sub: string, i: int) {
    0 <= i && i + |sub| <= |s| && s[i..i + |sub|] == sub
  }

  /** A slice of the tail is the slice of the string one position further on. */
  lemma TailSlice(s: string, i: int, n: nat)
    requires 1 <= i && i + n <= |s|
    ensures s[1..][i - 1..i - 1 + n] == s[i..i + n]
  {
    var t := s[1..];
    var a, b := t[i - 1..i - 1 + n], s[i..i + n];
    forall k | 0 <= k < n ensures a[k] == b[k] {
      assert t[i - 1 + k] == s[i + k];
    }
  }

  /** `sub in s` holds exactly when `sub` occurs in `s` at some position. */
  lemma {:induction false} ContainsIff(s: string, sub: string)
    ensures Contains(s, sub) <==> exists i :: OccursAt(s, sub, i)
    decreases |s|
  {
    if StartsWith(s, sub) {
      assert OccursAt(s, sub, 0);
    } else if s == [] {
    } else {
      ContainsIff(s[1..], sub);
      forall i | OccursAt(s[1..], sub, i) ensures OccursAt(s, sub, i + 1) {
        TailSlice(s, i + 1, |sub|);
      }
      forall i | OccursAt(s, sub, i) ensures OccursAt(s[1..], sub, i - 1) {
        TailSlice(s, i, |sub|);
      }
    }
  }

  /** Every string contains itself and the empty string. */
  lemma ContainsSelf(s: string)
    ensures Contains(s, s) && Contains(s, [])
  {
    assert StartsWith(s, s);
    assert StartsWith(s, []);
  }
}
