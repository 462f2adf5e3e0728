/** The game's whitespace trimmers. Each one removes whitespace from one or
    both ends of a string; the string is passed in and the trimmed string
    handed back. */
module Trim {

  /** The characters C's `isspace` accepts in the default locale: space, tab,
      line feed, vertical tab, form feed and carriage return. */
  predicate IsSpace(ch: char)
  {
    ch == ' ' || ch == '\t' || ch == '\n' || ch == '\U{0B}' || ch == '\U{0C}' || ch == '\r'
  }

  /** `s` without its leading whitespace: a suffix of `s`, everything cut off
      is whitespace, and what is left does not start with whitespace. */
  function LTrimmed(s: string): (r: string)
    ensures |r| <= |s| && r == s[|s| - |r|..]
    ensures forall k :: 0 <= k < |s| - |r| ==> IsSpace(s[k])
    ensures r == [] || !IsSpace(r[0])
  {
    if s != [] && IsSpace(s[0]) then LTrimmed(s[1..]) else s
  }

  /** `s` without its trailing whitespace: a prefix of `s`, everything cut off
      is whitespace, and what is left does not end with whitespace. */
  function RTrimmed(s: string): (r: string)
    ensures |r| <= |s| && r == s[..|r|]
    ensures forall k :: |r| <= k < |s| ==> IsSpace(s[k])
    ensures r == [] || !IsSpace(r[|r| - 1])
  {
    if s != [] && IsSpace(s[|s| - 1]) then RTrimmed(s[..|s| - 1]) else s
  }

  /** `s` without whitespace at either end. */
  function Trimmed(s: string): string
  {
    RTrimmed(LTrimmed(s))
  }

  /** Trims from the start: skips the leading whitespace and keeps the rest. */
  method LTrim(s: string) returns (r: string)
    ensures r == LTrimmed(s)
  {
    var i := 0;
    while i < |s| && IsSpace(s[i])
      invariant 0 <= i <= |s|
      invariant LTrimmed(s[i..]) == LTrimmed(s)
    {
      assert s[i..][1..] == s[i + 1..];
      i := i + 1;
    }
    r := s[i..];
  }

  /** Trims from the end: finds the last character that is not whitespace
      and drops everything after it. */
  method RTrim(s: string) returns (r: string)
    ensures r == RTrimmed(s)
  {
    var i := |s|;
    while i > 0 && IsSpace(s[i - 1])
      invariant 0 <= i <= |s|
      invariant RTrimmed(s[..i]) == RTrimmed(s)
    {
      assert s[..i][..i - 1] == s[..i - 1];
      i := i - 1;
    }
    r := s[..i];
  }

  /** Trims from both ends: first the start, then the end. */
  method TrimBoth(s: string) returns (r: string)
    ensures r == Trimmed(s)
  {
    r := LTrim(s);
    r := RTrim(r);
  }

  /** Every character of `s` is whitespace. */
  predicate AllSpace(s: string)
  {
    forall k :: 0 <= k < |s| ==> IsSpace(s[k])
  }

  /** `s[i..j]` is what is left of `s` once whitespace is cut from both ends:
      the head `s[..i]` and the tail `s[j..]` are whitespace only, and the
      piece neither starts nor ends with whitespace. */
  predicate IsInnerPiece(s: string, i: nat, j: nat)
    requires i <= j <= |s|
  {
    && AllSpace(s[..i])
    && AllSpace(s[j..])
    && (i == j || (!IsSpace(s[i]) && !IsSpace(s[j - 1])))
  }

  /** The trimmed string is the inner piece of `s`: it starts after the
      leading whitespace and ends before the trailing whitespace. */
  lemma TrimmedBounds(s: string) returns (i: nat, j: nat)
    ensures i <= j <= |s| && IsInnerPiece(s, i, j) && Trimmed(s) == s[i..j]
  {
    var t := LTrimmed(s);
    var r := RTrimmed(t);
    i := |s| - |t|;
    j := i + |r|;
    assert t == s[i..];
    assert r == t[..|r|];
    assert s[i..][..|r|] == s[i..j];
    assert AllSpace(s[..i]);
    TailIsSpace(s, t, |r|);
    assert AllSpace(s[j..]);
    if r != [] {
      assert r[0] == t[0] == s[i];
      assert r[|r| - 1] == s[j - 1];
    }
  }

  /** What `RTrimmed` cuts from a suffix `t` of `s` is whitespace at the end of `s`. */
  lemma TailIsSpace(s: string, t: string, n: nat)
    requires |t| <= |s| && t == s[|s| - |t|..] && n <= |t|
    requires forall k :: n <= k < |t| ==> IsSpace(t[k])
    ensures AllSpace(s[|s| - |t| + n..])
  {
    var j := |s| - |t| + n;
    forall k | 0 <= k < |s| - j ensures IsSpace(s[j..][k]) {
      assert s[j..][k] == t[n + k];
    }
  }

  /** Cutting whitespace from the start stops at the first character that is
      not whitespace. */
  lemma {:induction false} LTrimmedAt(s: string, i: nat)
    requires i <= |s| && AllSpace(s[..i])
    requires i == |s| || !IsSpace(s[i])
    ensures LTrimmed(s) == s[i..]
  {
    if i > 0 {
      assert IsSpace(s[..i][0]);
      assert s[1..][..i - 1] == s[1..i];
      assert forall k :: 0 <= k < i - 1 ==> s[1..i][k] == s[..i][k + 1];
      LTrimmedAt(s[1..], i - 1);
      assert s[1..][i - 1..] == s[i..];
    }
  }

  /** Cutting whitespace from the end stops after the last character that is
      not whitespace. */
  lemma {:induction false} RTrimmedAt(s: string, j: nat)
    requires j <= |s| && AllSpace(s[j..])
    requires j == 0 || !IsSpace(s[j - 1])
    ensures RTrimmed(s) == s[..j]
    decreases |s| - j
  {
    if j < |s| {
      var init := s[..|s| - 1];
      assert IsSpace(s[j..][|s| - 1 - j]);
      assert init[j..] == s[j..|s| - 1];
      assert forall k :: 0 <= k < |s| - 1 - j ==> init[j..][k] == s[j..][k];
      RTrimmedAt(init, j);
      assert init[..j] == s[..j];
    } else {
      assert s[..j] == s;
    }
  }

  /** Conversely, an inner piece of `s` is exactly what trimming returns. */
  lemma TrimmedIsUnique(s: string, i: nat, j: nat)
    requires i <= j <= |s| && IsInnerPiece(s, i, j)
    ensures Trimmed(s) == s[i..j]
  {
    if i < j {
      TrimmedOfPiece(s, i, j);
    } else {
      TrimmedOfBlank(s, i);
    }
  }

  /** A piece that starts and ends with a non-whitespace character, with only
      whitespace around it, is what trimming returns. */
  lemma TrimmedOfPiece(s: string, i: nat, j: nat)
    requires i < j <= |s| && IsInnerPiece(s, i, j)
    ensures Trimmed(s) == s[i..j]
  {
    var t := s[i..];
    assert t[j - i..] == s[j..];
    assert AllSpace(t[j - i..]);
    assert t[j - i - 1] == s[j - 1];
    RTrimmedAt(t, j - i);
    assert t[..j - i] == s[i..j];
    LTrimmedAt(s, i);
  }

  /** A string that is whitespace before and after position `i` trims to
      the empty string. */
  lemma TrimmedOfBlank(s: string, i: nat)
    requires i <= |s| && AllSpace(s[..i]) && AllSpace(s[i..])
    ensures Trimmed(s) == []
  {
    assert s[..|s|] == s;
    forall k | 0 <= k < |s| ensures IsSpace(s[k]) {
      if k < i {
        assert s[k] == s[..i][k];
      } else {
        assert s[k] == s[i..][k - i];
      }
    }
    LTrimmedAt(s, |s|);
    assert LTrimmed(s) == [];
  }

  /** Trimming a trimmed string changes nothing. */
  lemma TrimmedIdempotent(s: string)
    ensures Trimmed(Trimmed(s)) == Trimmed(s)
  {
    var i, j := TrimmedBounds(s);
    var r := s[i..j];
    assert r == [] || (!IsSpace(r[0]) && !IsSpace(r[|r| - 1]));
    assert LTrimmed(r) == r;
  }
}
