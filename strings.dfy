/** The few Python string operations the status monitor relies on:
    `str.strip()`, `":" in s` with `s.split(":", 1)`, and `"48" in s`. */
module Strings {
  import opened Wrappers

  /** Python's `str.isspace()` for one character: exactly the characters that
      `str.strip()` with no argument removes. */
  predicate IsSpace(c: char) {
    || ('\t' <= c <= '\r')
    || ('\U{1C}' <= c <= '\U{1F}')
    || c == ' '
    || c == '\U{85}'
    || c == '\U{A0}'
    || c == '\U{1680}'
    || ('\U{2000}' <= c <= '\U{200A}')
    || c == '\U{2028}'
    || c == '\U{2029}'
    || c == '\U{202F}'
    || c == '\U{205F}'
    || c == '\U{3000}'
  }

  predicate AllSpace(s: string) {
    forall k :: 0 <= k < |s| ==> IsSpace(s[k])
  }

  /** Neither end of `r` is whitespace. */
  predicate NoEdgeSpace(r: string) {
    r == [] || (!IsSpace(r[0]) && !IsSpace(r[|r| - 1]))
  }

  /** `r` is what `s.strip()` leaves when the kept slice starts at `i`: only
      whitespace lies before and after it, and `r` neither starts nor ends with
      whitespace. */
  ghost predicate StripAt(r: string, s: string, i: int) {
    && 0 <= i <= |s| - |r|
    && s[i..i + |r|] == r
    && (forall k :: 0 <= k < i ==> IsSpace(s[k]))
    && (forall k :: i + |r| <= k < |s| ==> IsSpace(s[k]))
    && NoEdgeSpace(r)
  }

  /** Independent description of `s.strip() == r`. */
  ghost predicate IsStripOf(r: string, s: string) {
    exists i :: StripAt(r, s, i)
  }

  /** Python's `s.lstrip()`: the suffix of `s` left after its leading whitespace. */
  function StripLeading(s: string): string
  {
    if |s| > 0 && IsSpace(s[0]) then StripLeading(s[1..]) else s
  }

  /** `lstrip()` removes whitespace only, and all of it. */
  lemma {:induction false} StripLeadingSpec(s: string)
    ensures var r := StripLeading(s);
            && |r| <= |s| && r == s[|s| - |r|..]
            && (forall k :: 0 <= k < |s| - |r| ==> IsSpace(s[k]))
            && (r == [] || !IsSpace(r[0]))
  {
    if |s| > 0 && IsSpace(s[0]) {
      StripLeadingSpec(s[1..]);
    }
  }

  /** Python's `s.rstrip()`: the prefix of `s` left before its trailing whitespace. */
  function StripTrailing(s: string): string
  {
    if |s| > 0 && IsSpace(s[|s| - 1]) then StripTrailing(s[..|s| - 1]) else s
  }

  /** `rstrip()` removes whitespace only, and all of it. */
  lemma {:induction false} StripTrailingSpec(s: string)
    ensures var r := StripTrailing(s);
            && |r| <= |s| && r == s[..|r|]
            && (forall k :: |r| <= k < |s| ==> IsSpace(s[k]))
            && (r == [] || !IsSpace(r[|r| - 1]))
  {
    if |s| > 0 && IsSpace(s[|s| - 1]) {
      StripTrailingSpec(s[..|s| - 1]);
    }
  }

  /** Python's `s.strip()`. */
  function Strip(s: string): string {
    StripTrailing(StripLeading(s))
  }

  /** `strip()` leaves exactly the slice `IsStripOf` describes. */
  lemma StripSpec(s: string)
    ensures IsStripOf(Strip(s), s)
  {
    var t := StripLeading(s);
    var r := StripTrailing(t);
    var i := |s| - |t|;
    StripLeadingSpec(s);
    StripTrailingSpec(t);
    assert forall k :: i + |r| <= k < |s| ==> s[k] == t[k - i];
    assert r != [] ==> r[0] == t[0];
    assert StripAt(r, s, i);
  }

  /** `IsStripOf` pins the stripped string down: there is exactly one. */
  lemma StripUnique(r1: string, r2: string, s: string)
    requires IsStripOf(r1, s) && IsStripOf(r2, s)
    ensures r1 == r2
  {
    var i1 :| StripAt(r1, s, i1);
    var i2 :| StripAt(r2, s, i2);
    if r1 == [] && r2 != [] {
      assert false;
    } else if r2 == [] && r1 != [] {
      assert false;
    } else if r1 != [] {
      // Both start at the first non-space character and end after the last one.
      assert s[i1] == r1[0] && s[i2] == r2[0];
      assert i1 == i2;
      assert s[i1 + |r1| - 1] == r1[|r1| - 1] && s[i2 + |r2| - 1] == r2[|r2| - 1];
    }
  }

  /** Whitespace in front of a string does not change what `strip()` leaves. */
  lemma StripAfterSpace(ws: string, s: string)
    requires AllSpace(ws)
    ensures Strip(ws + s) == Strip(s)
  {
    var r := Strip(s);
    StripSpec(s);
    var i :| StripAt(r, s, i);
    var t := ws + s;
    var j := |ws| + i;
    assert t[j..j + |r|] == s[i..i + |r|];
    assert forall k :: |ws| <= k < |t| ==> t[k] == s[k - |ws|];
    assert StripAt(r, t, j);
    StripSpec(t);
    StripUnique(Strip(t), r, t);
  }

  /** A string made only of whitespace strips to the empty string. */
  lemma StripAllSpace(s: string)
    requires AllSpace(s)
    ensures Strip(s) == ""
  {
    var r := Strip(s);
    StripSpec(s);
    var i :| StripAt(r, s, i);
    if r != [] {
      assert false;
    }
  }

  /** The position of the first `c` in `s`, as used by `c in s` and `s.split(c, 1)`. */
  function IndexOf(s: string, c: char): (r: Option<nat>)
    ensures r.None? <==> c !in s
    ensures r.Some? ==> r.value < |s| && s[r.value] == c && c !in s[..r.value]
  {
    if |s| == 0 then None
    else if s[0] == c then Some(0)
    else match IndexOf(s[1..], c)
      case None => None
      case Some(i) =>
        assert s[..i + 1] == [s[0]] + s[1..][..i];
        Some(i + 1)
  }

  /** `pat` occurs in `s` starting at position `i`. */
  ghost predicate OccursAt(pat: string, s: string, i: int) {
    0 <= i <= |s| - |pat| && s[i..i + |pat|] == pat
  }

  /** Python's `pat in s` for strings: the substring test. */
  function Contains(s: string, pat: string): (b: bool)
    ensures b <==> exists i :: OccursAt(pat, s, i)
    decreases |s|
  {
    if |pat| > |s| then false
    else if s[..|pat|] == pat then
      assert OccursAt(pat, s, 0);
      true
    else
      var b := Contains(s[1..], pat);
      assert forall i :: OccursAt(pat, s[1..], i) <==> OccursAt(pat, s, i + 1) by {
        forall i ensures OccursAt(pat, s[1..], i) <==> OccursAt(pat, s, i + 1) {
          if 0 <= i <= |s| - 1 - |pat| { assert s[1..][i..i + |pat|] == s[i + 1..i + 1 + |pat|]; }
        }
      }
      assert !OccursAt(pat, s, 0);
      assert b ==> exists i :: OccursAt(pat, s, i) by {
        if b { var i :| OccursAt(pat, s[1..], i); assert OccursAt(pat, s, i + 1); }
      }
      assert (exists i :: OccursAt(pat, s, i)) ==> b by {
        if exists i :: OccursAt(pat, s, i) {
          var i :| OccursAt(pat, s, i);
          assert i > 0 && OccursAt(pat, s[1..], i - 1);
        }
      }
      b
  }
}
