/** The string operations the page objects lean on: Python's `sub in s`,
    `str.lower()` and `str.strip()`, each with the facts the rest of the
    model needs about it. */
module Text {

  /** `True` when `sub` occurs in `s` starting at index `i`. */
  ghost predicate OccursAt(s: string, sub: string, i: nat) {
    i + |sub| <= |s| && s[i..i + |sub|] == sub
  }

  /** Python's `sub in s` on two strings: a case-sensitive substring test
      (the empty string occurs in every string). */
  predicate Contains(s: string, sub: string)
    decreases |s|
  {
    |sub| <= |s| && (s[..|sub|] == sub || Contains(s[1..], sub))
  }

  /** `Contains` is exactly "occurs at some index". */
  lemma {:induction false} ContainsIff(s: string, sub: string)
    ensures Contains(s, sub) <==> exists i: nat :: OccursAt(s, sub, i)
  {
    if |sub| > |s| {
      assert forall i: nat :: !OccursAt(s, sub, i);
    } else if s[..|sub|] == sub {
      assert OccursAt(s, sub, 0);
    } else {
      ContainsIff(s[1..], sub);
      if Contains(s[1..], sub) {
        var i: nat :| OccursAt(s[1..], sub, i);
        assert s[1..][i..i + |sub|] == s[i + 1..i + 1 + |sub|];
        assert OccursAt(s, sub, i + 1);
      }
      if i: nat :| OccursAt(s, sub, i) {
        assert i != 0;
        assert s[1..][i - 1..i - 1 + |sub|] == s[i..i + |sub|];
        assert OccursAt(s[1..], sub, i - 1);
      }
    }
  }

  /** Any piece of something `s` contains is contained in `s` too; in
      particular every prefix of a contained string is contained
      (`"projects" in u` implies `"project" in u`). */
  lemma ContainsInfix(s: string, sub: string, lo: nat, hi: nat)
    requires lo <= hi <= |sub|
    requires Contains(s, sub)
    ensures Contains(s, sub[lo..hi])
  {
    ContainsIff(s, sub);
    var i: nat :| OccursAt(s, sub, i);
    forall k | 0 <= k < hi - lo ensures s[i + lo..i + hi][k] == sub[lo..hi][k] {
      assert s[i..i + |sub|][lo + k] == sub[lo + k];
    }
    assert OccursAt(s, sub[lo..hi], i + lo);
    ContainsIff(s, sub[lo..hi]);
  }

  /** Python's `str.lower()` on one character, for the ASCII letters. */
  function LowerChar(c: char): char {
    if 'A' <= c <= 'Z' then (c as int - 'A' as int + 'a' as int) as char else c
  }

  /** Python's `str.lower()`, character by character. */
  function Lower(s: string): string {
    seq(|s|, i requires 0 <= i < |s| => LowerChar(s[i]))
  }

  /** Lower-casing twice is lower-casing once. */
  lemma LowerIdempotent(s: string)
    ensures Lower(Lower(s)) == Lower(s)
  {
  }

  /** Lower-casing keeps substring occurrences, so a case-sensitive match
      is also a case-insensitive one. */
  lemma LowerKeepsContains(s: string, sub: string)
    requires Contains(s, sub)
    ensures Contains(Lower(s), Lower(sub))
  {
    ContainsIff(s, sub);
    var i: nat :| OccursAt(s, sub, i);
    assert Lower(s)[i..i + |sub|] == Lower(sub);
    assert OccursAt(Lower(s), Lower(sub), i);
    ContainsIff(Lower(s), Lower(sub));
  }

  /** The characters below U+0080 that Python's `str.strip()` removes: space,
      tab, line feed, vertical tab, form feed, carriage return and the four
      separators U+001C to U+001F. */
  predicate IsSpace(c: char) {
    c == ' ' || c == '\t' || c == '\n' || c == '\r' || c == '\U{000B}' || c == '\U{000C}'
    || c == '\U{001C}' || c == '\U{001D}' || c == '\U{001E}' || c == '\U{001F}'
  }

  /** `True` when `s` is made of whitespace only (also when it is empty). */
  ghost predicate AllSpace(s: string) {
    forall k :: 0 <= k < |s| ==> IsSpace(s[k])
  }

  /** Python's `str.lstrip()`: the longest suffix that does not start with
      whitespace; everything dropped is whitespace. */
  function StripLeft(s: string): (r: string)
    ensures |r| <= |s| && r == s[|s| - |r|..]
    ensures r == [] || !IsSpace(r[0])
    ensures AllSpace(s[..|s| - |r|])
    decreases |s|
  {
    if |s| > 0 && IsSpace(s[0]) then
      var r := StripLeft(s[1..]);
      assert s[..|s| - |r|] == [s[0]] + s[1..][..|s| - 1 - |r|];
      r
    else s
  }

  /** Python's `str.rstrip()`: the longest prefix that does not end with
      whitespace; everything dropped is whitespace. */
  function StripRight(s: string): (r: string)
    ensures |r| <= |s| && r == s[..|r|]
    ensures r == [] || !IsSpace(r[|r| - 1])
    ensures AllSpace(s[|r|..])
    decreases |s|
  {
    if |s| > 0 && IsSpace(s[|s| - 1]) then
      var r := StripRight(s[..|s| - 1]);
      assert s[|r|..] == s[..|s| - 1][|r|..] + [s[|s| - 1]];
      r
    else s
  }

  /** Python's `str.strip()`: leading and trailing whitespace removed. */
  function Strip(s: string): (r: string)
    ensures |r| <= |s|
    ensures r == [] || (!IsSpace(r[0]) && !IsSpace(r[|r| - 1]))
  {
    StripRight(StripLeft(s))
  }

  /** What `Strip` keeps is one contiguous piece of its input. */
  lemma StripIsInfix(s: string)
    ensures Contains(s, Strip(s))
  {
    var l := StripLeft(s);
    var r := Strip(s);
    var off := |s| - |l|;
    assert l[..|r|] == r;
    assert s[off..off + |r|] == r;
    assert OccursAt(s, r, off);
    ContainsIff(s, r);
  }

  /** `Strip` yields the empty string exactly when its input is whitespace
      only. */
  lemma StripEmptyIff(s: string)
    ensures Strip(s) == [] <==> AllSpace(s)
  {
  }

  /** Stripping twice is stripping once. */
  lemma StripIdempotent(s: string)
    ensures Strip(Strip(s)) == Strip(s)
  {
  }
}
