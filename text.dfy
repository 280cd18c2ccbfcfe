/**
  The two Python string operations the plugin relies on: `str.lower()` and
  the substring test `item in s`.
 */
module Text {

  predicate IsUpper(c: char) {
    'A' <= c <= 'Z'
  }

  /** `lower()` of one character (ASCII letters only). */
  function LowerChar(c: char): char {
    if IsUpper(c) then (c as int + 32) as char else c
  }

  /** `s.lower()`: the same length, every character lowered, none left upper case. */
  function Lower(s: string): (r: string)
    ensures |r| == |s|
    ensures forall i :: 0 <= i < |s| ==> r[i] == LowerChar(s[i]) && !IsUpper(r[i])
  {
    if s == [] then [] else [LowerChar(s[0])] + Lower(s[1..])
  }

  /** Lowering commutes with slicing. */
  lemma LowerSlice(s: string, i: nat, j: nat)
    requires i <= j <= |s|
    ensures Lower(s)[i..j] == Lower(s[i..j])
  {
    forall k | 0 <= k < j - i
      ensures LowerChar(s[i..j][k]) == Lower(s)[i..j][k]
    {
      assert s[i..j][k] == s[i + k];
      assert Lower(s)[i..j][k] == Lower(s)[i + k];
    }
    LowerPointwise(s[i..j], Lower(s)[i..j]);
  }

  /** `t in s`: t is a prefix of s or occurs in s with its first character dropped. */
  function Contains(s: string, t: string): (b: bool)
    ensures t == [] ==> b
    ensures b ==> |t| <= |s|
    decreases |s|
  {
    t <= s || (s != [] && Contains(s[1..], t))
  }

  /** The middle part of a three-part string, cut back out of it. */
  lemma SliceOfJoin(a: string, b: string, c: string)
    ensures (a + b + c)[|a|..|a| + |b|] == b
  {
  }

  /** Lower(s) is t when t lowers s character by character. */
  lemma LowerPointwise(s: string, t: string)
    requires |s| == |t| && forall i :: 0 <= i < |s| ==> LowerChar(s[i]) == t[i]
    ensures Lower(s) == t
  {
  }

  /** A lower-case letter that s holds in neither case is absent from Lower(s). */
  lemma LowerLacks(s: string, c: char)
    requires 'a' <= c <= 'z'
    requires forall i :: 0 <= i < |s| ==> s[i] != c && s[i] as int != c as int - 32
    ensures forall i :: 0 <= i < |Lower(s)| ==> Lower(s)[i] != c
  {
  }

  /** A character of t that s lacks keeps t out of s. */
  lemma {:induction false} AbsentCharNotContained(s: string, t: string, j: nat)
    requires j < |t| && forall i :: 0 <= i < |s| ==> s[i] != t[j]
    ensures !Contains(s, t)
    decreases |s|
  {
    if j < |s| {
      assert s[j] != t[j];
    }
    assert !(t <= s);
    if s != [] {
      AbsentCharNotContained(s[1..], t, j);
    }
  }

  /** t occurs in s starting at position i. */
  predicate OccursAt(s: string, t: string, i: int) {
    0 <= i && i + |t| <= |s| && s[i..i + |t|] == t
  }

  /** The recursive test agrees with "t is some window of s". */
  lemma {:induction false} ContainsIffOccurs(s: string, t: string)
    ensures Contains(s, t) <==> exists i :: OccursAt(s, t, i)
    decreases |s|
  {
    if t <= s {
      assert OccursAt(s, t, 0);
    } else if s == [] {
    } else {
      ContainsIffOccurs(s[1..], t);
      if Contains(s[1..], t) {
        var i :| OccursAt(s[1..], t, i);
        assert s[1..][i..i + |t|] == s[i + 1..i + 1 + |t|];
        assert OccursAt(s, t, i + 1);
      }
      if exists i :: OccursAt(s, t, i) {
        var i :| OccursAt(s, t, i);
        assert i != 0;
        assert s[1..][i - 1..i - 1 + |t|] == s[i..i + |t|];
        assert OccursAt(s[1..], t, i - 1);
      }
    }
  }

  /**
    Searching the lowered string for t is the same as finding a window of the
    original string that lowers to t: the test ignores the case of the
    searched string (but not the case of t).
   */
  lemma LowerContainsIgnoresCase(s: string, t: string)
    ensures Contains(Lower(s), t) <==> exists i :: LowersTo(s, t, i)
  {
    ContainsIffOccurs(Lower(s), t);
    forall i | OccursAt(Lower(s), t, i)
      ensures LowersTo(s, t, i)
    {
      LowerSlice(s, i, i + |t|);
    }
    forall i | LowersTo(s, t, i)
      ensures OccursAt(Lower(s), t, i)
    {
      LowerSlice(s, i, i + |t|);
    }
  }

  /** The window of s at position i, lowered, is t. */
  predicate LowersTo(s: string, t: string, i: int) {
    0 <= i && i + |t| <= |s| && Lower(s[i..i + |t|]) == t
  }

  /** A t holding an upper-case letter is never found in a lowered string. */
  lemma UpperNeverInLower(s: string, t: string, j: nat)
    requires j < |t| && IsUpper(t[j])
    ensures !Contains(Lower(s), t)
  {
    ContainsIffOccurs(Lower(s), t);
    forall i | 0 <= i && i + |t| <= |s|
      ensures !OccursAt(Lower(s), t, i)
    {
      assert Lower(s)[i..i + |t|][j] == Lower(s)[i + j];
    }
  }
}
