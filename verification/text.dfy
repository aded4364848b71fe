/** The two string operations the mission runner relies on: Python's
    `str.strip()` with no argument, and `str.startswith`. */
module Text {

  /** The characters Python's `str.isspace()` accepts, by code point: what
      `str.strip()` removes when given no argument. */
  const SpaceChars: set<char> := {
    '\U{9}', '\U{A}', '\U{B}', '\U{C}', '\U{D}',
    '\U{1C}', '\U{1D}', '\U{1E}', '\U{1F}', '\U{20}',
    '\U{85}', '\U{A0}', '\U{1680}',
    '\U{2000}', '\U{2001}', '\U{2002}', '\U{2003}', '\U{2004}', '\U{2005}',
    '\U{2006}', '\U{2007}', '\U{2008}', '\U{2009}', '\U{200A}',
    '\U{2028}', '\U{2029}', '\U{202F}', '\U{205F}', '\U{3000}'
  }

  predicate IsSpace(c: char) {
    c in SpaceChars
  }

  predicate AllSpace(s: string) {
    forall k :: 0 <= k < |s| ==> IsSpace(s[k])
  }

  /** Neither end of `s` is whitespace (vacuously so for ""). */
  predicate Trimmed(s: string) {
    |s| == 0 || (!IsSpace(s[0]) && !IsSpace(s[|s| - 1]))
  }

  /** `s` with its leading whitespace removed. */
  function StripLeft(s: string): (r: string)
    ensures |r| <= |s|
    ensures r == s[|s| - |r|..]
    ensures AllSpace(s[..|s| - |r|])
    ensures |r| > 0 ==> !IsSpace(r[0])
  {
    if |s| > 0 && IsSpace(s[0]) then StripLeft(s[1..]) else s
  }

  /** `s` with its trailing whitespace removed. */
  function StripRight(s: string): (r: string)
    ensures |r| <= |s|
    ensures r == s[..|r|]
    ensures AllSpace(s[|r|..])
    ensures |r| > 0 ==> !IsSpace(r[|r| - 1])
  {
    if |s| > 0 && IsSpace(s[|s| - 1]) then StripRight(s[..|s| - 1]) else s
  }

  /** `str.strip()`: whitespace removed at both ends (StripSplit shows
      that what is removed is whitespace only). */
  function Strip(s: string): (r: string)
    ensures Trimmed(r)
    ensures |r| <= |s|
  {
    var l := StripLeft(s);
    var r := StripRight(l);
    assert |r| > 0 ==> r[0] == l[0];
    r
  }

  /** Whitespace padding around a trimmed string is exactly what `Strip`
      removes: the stripped form of a string is unique. */
  lemma {:induction false} StripPadded(a: string, x: string, b: string)
    requires AllSpace(a) && AllSpace(b) && Trimmed(x)
    ensures Strip(a + x + b) == x
  {
    var y := x + b;
    assert y[..|x|] == x;
    assert a + x + b == a + y;
    if x == [] {
      assert y == b;
      StripLeftPadded(a, y, x);
    } else {
      StripLeftPadded(a, y, x);
      StripRightPadded(x, b);
    }
  }

  lemma {:induction false} StripLeftPadded(a: string, y: string, x: string)
    requires AllSpace(a) && Trimmed(x) && |x| <= |y| && y[..|x|] == x
    requires x == [] ==> AllSpace(y)
    ensures StripLeft(a + y) == (if x == [] then [] else y)
  {
    if |a| > 0 {
      assert (a + y)[1..] == a[1..] + y;
      StripLeftPadded(a[1..], y, x);
    } else {
      assert a + y == y;
      if x == [] {
        StripLeftAllSpace(y);
      } else {
        assert y[0] == x[0];
      }
    }
  }

  lemma {:induction false} StripLeftAllSpace(s: string)
    requires AllSpace(s)
    ensures StripLeft(s) == []
  {
    if |s| > 0 {
      StripLeftAllSpace(s[1..]);
    }
  }

  lemma {:induction false} StripRightPadded(x: string, b: string)
    requires AllSpace(b) && Trimmed(x)
    ensures StripRight(x + b) == x
  {
    if |b| > 0 {
      assert (x + b)[..|x + b| - 1] == x + b[..|b| - 1];
      StripRightPadded(x, b[..|b| - 1]);
    } else {
      assert x + b == x;
    }
  }

  /** Stripping twice is stripping once. */
  lemma StripIdempotent(s: string)
    ensures Strip(Strip(s)) == Strip(s)
  {
    StripPadded([], Strip(s), []);
    assert [] + Strip(s) + [] == Strip(s);
  }

  /** Stripping a padded string is stripping the string itself. */
  lemma StripIgnoresPadding(s: string, before: string, after: string)
    requires AllSpace(before) && AllSpace(after)
    ensures Strip(before + s + after) == Strip(s)
  {
    var a, b := StripSplit(s);
    var x := Strip(s);
    AllSpaceConcat(before, a);
    AllSpaceConcat(b, after);
    Regroup(before, a, x, b, after);
    StripPadded(before + a, x, b + after);
  }

  /** Every string is its stripped form with whitespace on either side. */
  lemma StripSplit(s: string) returns (a: string, b: string)
    ensures AllSpace(a) && AllSpace(b)
    ensures s == a + Strip(s) + b
  {
    var l := StripLeft(s);
    var r := StripRight(l);
    a, b := s[..|s| - |l|], l[|r|..];
    SplitAt(s, |s| - |l|);
    SplitAt(l, |r|);
    Substitute(s, a, l, r, b);
  }

  lemma Substitute<T>(s: seq<T>, a: seq<T>, l: seq<T>, r: seq<T>, b: seq<T>)
    requires s == a + l && l == r + b
    ensures s == a + r + b
  {
  }

  lemma SplitAt<T>(s: seq<T>, i: nat)
    requires i <= |s|
    ensures s == s[..i] + s[i..]
  {
  }

  lemma Regroup<T>(p: seq<T>, a: seq<T>, x: seq<T>, b: seq<T>, q: seq<T>)
    ensures p + (a + x + b) + q == (p + a) + x + (b + q)
  {
  }

  lemma AllSpaceConcat(a: string, b: string)
    requires AllSpace(a) && AllSpace(b)
    ensures AllSpace(a + b)
  {
    forall k | 0 <= k < |a + b| ensures IsSpace((a + b)[k]) {
      if k >= |a| {
        assert (a + b)[k] == b[k - |a|];
      }
    }
  }

  /** A string strips to nothing exactly when it is all whitespace. */
  lemma StripEmptyIffAllSpace(s: string)
    ensures Strip(s) == [] <==> AllSpace(s)
  {
    var a, b := StripSplit(s);
    if Strip(s) == [] {
      assert s == a + b;
      AllSpaceConcat(a, b);
    } else {
      assert s[|a|] == Strip(s)[0];
    }
  }

  /** `str.startswith(prefix)`. */
  predicate StartsWith(s: string, prefix: string) {
    |prefix| <= |s| && s[..|prefix|] == prefix
  }
}
