/**
 * Python's ordering on `str` and `str.strip()`, the two string operations the
 * pass-persist engine relies on: `<` orders OIDs for getnext, and every line
 * read from the master agent is stripped before it is looked at.
 */
module Lexical {

  /**
   * Python's `a < b` on `str`: compare code point by code point; at the first
   * difference the smaller code point wins, and a proper prefix is smaller than
   * the longer string. (Dafny's own `<` on sequences means "proper prefix".)
   */
  predicate Less(a: string, b: string)
    decreases |a|
  {
    if |b| == 0 then false
    else if |a| == 0 then true
    else if a[0] != b[0] then a[0] < b[0]
    else Less(a[1..], b[1..])
  }

  lemma {:induction false} Irreflexive(a: string)
    ensures !Less(a, a)
    decreases |a|
  {
    if |a| > 0 {
      Irreflexive(a[1..]);
    }
  }

  lemma {:induction false} Transitive(a: string, b: string, c: string)
    requires Less(a, b) && Less(b, c)
    ensures Less(a, c)
    decreases |a|
  {
    if |a| > 0 && a[0] == b[0] && b[0] == c[0] {
      Transitive(a[1..], b[1..], c[1..]);
    }
  }

  /** Any two strings are ordered one way, the other way, or are equal. */
  lemma {:induction false} Trichotomy(a: string, b: string)
    ensures Less(a, b) || a == b || Less(b, a)
    decreases |a|
  {
    if |a| > 0 && |b| > 0 && a[0] == b[0] {
      Trichotomy(a[1..], b[1..]);
      if a[1..] == b[1..] {
        assert a == [a[0]] + a[1..] && b == [b[0]] + b[1..];
      }
    }
  }

  lemma Asymmetric(a: string, b: string)
    requires Less(a, b)
    ensures !Less(b, a)
  {
    if Less(b, a) {
      Transitive(a, b, a);
      Irreflexive(a);
    }
  }

  /** A shared prefix does not affect the comparison. */
  lemma {:induction false} PrefixCancels(p: string, a: string, b: string)
    ensures Less(p + a, p + b) <==> Less(a, b)
    decreases |p|
  {
    if |p| > 0 {
      assert (p + a)[0] == p[0] == (p + b)[0];
      assert (p + a)[1..] == p[1..] + a;
      assert (p + b)[1..] == p[1..] + b;
      PrefixCancels(p[1..], a, b);
    } else {
      assert p + a == a && p + b == b;
    }
  }
}

module Whitespace {

  /**
   * The characters Python's `str.isspace()` accepts, which are the ones
   * `str.strip()` with no argument removes.
   */
  predicate IsSpace(c: char)
  {
    ('\t' <= c <= '\r') || ('\U{1C}' <= c <= ' ') || c == '\U{85}' || c == '\U{A0}'
    || c == '\U{1680}' || ('\U{2000}' <= c <= '\U{200A}') || c == '\U{2028}' || c == '\U{2029}'
    || c == '\U{202F}' || c == '\U{205F}' || c == '\U{3000}'
  }

  predicate AllSpace(s: string)
  {
    forall k | 0 <= k < |s| :: IsSpace(s[k])
  }

  /** `s.lstrip()`: a suffix of `s`, what was dropped is whitespace, and it does not start with whitespace. */
  function TrimLeft(s: string): (r: string)
    ensures |r| <= |s| && r == s[|s| - |r|..]
    ensures AllSpace(s[..|s| - |r|])
    ensures |r| > 0 ==> !IsSpace(r[0])
    decreases |s|
  {
    if |s| > 0 && IsSpace(s[0]) then TrimLeft(s[1..]) else s
  }

  /** `s.rstrip()`: a prefix of `s`, what was dropped is whitespace, and it does not end with whitespace. */
  function TrimRight(s: string): (r: string)
    ensures |r| <= |s| && r == s[..|r|]
    ensures AllSpace(s[|r|..])
    ensures |r| > 0 ==> !IsSpace(r[|r| - 1])
    decreases |s|
  {
    if |s| > 0 && IsSpace(s[|s| - 1]) then TrimRight(s[..|s| - 1]) else s
  }

  /**
   * `s.strip()`. The result has no surrounding whitespace, it is empty exactly
   * when `s` is all whitespace, and a string without surrounding whitespace is
   * left as it is.
   */
  function Strip(s: string): (r: string)
    ensures |r| > 0 ==> !IsSpace(r[0]) && !IsSpace(r[|r| - 1])
    ensures r == [] <==> AllSpace(s)
    ensures (|s| == 0 || (!IsSpace(s[0]) && !IsSpace(s[|s| - 1]))) ==> r == s
  {
    EmptyTrimIsAllSpace(s);
    TrimKeepsUnpadded(s);
    TrimRight(TrimLeft(s))
  }

  lemma EmptyTrimIsAllSpace(s: string)
    ensures TrimRight(TrimLeft(s)) == [] <==> AllSpace(s)
  {
    var l := TrimLeft(s);
    assert s == s[..|s| - |l|] + l;
  }

  lemma TrimKeepsUnpadded(s: string)
    ensures (|s| == 0 || (!IsSpace(s[0]) && !IsSpace(s[|s| - 1]))) ==> TrimRight(TrimLeft(s)) == s
  {
  }

  /** Leading whitespace in front of a string that starts with a non-space is exactly what `lstrip` removes. */
  lemma {:induction false} TrimLeftPadding(p: string, t: string)
    requires AllSpace(p) && |t| > 0 && !IsSpace(t[0])
    ensures TrimLeft(p + t) == t
    decreases |p|
  {
    if p == [] {
      assert p + t == t;
    } else {
      assert (p + t)[0] == p[0];
      assert (p + t)[1..] == p[1..] + t;
      TrimLeftPadding(p[1..], t);
    }
  }

  /** Trailing whitespace after a string that ends with a non-space is exactly what `rstrip` removes. */
  lemma {:induction false} TrimRightPadding(t: string, q: string)
    requires AllSpace(q) && |t| > 0 && !IsSpace(t[|t| - 1])
    ensures TrimRight(t + q) == t
    decreases |q|
  {
    if q == [] {
      assert t + q == t;
    } else {
      var q' := q[..|q| - 1];
      assert (t + q)[|t + q| - 1] == q[|q| - 1];
      assert (t + q)[..|t + q| - 1] == t + q';
      TrimRightPadding(t, q');
    }
  }

  /** Stripping a padded word gives back the word, whatever whitespace surrounds it. */
  lemma StripRemovesPadding(p: string, w: string, q: string)
    requires AllSpace(p) && AllSpace(q)
    requires |w| > 0 && !IsSpace(w[0]) && !IsSpace(w[|w| - 1])
    ensures Strip(p + w + q) == w
  {
    assert p + w + q == p + (w + q);
    assert (w + q)[0] == w[0];
    TrimLeftPadding(p, w + q);
    TrimRightPadding(w, q);
  }

  /** Stripping twice is stripping once. */
  lemma StripIdempotent(s: string)
    ensures Strip(Strip(s)) == Strip(s)
  {
  }
}
