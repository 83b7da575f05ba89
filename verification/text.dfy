/** Strings as sequences of Unicode scalar values, with the whitespace set and
    the `trim` of ECMAScript's String.prototype.trim, and infix search. */
module Text {

  /** WhiteSpace and LineTerminator code points of ECMA-262 (section 12.2 and
      12.3): tab, LF, VT, FF, CR, space, no-break space, the Zs category, the
      line and paragraph separators, and the byte order mark. */
  predicate IsWhitespace(c: char) {
    var n := c as int;
    || n == 0x09 || n == 0x0A || n == 0x0B || n == 0x0C || n == 0x0D
    || n == 0x20 || n == 0xA0 || n == 0x1680
    || (0x2000 <= n <= 0x200A)
    || n == 0x2028 || n == 0x2029 || n == 0x202F || n == 0x205F
    || n == 0x3000 || n == 0xFEFF
  }

  predicate AllWhitespace(s: string) {
    forall i :: 0 <= i < |s| ==> IsWhitespace(s[i])
  }

  /** Empty, or neither end is whitespace: the shape `trim` produces. */
  predicate Trimmed(s: string) {
    |s| == 0 || (!IsWhitespace(s[0]) && !IsWhitespace(s[|s| - 1]))
  }

  /** The number of leading whitespace characters. */
  function LeadLen(s: string): (k: nat)
    ensures k <= |s|
    ensures AllWhitespace(s[..k])
    ensures k == |s| || !IsWhitespace(s[k])
  {
    if |s| > 0 && IsWhitespace(s[0]) then
      var k := LeadLen(s[1..]);
      assert s[..k + 1] == [s[0]] + s[1..][..k];
      k + 1
    else 0
  }

  /** The number of trailing whitespace characters. */
  function TrailLen(s: string): (k: nat)
    ensures k <= |s|
    ensures AllWhitespace(s[|s| - k..])
    ensures k == |s| || !IsWhitespace(s[|s| - k - 1])
  {
    if |s| > 0 && IsWhitespace(s[|s| - 1]) then
      var init := s[..|s| - 1];
      var k := TrailLen(init);
      assert s[|s| - (k + 1)..] == init[|init| - k..] + [s[|s| - 1]];
      k + 1
    else 0
  }

  /** Drops leading whitespace. */
  function TrimStart(s: string): (r: string)
  {
    s[LeadLen(s)..]
  }

  /** Drops trailing whitespace. */
  function TrimEnd(s: string): (r: string)
  {
    s[..|s| - TrailLen(s)]
  }

  /** String.prototype.trim: the infix left once the leading and the trailing
      whitespace are cut; it starts and ends with non-whitespace. */
  function Trim(s: string): (r: string)
    ensures Trimmed(r)
    ensures AllWhitespace(s[..LeadLen(s)])
    ensures LeadLen(s) + |r| <= |s| && r == s[LeadLen(s)..LeadLen(s) + |r|]
    ensures AllWhitespace(s[LeadLen(s) + |r|..])
  {
    var k := LeadLen(s);
    var t := s[k..];
    var r := TrimEnd(t);
    assert s[k + |r|..] == t[|r|..];
    assert |r| > 0 ==> r[0] == t[0];
    r
  }

  /** Trimming all whitespace leaves nothing. */
  lemma TrimAllWhitespace(s: string)
    requires AllWhitespace(s)
    ensures Trim(s) == []
  {
  }

  /** `!s.trim()` holds exactly for the all-whitespace strings. */
  lemma TrimEmptyIffBlank(s: string)
    ensures Trim(s) == [] <==> AllWhitespace(s)
  {
    var r := Trim(s);
    var k := LeadLen(s);
    if |r| == 0 {
      assert AllWhitespace(s[k + |r|..]);
      assert s == s[..k] + s[k + |r|..];
      AllWhitespaceConcat(s[..k], s[k + |r|..]);
    } else if AllWhitespace(s) {
      TrimAllWhitespace(s);
    }
  }

  lemma {:induction false} TrimStartSkips(a: string, t: string)
    requires AllWhitespace(a)
    ensures TrimStart(a + t) == TrimStart(t)
    decreases |a|
  {
    if |a| > 0 {
      assert (a + t)[1..] == a[1..] + t;
      TrimStartSkips(a[1..], t);
    } else {
      assert a + t == t;
    }
  }

  lemma {:induction false} TrimEndSkips(t: string, b: string)
    requires AllWhitespace(b)
    ensures TrimEnd(t + b) == TrimEnd(t)
    decreases |b|
  {
    if |b| > 0 {
      assert (t + b)[..|t + b| - 1] == t + b[..|b| - 1];
      TrimEndSkips(t, b[..|b| - 1]);
    } else {
      assert t + b == t;
    }
  }

  /** The characterisation of `trim`: whatever trimmed text is surrounded by
      whitespace on both sides, trimming recovers exactly that text. */
  lemma TrimUnique(a: string, m: string, b: string)
    requires AllWhitespace(a) && AllWhitespace(b) && Trimmed(m)
    ensures Trim(a + m + b) == m
  {
    if |m| == 0 {
      assert a + m + b == a + b;
      TrimAllWhitespace(a + b);
    } else {
      assert a + m + b == a + (m + b);
      TrimStartSkips(a, m + b);
      assert TrimStart(m + b) == m + b;
      TrimEndSkips(m, b);
    }
  }

  /** `trim` is idempotent. */
  lemma TrimIdempotent(s: string)
    ensures Trim(Trim(s)) == Trim(s)
  {
    var m := Trim(s);
    assert [] + m + [] == m;
    TrimUnique([], m, []);
  }

  lemma AllWhitespaceConcat(a: string, b: string)
    requires AllWhitespace(a) && AllWhitespace(b)
    ensures AllWhitespace(a + b)
  {
    forall i | 0 <= i < |a + b|
      ensures IsWhitespace((a + b)[i])
    {
      if i >= |a| {
        assert (a + b)[i] == b[i - |a|];
      }
    }
  }

  /** A string is the concatenation of the three slices two cut points
      make. */
  lemma SplitAt(p: string, i: nat, j: nat)
    requires i <= j <= |p|
    ensures p == p[..i] + p[i..j] + p[j..]
  {
    assert p[i..] == p[i..j] + p[j..];
    assert p == p[..i] + p[i..];
  }

  lemma Regroup(a: string, x: string, m: string, y: string, b: string)
    ensures a + (x + m + y) + b == (a + x) + m + (y + b)
  {
  }

  /** Whitespace added on either side does not change the trimmed text. */
  lemma TrimIgnoresPadding(a: string, p: string, b: string)
    requires AllWhitespace(a) && AllWhitespace(b)
    ensures Trim(a + p + b) == Trim(p)
  {
    var m := Trim(p);
    var k := LeadLen(p);
    var lead := p[..k];
    var trail := p[k + |m|..];
    SplitAt(p, k, k + |m|);
    Regroup(a, lead, m, trail, b);
    AllWhitespaceConcat(a, lead);
    AllWhitespaceConcat(trail, b);
    TrimUnique(a + lead, m, trail + b);
  }

  /** `pat` occurs in `s` starting at index `i`. */
  predicate OccursAt(s: string, pat: string, i: int) {
    0 <= i && i + |pat| <= |s| && s[i..i + |pat|] == pat
  }

  predicate Contains(s: string, pat: string) {
    exists i | 0 <= i <= |s| :: OccursAt(s, pat, i)
  }
}
