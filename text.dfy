/**
 * Character classes and string helpers for the Python string operations the
 * service relies on: the regular-expression classes `\s` and `\w`, `str.strip`,
 * `str.rstrip`, `str.find` and the `in` substring test.
 */
module Text {
  import opened Wrappers

  /** Python's `str.isspace` (the set `\s` matches in a `str` pattern), by code point. */
  predicate IsSpace(c: char) {
    var n := c as int;
    n == 0x20 || 0x09 <= n <= 0x0D || 0x1C <= n <= 0x1F || n == 0x85 || n == 0xA0 ||
    n == 0x1680 || 0x2000 <= n <= 0x200A || n == 0x2028 || n == 0x2029 ||
    n == 0x202F || n == 0x205F || n == 0x3000
  }

  /** `\w`, restricted to ASCII letters, digits and the underscore. */
  predicate IsWord(c: char) {
    ('a' <= c <= 'z') || ('A' <= c <= 'Z') || ('0' <= c <= '9') || c == '_'
  }

  /** The two classes a greedy run can range over in the import patterns. */
  datatype CharClass = Space | Word

  predicate InClass(c: char, cls: CharClass) {
    match cls
    case Space => IsSpace(c)
    case Word => IsWord(c)
  }

  /** Every character of `s[lo..hi]` belongs to `cls`. */
  ghost predicate AllIn(s: string, lo: nat, hi: nat, cls: CharClass)
    requires lo <= hi <= |s|
  {
    forall k :: lo <= k < hi ==> InClass(s[k], cls)
  }

  /**
   * End of the longest run of `cls` characters starting at `i`: what a greedy
   * `\s*` or `\w*` consumes from position `i`.
   */
  function Span(s: string, i: nat, cls: CharClass): (j: nat)
    requires i <= |s|
    ensures i <= j <= |s|
    ensures forall k {:trigger InClass(s[k], cls)} :: i <= k < j ==> InClass(s[k], cls)
    ensures j == |s| || !InClass(s[j], cls)
    decreases |s| - i
  {
    if i < |s| && InClass(s[i], cls) then Span(s, i + 1, cls) else i
  }

  /** A run that is all `cls` and stops at a non-`cls` character is the greedy run. */
  lemma SpanIs(s: string, i: nat, j: nat, cls: CharClass)
    requires i <= j <= |s|
    requires AllIn(s, i, j, cls)
    requires j == |s| || !InClass(s[j], cls)
    ensures Span(s, i, cls) == j
  {
  }

  /** `lit` occurs in `s` at position `i`. */
  predicate StartsAt(s: string, i: nat, lit: string) {
    i + |lit| <= |s| && s[i..i + |lit|] == lit
  }

  /** Index of the first occurrence of `pat` in `s` at or after `i`, as `str.find`. */
  function FindFrom(s: string, pat: string, i: nat): (r: Option<nat>)
    requires i <= |s|
    ensures r.Some? ==> i <= r.value <= |s| && StartsAt(s, r.value, pat)
    ensures r.Some? ==> forall k :: i <= k < r.value ==> !StartsAt(s, k, pat)
    ensures r.None? ==> forall k :: i <= k <= |s| ==> !StartsAt(s, k, pat)
    decreases |s| - i
  {
    if StartsAt(s, i, pat) then Some(i)
    else if i == |s| then None
    else FindFrom(s, pat, i + 1)
  }

  /** Python's `pat in s`. */
  predicate Contains(s: string, pat: string) {
    FindFrom(s, pat, 0).Some?
  }

  /** The positions at which `pat` occurs in `s`. */
  ghost function Occurrences(s: string, pat: string): set<nat> {
    set i: nat | i <= |s| && StartsAt(s, i, pat)
  }

  lemma ContainsIff(s: string, pat: string)
    ensures Contains(s, pat) <==> exists k :: 0 <= k <= |s| && StartsAt(s, k, pat)
  {
  }

  /** An occurrence inside `s[..n]` is an occurrence inside `s`, and back. */
  lemma StartsAtPrefix(s: string, n: nat, k: nat, pat: string)
    requires n <= |s|
    requires k + |pat| <= n
    ensures StartsAt(s[..n], k, pat) <==> StartsAt(s, k, pat)
  {
    assert s[..n][k..k + |pat|] == s[k..k + |pat|];
  }

  /** An occurrence inside `s[d..]` is an occurrence in `s` shifted by `d`. */
  lemma StartsAtSuffix(s: string, d: nat, k: nat, pat: string)
    requires d <= |s|
    ensures StartsAt(s[d..], k, pat) <==> StartsAt(s, d + k, pat)
  {
    if d + k + |pat| <= |s| {
      assert s[d..][k..k + |pat|] == s[d + k..d + k + |pat|];
    }
  }

  /** `str.rstrip()`: drop trailing whitespace. */
  function RStrip(s: string): (r: string)
    ensures |r| <= |s| && r == s[..|r|]
    ensures forall k :: |r| <= k < |s| ==> IsSpace(s[k])
    ensures r == [] || !IsSpace(r[|r| - 1])
  {
    if |s| > 0 && IsSpace(s[|s| - 1]) then RStrip(s[..|s| - 1]) else s
  }

  /** `str.lstrip()`: drop leading whitespace. */
  function LStrip(s: string): (r: string)
    ensures |r| <= |s| && r == s[|s| - |r|..]
    ensures forall k :: 0 <= k < |s| - |r| ==> IsSpace(s[k])
    ensures r == [] || !IsSpace(r[0])
  {
    if |s| > 0 && IsSpace(s[0]) then LStrip(s[1..]) else s
  }

  /** `str.strip()`: drop leading and trailing whitespace. */
  function Strip(s: string): (r: string)
    ensures r == [] || (!IsSpace(r[0]) && !IsSpace(r[|r| - 1]))
  {
    LStrip(RStrip(s))
  }

  ghost predicate AllSpace(w: string) {
    forall k :: 0 <= k < |w| ==> IsSpace(w[k])
  }

  /** Whitespace around a core that neither starts nor ends with whitespace is what strip removes. */
  lemma {:induction false} StripOf(lead: string, core: string, trail: string)
    requires AllSpace(lead) && AllSpace(trail)
    requires core == [] || (!IsSpace(core[0]) && !IsSpace(core[|core| - 1]))
    ensures Strip(lead + core + trail) == core
  {
    var s := lead + core + trail;
    var n := |lead| + |core|;
    assert forall k :: n <= k < |s| ==> IsSpace(s[k]) by {
      forall k | n <= k < |s| ensures IsSpace(s[k]) { assert s[k] == trail[k - n]; }
    }
    assert forall k :: 0 <= k < |lead| ==> IsSpace(s[k]) by {
      forall k | 0 <= k < |lead| ensures IsSpace(s[k]) { assert s[k] == lead[k]; }
    }
    var r := RStrip(s);
    if core == [] {
      assert |r| <= |lead|;
      assert forall k :: 0 <= k < |r| ==> IsSpace(r[k]);
      var l := LStrip(r);
      assert |l| == 0;
    } else {
      assert !IsSpace(s[n - 1]) && !IsSpace(s[|lead|]) by {
        assert s[n - 1] == core[|core| - 1];
        assert s[|lead|] == core[0];
      }
      assert |r| == n;
      assert r == lead + core by { assert r == s[..n]; }
      var l := LStrip(r);
      assert l == r[|r| - |l|..];
      assert |l| == |core|;
      assert l == core by { assert l == r[|lead|..]; }
    }
  }

  /** Trailing whitespace after `s` is what `rstrip` removes. */
  lemma {:induction false} RStripTrailing(s: string, t: string)
    requires AllSpace(t)
    ensures RStrip(s + t) == RStrip(s)
    decreases |t|
  {
    if t != [] {
      var u := s + t;
      assert u[|u| - 1] == t[|t| - 1];
      assert u[..|u| - 1] == s + t[..|t| - 1];
      RStripTrailing(s, t[..|t| - 1]);
    } else {
      assert s + t == s;
    }
  }

  /** Leading whitespace of `a` is all `lstrip` removes when `b` starts with a non-space. */
  lemma {:induction false} LStripAppend(a: string, b: string)
    requires b != [] && !IsSpace(b[0])
    ensures LStrip(a + b) == LStrip(a) + b
    decreases |a|
  {
    if a == [] {
      assert a + b == b;
    } else {
      assert (a + b)[0] == a[0];
      if IsSpace(a[0]) {
        assert (a + b)[1..] == a[1..] + b;
        LStripAppend(a[1..], b);
      }
    }
  }

  /** Regrouping concatenations, stated once so that no proof reasons about it with literals in scope. */
  lemma Assoc(a: string, b: string, c: string)
    ensures a + (b + c) == a + b + c
  {
  }

  lemma Regroup(x: string, y: string, z: string, w: string)
    ensures x + y + z + w == x + (y + z) + w
  {
  }

  lemma RegroupThree(x: string, a: string, b: string, c: string, w: string)
    ensures x + a + b + c + w == x + (a + b + c) + w
  {
  }

  /** An occurrence in a suffix is an occurrence in the whole text. */
  lemma ContainsSuffix(s: string, d: nat, pat: string)
    requires d <= |s| && Contains(s[d..], pat)
    ensures Contains(s, pat)
  {
    var k := FindFrom(s[d..], pat, 0).value;
    StartsAtSuffix(s, d, k, pat);
  }

  /** What `lstrip` leaves of a text without `pat` holds none either. */
  lemma LStripKeepsOut(u: string, pat: string)
    requires !Contains(u, pat)
    ensures !Contains(LStrip(u), pat)
  {
    var l := LStrip(u);
    if Contains(l, pat) {
      ContainsSuffix(u, |u| - |l|, pat);
    }
  }
}
