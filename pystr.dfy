/**
 The two Python string methods the encoder applies to every categorical
 answer, `str.strip()` (no argument) and `str.lower()`, restricted to ASCII:
 whitespace is the set of ASCII characters for which `str.isspace` holds, and
 only the letters A-Z change case.
 */
module PyStr {

  /** ASCII characters Python treats as whitespace: TAB, LF, VT, FF, CR,
      the four separators FS, GS, RS, US, and SPACE. */
  predicate IsWhitespace(c: char) {
    var n := c as int;
    n == 32 || (9 <= n <= 13) || (28 <= n <= 31)
  }

  predicate IsUpper(c: char) {
    'A' <= c <= 'Z'
  }

  predicate AllWhitespace(s: string) {
    forall k :: 0 <= k < |s| ==> IsWhitespace(s[k])
  }

  /** No leading and no trailing whitespace. */
  predicate Trimmed(s: string) {
    s == [] || (!IsWhitespace(s[0]) && !IsWhitespace(s[|s| - 1]))
  }

  /** The left scan of `str.strip()`: from `i`, step over whitespace. */
  function StripStart(s: string, i: nat): (k: nat)
    requires i <= |s|
    ensures i <= k <= |s|
    ensures AllWhitespace(s[i..k])
    ensures k == |s| || !IsWhitespace(s[k])
    decreases |s| - i
  {
    if i < |s| && IsWhitespace(s[i]) then StripStart(s, i + 1) else i
  }

  /** The right scan of `str.strip()`: from `j` back towards `i`, step over
      whitespace. */
  function StripEnd(s: string, i: nat, j: nat): (k: nat)
    requires i <= j <= |s|
    ensures i <= k <= j
    ensures AllWhitespace(s[k..j])
    ensures k == i || !IsWhitespace(s[k - 1])
    decreases j
  {
    if j > i && IsWhitespace(s[j - 1]) then
      var k := StripEnd(s, i, j - 1);
      assert s[k..j] == s[k..j - 1] + [s[j - 1]];
      k
    else
      j
  }

  /** `str.strip()`: the slice between the two scans. */
  function Strip(s: string): (r: string)
    ensures Trimmed(r)
  {
    var i := StripStart(s, 0);
    s[i..StripEnd(s, i, |s|)]
  }

  /** What Strip keeps is one slice of `s`, and everything cut off on either
      side of it is whitespace. */
  lemma StripIsSlice(s: string)
    ensures exists i :: 0 <= i <= |s| - |Strip(s)| && s[i..i + |Strip(s)|] == Strip(s)
                        && AllWhitespace(s[..i]) && AllWhitespace(s[i + |Strip(s)|..])
  {
    var i := StripStart(s, 0);
    var j := StripEnd(s, i, |s|);
    assert s[..i] == s[0..i];
    assert s[i + |Strip(s)|..] == s[j..|s|];
  }

  function LowerChar(c: char): char {
    if IsUpper(c) then (c as int + 32) as char else c
  }

  /** `str.lower()`: every ASCII capital letter replaced by its small letter,
      every other character kept. */
  function Lower(s: string): (r: string)
    ensures |r| == |s|
  {
    seq(|s|, i requires 0 <= i < |s| => LowerChar(s[i]))
  }

  lemma {:induction false} StripStartAt(s: string, i: nat, p: nat)
    requires i <= p <= |s|
    requires AllWhitespace(s[i..p])
    requires p == |s| || !IsWhitespace(s[p])
    ensures StripStart(s, i) == p
    decreases p - i
  {
    if i < p {
      assert s[i..p][0] == s[i];
      assert s[i + 1..p] == s[i..p][1..];
      StripStartAt(s, i + 1, p);
    }
  }

  lemma {:induction false} StripEndAt(s: string, i: nat, j: nat, q: nat)
    requires i <= q <= j <= |s|
    requires AllWhitespace(s[q..j])
    requires q == i || !IsWhitespace(s[q - 1])
    ensures StripEnd(s, i, j) == q
    decreases j - q
  {
    if q < j {
      assert s[q..j][j - 1 - q] == s[j - 1];
      assert s[q..j - 1] == s[q..j][..j - 1 - q];
      StripEndAt(s, i, j - 1, q);
    }
  }

  /** Strip is determined by this property: whatever whitespace surrounds a
      trimmed core, stripping gives back exactly that core. */
  lemma StripPadded(pre: string, core: string, post: string)
    requires AllWhitespace(pre) && AllWhitespace(post)
    requires Trimmed(core)
    ensures Strip(pre + core + post) == core
  {
    var s := pre + core + post;
    if core == [] {
      assert AllWhitespace(s[0..|s|]) by {
        forall k | 0 <= k < |s| ensures IsWhitespace(s[k]) {
          if k < |pre| { assert s[k] == pre[k]; } else { assert s[k] == post[k - |pre|]; }
        }
      }
      StripStartAt(s, 0, |s|);
      StripEndAt(s, |s|, |s|, |s|);
    } else {
      var p, q := |pre|, |pre| + |core|;
      assert s[0..p] == pre;
      assert s[p] == core[0];
      StripStartAt(s, 0, p);
      assert s[q..|s|] == post;
      assert s[q - 1] == core[|core| - 1];
      StripEndAt(s, p, |s|, q);
      assert s[p..q] == core;
    }
  }

  lemma StripTrimmed(s: string)
    requires Trimmed(s)
    ensures Strip(s) == s
  {
    StripPadded([], s, []);
    assert [] + s + [] == s;
  }

  /** Lower-casing keeps whitespace where it was. */
  lemma LowerKeepsTrimmed(s: string)
    requires Trimmed(s)
    ensures Trimmed(Lower(s))
  {
  }

  lemma LowerIdempotent(s: string)
    ensures Lower(Lower(s)) == Lower(s)
  {
  }

  /** What `lower()` does to each character: a capital becomes the small
      letter 32 code points above it, anything else is kept, and no capital
      is left. */
  lemma LowerChars(s: string)
    ensures forall k :: 0 <= k < |s| ==> !IsUpper(Lower(s)[k])
    ensures forall k :: 0 <= k < |s| && IsUpper(s[k]) ==> Lower(s)[k] as int == s[k] as int + 32
    ensures forall k :: 0 <= k < |s| && !IsUpper(s[k]) ==> Lower(s)[k] == s[k]
  {
  }

  /** Two characters that differ at most in ASCII case. */
  predicate SameCharUpToCase(a: char, b: char) {
    a == b
    || (IsUpper(a) && b as int == a as int + 32)
    || (IsUpper(b) && a as int == b as int + 32)
  }

  /** Two strings that differ at most in the case of ASCII letters. */
  predicate SameUpToCase(s: string, t: string) {
    |s| == |t| && forall k :: 0 <= k < |s| ==> SameCharUpToCase(s[k], t[k])
  }

  /** Lower-casing identifies exactly the strings that differ only in case. */
  lemma LowerCaseInsensitive(s: string, t: string)
    ensures Lower(s) == Lower(t) <==> SameUpToCase(s, t)
  {
    if Lower(s) == Lower(t) {
      forall k | 0 <= k < |s| ensures SameCharUpToCase(s[k], t[k]) {
        assert LowerChar(s[k]) == Lower(s)[k] == Lower(t)[k] == LowerChar(t[k]);
      }
    }
    if SameUpToCase(s, t) {
      forall k | 0 <= k < |s| ensures Lower(s)[k] == Lower(t)[k] {
        assert SameCharUpToCase(s[k], t[k]);
      }
    }
  }

  /** A change of case never turns whitespace into something else. */
  lemma SameCaseWhitespace(a: char, b: char)
    requires SameCharUpToCase(a, b)
    ensures IsWhitespace(a) <==> IsWhitespace(b)
  {
  }

  lemma {:induction false} StripStartSameCase(s: string, t: string, i: nat)
    requires SameUpToCase(s, t) && i <= |s|
    ensures StripStart(s, i) == StripStart(t, i)
    decreases |s| - i
  {
    if i < |s| {
      SameCaseWhitespace(s[i], t[i]);
      if IsWhitespace(s[i]) {
        StripStartSameCase(s, t, i + 1);
      }
    }
  }

  lemma {:induction false} StripEndSameCase(s: string, t: string, i: nat, j: nat)
    requires SameUpToCase(s, t) && i <= j <= |s|
    ensures StripEnd(s, i, j) == StripEnd(t, i, j)
    decreases j
  {
    if j > i {
      SameCaseWhitespace(s[j - 1], t[j - 1]);
      if IsWhitespace(s[j - 1]) {
        StripEndSameCase(s, t, i, j - 1);
      }
    }
  }

  /** Stripping two strings that differ only in case cuts them at the same
      places, so the results still differ only in case. */
  lemma StripSameCase(s: string, t: string)
    requires SameUpToCase(s, t)
    ensures SameUpToCase(Strip(s), Strip(t))
  {
    StripStartSameCase(s, t, 0);
    var i := StripStart(s, 0);
    StripEndSameCase(s, t, i, |s|);
    var j := StripEnd(s, i, |s|);
    forall k | 0 <= k < j - i ensures SameCharUpToCase(s[i..j][k], t[i..j][k]) {
      assert s[i..j][k] == s[i + k] && t[i..j][k] == t[i + k];
    }
  }

  /** The characters `str.strip()` removes, listed one by one. */
  lemma WhitespaceChars(c: char)
    ensures IsWhitespace(c) <==> c in {'\t', '\n', '\U{000B}', '\U{000C}', '\r',
                                          '\U{001C}', '\U{001D}', '\U{001E}', '\U{001F}', ' '}
  {
  }
}
