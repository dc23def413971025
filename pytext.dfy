/** The few Python `str` operations the gateway relies on, on `seq<char>`:
    `startswith`, `replace(pat, "")`, `strip()` and `str(n)` of a
    non-negative `int`. */
module PyText {

  /** Python's `c.isspace()` for a single character: TAB..CR, FS..US,
      SPACE, NEL, NO-BREAK SPACE, OGHAM SPACE MARK, EN QUAD..HAIR SPACE,
      LINE and PARAGRAPH SEPARATOR, NARROW NO-BREAK SPACE, MEDIUM
      MATHEMATICAL SPACE and IDEOGRAPHIC SPACE. */
  predicate IsSpace(c: char) {
    || ('\t' <= c <= '\r')
    || ('\U{1C}' <= c <= ' ')
    || c == '\U{85}'
    || c == '\U{A0}'
    || c == '\U{1680}'
    || ('\U{2000}' <= c <= '\U{200A}')
    || c == '\U{2028}'
    || c == '\U{2029}'
    || c == '\U{202F}'
    || c == '\U{205F}'
    || c == '\U{3000}'
  }

  /** The same set written out code point by code point: Unicode's
      White_Space characters together with FS, GS, RS and US
      (U+001C..U+001F), which Python also counts as whitespace. */
  const PythonWhitespace: set<char> := {
    '\t', '\n', '\U{0B}', '\U{0C}', '\r',
    '\U{1C}', '\U{1D}', '\U{1E}', '\U{1F}', ' ',
    '\U{85}', '\U{A0}', '\U{1680}',
    '\U{2000}', '\U{2001}', '\U{2002}', '\U{2003}', '\U{2004}', '\U{2005}',
    '\U{2006}', '\U{2007}', '\U{2008}', '\U{2009}', '\U{200A}',
    '\U{2028}', '\U{2029}', '\U{202F}', '\U{205F}', '\U{3000}'
  }

  /** `isspace` holds for exactly the listed code points. */
  lemma IsSpaceCodePoints(c: char)
    ensures IsSpace(c) <==> c in PythonWhitespace
  {
    if '\t' <= c <= '\r' {
      assert c == '\t' || c == '\n' || c == '\U{0B}' || c == '\U{0C}' || c == '\r';
    } else if '\U{1C}' <= c <= ' ' {
      assert c == '\U{1C}' || c == '\U{1D}' || c == '\U{1E}' || c == '\U{1F}' || c == ' ';
    } else if '\U{2000}' <= c <= '\U{200A}' {
      assert c as int - 0x2000 in {0, 1, 2, 3, 4, 5, 6, 7, 8, 9, 10};
    }
  }

  predicate AllSpace(s: string) {
    forall i | 0 <= i < |s| :: IsSpace(s[i])
  }

  /** Python's `s.startswith(prefix)`: exact and case-sensitive. */
  predicate StartsWith(s: string, prefix: string) {
    |prefix| <= |s| && s[..|prefix|] == prefix
  }

  /** `startswith` compares character by character, so case matters. */
  lemma StartsWithPointwise(s: string, prefix: string)
    ensures StartsWith(s, prefix) <==>
      |prefix| <= |s| && forall i | 0 <= i < |prefix| :: s[i] == prefix[i]
  {
    if |prefix| <= |s| && forall i | 0 <= i < |prefix| :: s[i] == prefix[i] {
      assert s[..|prefix|] == prefix;
    }
  }

  predicate OccursAt(s: string, pat: string, i: int) {
    0 <= i && i + |pat| <= |s| && s[i..i + |pat|] == pat
  }

  /** `pat in s`: the pattern starts here, or somewhere further on. */
  predicate Occurs(s: string, pat: string)
    decreases |s|
  {
    |pat| <= |s| && (StartsWith(s, pat) || Occurs(s[1..], pat))
  }

  /** `Occurs` holds exactly when the pattern sits at some position. */
  lemma {:induction false} OccursSomewhere(s: string, pat: string)
    ensures Occurs(s, pat) <==> exists i | 0 <= i <= |s| :: OccursAt(s, pat, i)
    decreases |s|
  {
    if |pat| <= |s| {
      assert s[..|pat|] == s[0..|pat|];
      if StartsWith(s, pat) {
        assert OccursAt(s, pat, 0);
      } else {
        assert s != [];
        OccursSomewhere(s[1..], pat);
        assert s == [s[0]] + s[1..];
        if Occurs(s[1..], pat) {
          var i :| 0 <= i <= |s[1..]| && OccursAt(s[1..], pat, i);
          OccursAtAfter(s[0], s[1..], pat, i);
          assert OccursAt(s, pat, i + 1);
        }
        if exists i | 0 <= i <= |s| :: OccursAt(s, pat, i) {
          var i :| 0 <= i <= |s| && OccursAt(s, pat, i);
          assert i != 0;
          OccursAtAfter(s[0], s[1..], pat, i - 1);
          assert OccursAt(s[1..], pat, i - 1);
        }
      }
    }
  }

  // ---------------------------------------------------------------------
  // str.replace(pat, "")

  /** Python's `s.replace(pat, "")`: scanning left to right, every
      non-overlapping occurrence of `pat` is cut out. */
  function RemoveAll(s: string, pat: string): (r: string)
    requires pat != []
    ensures |r| <= |s|
    ensures !Occurs(s, pat) ==> r == s
    decreases |s|
  {
    if |s| < |pat| then
      s
    else if s[..|pat|] == pat then
      RemoveAll(s[|pat|..], pat)
    else
      assert s == [s[0]] + s[1..];
      [s[0]] + RemoveAll(s[1..], pat)
  }

  /** A leading occurrence is consumed, and scanning resumes right after it. */
  lemma RemoveAllLeading(pat: string, t: string)
    requires pat != []
    ensures RemoveAll(pat + t, pat) == RemoveAll(t, pat)
  {
    assert (pat + t)[..|pat|] == pat;
    assert (pat + t)[|pat|..] == t;
  }

  /** `replace` cuts the leftmost occurrence and resumes scanning right
      after it: what comes before it is kept as it is. */
  lemma {:induction false} RemoveAllFirst(a: string, pat: string, b: string)
    requires pat != []
    requires forall i | 0 <= i < |a| :: !OccursAt(a + pat + b, pat, i)
    ensures RemoveAll(a + pat + b, pat) == a + RemoveAll(b, pat)
    decreases |a|
  {
    if a == [] {
      assert a + pat + b == pat + b;
      RemoveAllLeading(pat, b);
    } else {
      NoOccurrenceShift(a, pat, b);
      RemoveAllFirst(a[1..], pat, b);
      SplitFirst(a, pat, b, RemoveAll(b, pat));
      RemoveAllKeeps(a[0], a[1..] + pat + b, pat);
    }
  }

  /** No occurrence starts inside `a`, so none starts inside `a[1..]`. */
  lemma NoOccurrenceShift(a: string, pat: string, b: string)
    requires a != []
    requires forall i | 0 <= i < |a| :: !OccursAt(a + pat + b, pat, i)
    ensures forall i | 0 <= i < |a[1..]| :: !OccursAt(a[1..] + pat + b, pat, i)
  {
    var rest := a[1..] + pat + b;
    assert a + pat + b == [a[0]] + rest by { assert a == [a[0]] + a[1..]; }
    forall i | 0 <= i < |a[1..]| ensures !OccursAt(rest, pat, i) {
      assert !OccursAt([a[0]] + rest, pat, i + 1);
      OccursAtAfter(a[0], rest, pat, i);
    }
  }

  lemma SplitFirst(a: string, pat: string, b: string, r: string)
    requires a != []
    ensures a + pat + b == [a[0]] + (a[1..] + pat + b)
    ensures a + r == [a[0]] + (a[1..] + r)
    ensures OccursAt(a + pat + b, pat, 0) <==> StartsWith([a[0]] + (a[1..] + pat + b), pat)
  {
    assert a == [a[0]] + a[1..];
    var s := a + pat + b;
    assert s[..|pat|] == s[0..|pat|];
  }

  lemma OccursAtAfter(c: char, t: string, pat: string, i: nat)
    ensures OccursAt([c] + t, pat, i + 1) <==> OccursAt(t, pat, i)
  {
    if i + |pat| <= |t| {
      assert ([c] + t)[i + 1..i + 1 + |pat|] == t[i..i + |pat|];
    }
  }

  /** Where no occurrence starts, the first character is kept. */
  lemma RemoveAllKeeps(c: char, t: string, pat: string)
    requires pat != [] && !StartsWith([c] + t, pat)
    ensures RemoveAll([c] + t, pat) == [c] + RemoveAll(t, pat)
  {
    assert ([c] + t)[1..] == t;
  }

  /** Cutting an occurrence out of the middle can join the pieces around it
      into a fresh occurrence: in `x y pat w`, where `pat` is `x y w` and no
      occurrence starts at `x` or `y`, only the inner `pat` is cut, and what
      is left is `pat` again. */
  lemma RemoveAllJoins(x: char, y: char, w: string)
    requires !StartsWith([x] + ([y] + (([x] + ([y] + w)) + w)), [x] + ([y] + w))
    requires !StartsWith([y] + (([x] + ([y] + w)) + w), [x] + ([y] + w))
    ensures RemoveAll([x] + ([y] + (([x] + ([y] + w)) + w)), [x] + ([y] + w)) == [x] + ([y] + w)
  {
    var pat := [x] + ([y] + w);
    RemoveAllKeeps(x, [y] + (pat + w), pat);
    RemoveAllKeeps(y, pat + w, pat);
    RemoveAllLeading(pat, w);
    assert RemoveAll(w, pat) == w;
  }

  /** Removal is not idempotent: `"BeBearer arer "` loses its one
      occurrence of `"Bearer "` and becomes `"Bearer "`. */
  lemma RemoveAllCanLeaveOccurrence(s: string, pat: string)
    requires s == "BeBearer arer " && pat == "Bearer "
    ensures RemoveAll(s, pat) == pat
    ensures Occurs(RemoveAll(s, pat), pat)
  {
    var w := "arer ";
    assert pat == ['B'] + (['e'] + w);
    assert s == ['B'] + (['e'] + (pat + w));
    assert s[2] != pat[2];
    assert (['e'] + (pat + w))[0] != pat[0];
    RemoveAllJoins('B', 'e', w);
    assert OccursAt(pat, pat, 0);
  }

  // ---------------------------------------------------------------------
  // str.strip()

  /** `r` is what `s.lstrip()` gives: a suffix of `s` that does not start
      with whitespace, and what is cut off in front of it is all whitespace. */
  predicate LeftTrimmed(s: string, r: string) {
    |r| <= |s| && r == s[|s| - |r|..] && AllSpace(s[..|s| - |r|]) && (r == [] || !IsSpace(r[0]))
  }

  /** `r` is what `s.rstrip()` gives: a prefix of `s` that does not end with
      whitespace, and what is cut off after it is all whitespace. */
  predicate RightTrimmed(s: string, r: string) {
    |r| <= |s| && r == s[..|r|] && AllSpace(s[|r|..]) && (r == [] || !IsSpace(r[|r| - 1]))
  }

  /** `r` is what `s.strip()` gives: a slice of `s` with only whitespace on
      either side and none at its own ends, empty exactly when `s` is all
      whitespace. */
  predicate Stripped(s: string, r: string) {
    && (r == [] || (!IsSpace(r[0]) && !IsSpace(r[|r| - 1])))
    && (r == [] <==> AllSpace(s))
    && exists i :: 0 <= i <= |s| - |r| && s[i..i + |r|] == r
                   && AllSpace(s[..i]) && AllSpace(s[i + |r|..])
  }

  /** Python's `s.lstrip()`. */
  function TrimLeft(s: string): (r: string)
    ensures LeftTrimmed(s, r)
  {
    if s != [] && IsSpace(s[0]) then
      var r := TrimLeft(s[1..]);
      assert s[..|s| - |r|] == [s[0]] + s[1..][..|s| - 1 - |r|];
      r
    else
      s
  }

  /** Python's `s.rstrip()`. */
  function TrimRight(s: string): (r: string)
    ensures RightTrimmed(s, r)
  {
    if s != [] && IsSpace(s[|s| - 1]) then
      var r := TrimRight(s[..|s| - 1]);
      assert s[|r|..] == s[..|s| - 1][|r|..] + [s[|s| - 1]];
      r
    else
      s
  }

  /** Python's `s.strip()`: the middle of `s` once the whitespace on both
      sides is gone. */
  function Strip(s: string): (r: string)
    ensures Stripped(s, r)
  {
    var t := TrimLeft(s);
    var r := TrimRight(t);
    StripParts(s, t, r);
    r
  }

  lemma AllSpaceConcat(a: string, b: string)
    ensures AllSpace(a + b) <==> AllSpace(a) && AllSpace(b)
  {
    if AllSpace(a + b) {
      forall k | 0 <= k < |a| ensures IsSpace(a[k]) { assert (a + b)[k] == a[k]; }
      forall k | 0 <= k < |b| ensures IsSpace(b[k]) { assert (a + b)[|a| + k] == b[k]; }
    }
    if AllSpace(a) && AllSpace(b) {
      forall k | 0 <= k < |a + b| ensures IsSpace((a + b)[k]) {
        if k < |a| { assert (a + b)[k] == a[k]; } else { assert (a + b)[k] == b[k - |a|]; }
      }
    }
  }

  lemma StripParts(s: string, t: string, r: string)
    requires LeftTrimmed(s, t) && RightTrimmed(t, r)
    ensures Stripped(s, r)
  {
    var i := |s| - |t|;
    var lead, trail := s[..i], t[|r|..];
    assert s == lead + t;
    assert t == r + trail;
    assert s[i..i + |r|] == r by {
      assert s[i..] == t;
      assert s[i..i + |r|] == s[i..][..|r|];
    }
    assert s[i + |r|..] == trail by {
      assert s[i..] == t;
      assert s[i + |r|..] == s[i..][|r|..];
    }
    if r == [] {
      assert trail == t;
      AllSpaceConcat(lead, t);
    } else {
      assert r[0] == t[0];
    }
  }

  lemma {:induction false} TrimLeftOfSpaces(a: string, m: string)
    requires AllSpace(a)
    requires m == [] || !IsSpace(m[0])
    ensures TrimLeft(a + m) == m
    decreases |a|
  {
    if a == [] {
      assert a + m == m;
    } else {
      assert (a + m)[1..] == a[1..] + m;
      TrimLeftOfSpaces(a[1..], m);
    }
  }

  lemma {:induction false} TrimRightOfSpaces(m: string, b: string)
    requires AllSpace(b)
    requires m == [] || !IsSpace(m[|m| - 1])
    ensures TrimRight(m + b) == m
    decreases |b|
  {
    if b == [] {
      assert m + b == m;
    } else {
      assert (m + b)[..|m + b| - 1] == m + b[..|b| - 1];
      TrimRightOfSpaces(m, b[..|b| - 1]);
    }
  }

  /** Whatever whitespace surrounds a word without edge whitespace, strip
      gives back exactly that word. */
  lemma StripSurrounded(a: string, m: string, b: string)
    requires AllSpace(a) && AllSpace(b)
    requires m == [] || (!IsSpace(m[0]) && !IsSpace(m[|m| - 1]))
    ensures Strip(a + m + b) == m
  {
    if m == [] {
      assert a + m + b == a + b;
      assert AllSpace(a + b) by {
        forall k | 0 <= k < |a + b| ensures IsSpace((a + b)[k]) {
          if k >= |a| { assert (a + b)[k] == b[k - |a|]; }
        }
      }
    } else {
      assert a + m + b == a + (m + b);
      TrimLeftOfSpaces(a, m + b);
      TrimRightOfSpaces(m, b);
    }
  }

  /** A word without edge whitespace is its own strip. */
  lemma StripUnchanged(m: string)
    requires m == [] || (!IsSpace(m[0]) && !IsSpace(m[|m| - 1]))
    ensures Strip(m) == m
  {
    assert TrimLeft(m) == m;
    assert TrimRight(m) == m;
  }

  lemma StripIdempotent(s: string)
    ensures Strip(Strip(s)) == Strip(s)
  {
    var r := Strip(s);
    assert Stripped(s, r);
    assert r == [] || (!IsSpace(r[0]) && !IsSpace(r[|r| - 1]));
    StripUnchanged(r);
  }

  // ---------------------------------------------------------------------
  // str(n) for n >= 0

  predicate IsDigit(c: char) { '0' <= c <= '9' }

  predicate AllDigits(s: string) {
    forall i | 0 <= i < |s| :: IsDigit(s[i])
  }

  function DigitChar(d: nat): (c: char)
    requires d < 10
    ensures IsDigit(c) && c as int - '0' as int == d
  {
    (('0' as int) + d) as char
  }

  /** Python's `str(n)` (and f-string interpolation) for a non-negative
      `int`: decimal digits, no leading zeros. */
  function Decimal(n: nat): (r: string)
    ensures |r| >= 1 && AllDigits(r)
    ensures r[0] == '0' ==> n == 0 && r == "0"
    decreases n
  {
    if n < 10 then [DigitChar(n)] else Decimal(n / 10) + [DigitChar(n % 10)]
  }

  /** The number a string of decimal digits denotes. */
  function DecimalValue(s: string): nat
    requires AllDigits(s)
  {
    if s == [] then 0
    else 10 * DecimalValue(s[..|s| - 1]) + (s[|s| - 1] as int - '0' as int)
  }

  lemma {:induction false} DecimalRoundTrip(n: nat)
    ensures DecimalValue(Decimal(n)) == n
    decreases n
  {
    if n >= 10 {
      var r := Decimal(n);
      assert r[..|r| - 1] == Decimal(n / 10);
      DecimalRoundTrip(n / 10);
    }
  }

  lemma DecimalInjective(a: nat, b: nat)
    ensures Decimal(a) == Decimal(b) <==> a == b
  {
    DecimalRoundTrip(a);
    DecimalRoundTrip(b);
  }
}
