/** Python's string operations that the parsers and the column-name handling use:
    `split`, `join`, `replace`, `strip`, `lower`, `in`, `startswith`, `int()`,
    decimal rendering and code-point ordering. */
module Text {
  import opened Cells

  predicate StartsWith(s: string, p: string)
  {
    |p| <= |s| && s[..|p|] == p
  }

  predicate OccursAt(s: string, p: string, k: nat)
  {
    k + |p| <= |s| && s[k..k + |p|] == p
  }

  /** Python's `p in s`. */
  predicate Contains(s: string, p: string)
  {
    exists k: nat :: k + |p| <= |s| && OccursAt(s, p, k)
  }

  /** Python's `s.split(sep)` for a non-empty separator: cut at every
      non-overlapping occurrence, scanning left to right. */
  function Split(s: string, sep: string): (r: seq<string>)
    requires |sep| > 0
    ensures |r| >= 1
    decreases |s|
  {
    if |s| < |sep| then [s]
    else if s[..|sep|] == sep then [""] + Split(s[|sep|..], sep)
    else
      var rest := Split(s[1..], sep);
      [[s[0]] + rest[0]] + rest[1..]
  }

  /** Python's `sep.join(parts)`. */
  function Join(parts: seq<string>, sep: string): string
  {
    if |parts| == 0 then ""
    else if |parts| == 1 then parts[0]
    else parts[0] + sep + Join(parts[1..], sep)
  }

  /** Python's `s.replace(pat, with)`, which is `with.join(s.split(pat))`. */
  function Replace(s: string, pat: string, with: string): string
    requires |pat| > 0
  {
    Join(Split(s, pat), with)
  }

  /** A string with no occurrence of the separator splits into itself alone. */
  lemma {:induction false} SplitNoSep(s: string, sep: string)
    requires |sep| > 0 && !Contains(s, sep)
    ensures Split(s, sep) == [s]
    decreases |s|
  {
    if |s| >= |sep| {
      assert !OccursAt(s, sep, 0);
      assert !Contains(s[1..], sep) by {
        forall k: nat | k + |sep| <= |s[1..]|
          ensures !OccursAt(s[1..], sep, k)
        {
          assert !OccursAt(s, sep, k + 1);
          assert s[1..][k..k + |sep|] == s[k + 1..k + 1 + |sep|];
        }
      }
      SplitNoSep(s[1..], sep);
      assert [s[0]] + s[1..] == s;
    }
  }

  /** When no occurrence of the separator starts inside `a`, splitting `a + t`
      glues `a` to the first piece of `t`. */
  lemma {:induction false} SplitGlue(a: string, t: string, sep: string)
    requires |sep| > 0
    requires forall k: nat :: k < |a| ==> !OccursAt(a + t, sep, k)
    ensures Split(a + t, sep) == [a + Split(t, sep)[0]] + Split(t, sep)[1..]
    decreases |a|
  {
    if a == [] {
      assert a + t == t;
      assert a + Split(t, sep)[0] == Split(t, sep)[0];
      assert Split(t, sep) == [Split(t, sep)[0]] + Split(t, sep)[1..];
    } else {
      var s := a + t;
      assert !OccursAt(s, sep, 0);
      assert s[1..] == a[1..] + t;
      if |s| < |sep| {
        assert |t| < |sep|;
      } else {
        forall k: nat | k < |a[1..]|
          ensures !OccursAt(a[1..] + t, sep, k)
        {
          assert !OccursAt(s, sep, k + 1);
          assert s[1..][k..] == s[k + 1..];
          if k + |sep| <= |s[1..]| {
            assert s[1..][k..k + |sep|] == s[k + 1..k + 1 + |sep|];
          }
        }
        SplitGlue(a[1..], t, sep);
        assert [s[0]] + (a[1..] + Split(t, sep)[0]) == a + Split(t, sep)[0];
      }
    }
  }

  /** `(a + sep + b).split(sep) == [a] + b.split(sep)` when `sep` does not start inside `a`. */
  lemma SplitAround(a: string, b: string, sep: string)
    requires |sep| > 0
    requires forall k: nat :: k < |a| ==> !OccursAt(a + sep + b, sep, k)
    ensures Split(a + sep + b, sep) == [a] + Split(b, sep)
  {
    assert a + sep + b == a + (sep + b);
    SplitGlue(a, sep + b, sep);
    assert (sep + b)[..|sep|] == sep;
    assert (sep + b)[|sep|..] == b;
    assert Split(sep + b, sep) == [""] + Split(b, sep);
    assert a + "" == a;
  }

  /** No occurrence of `sep` starts inside `a` when `a` avoids the first character of `sep`. */
  lemma NoStartIn(a: string, t: string, sep: string)
    requires |sep| > 0 && forall k :: 0 <= k < |a| ==> a[k] != sep[0]
    ensures forall k: nat :: k < |a| ==> !OccursAt(a + t, sep, k)
  {
    forall k: nat | k < |a|
      ensures !OccursAt(a + t, sep, k)
    {
      assert (a + t)[k] == a[k];
      if k + |sep| <= |a + t| {
        assert (a + t)[k..k + |sep|][0] == (a + t)[k];
      }
    }
  }

  lemma NoCharNoContains(s: string, sep: string)
    requires |sep| > 0 && forall k :: 0 <= k < |s| ==> s[k] != sep[0]
    ensures !Contains(s, sep)
  {
    NoStartIn(s, "", sep);
    assert s + "" == s;
  }

  /** An occurrence of `sep` starting inside `a` lies within `a` and all but the
      last character of `sep`. */
  lemma NoStartBeforeSep(a: string, b: string, sep: string)
    requires |sep| > 0 && !Contains(a + sep[..|sep| - 1], sep)
    ensures forall k: nat :: k < |a| ==> !OccursAt(a + sep + b, sep, k)
  {
    var w := a + sep[..|sep| - 1];
    forall k: nat | k < |a|
      ensures !OccursAt(a + sep + b, sep, k)
    {
      assert !OccursAt(w, sep, k);
    }
  }

  /** `(a + sep + b).split(sep) == [a, b]` when `sep` starts nowhere in `a` and does not occur in `b`. */
  lemma SplitPair(a: string, b: string, sep: string)
    requires |sep| > 0
    requires forall k: nat :: k < |a| ==> !OccursAt(a + sep + b, sep, k)
    requires !Contains(b, sep)
    ensures Split(a + sep + b, sep) == [a, b]
  {
    SplitAround(a, b, sep);
    SplitNoSep(b, sep);
  }

  /** `(a + pat).replace(pat, "") == a` when `pat` starts nowhere in `a`. */
  lemma ReplaceDropsSuffix(a: string, pat: string)
    requires |pat| > 0
    requires forall k: nat :: k < |a| ==> !OccursAt(a + pat, pat, k)
    ensures Replace(a + pat, pat, "") == a
  {
    assert a + pat == a + pat + "";
    SplitPair(a, "", pat);
    assert Join([a, ""], "") == a + "" + "";
  }

  /** Python's `str.isspace()` for one character. */
  predicate IsSpace(c: char)
  {
    var n := c as int;
    (9 <= n <= 13) || (28 <= n <= 32) || n == 0x85 || n == 0xA0 || n == 0x1680
    || (0x2000 <= n <= 0x200A) || n == 0x2028 || n == 0x2029 || n == 0x202F
    || n == 0x205F || n == 0x3000
  }

  function TrimLeft(s: string): (r: string)
    ensures |r| <= |s| && r == s[|s| - |r|..]
    ensures r != [] ==> !IsSpace(r[0])
    ensures forall k :: 0 <= k < |s| - |r| ==> IsSpace(s[k])
  {
    if s != [] && IsSpace(s[0]) then TrimLeft(s[1..]) else s
  }

  function TrimRight(s: string): (r: string)
    ensures |r| <= |s| && r == s[..|r|]
    ensures r != [] ==> !IsSpace(r[|r| - 1])
    ensures forall k :: |r| <= k < |s| ==> IsSpace(s[k])
  {
    if s != [] && IsSpace(s[|s| - 1]) then TrimRight(s[..|s| - 1]) else s
  }

  /** Python's `s.strip()`: leading and trailing whitespace removed. */
  function Strip(s: string): (r: string)
    ensures r != [] ==> !IsSpace(r[0]) && !IsSpace(r[|r| - 1])
  {
    TrimRight(TrimLeft(s))
  }

  lemma StripNoSpace(s: string)
    requires forall k :: 0 <= k < |s| ==> !IsSpace(s[k])
    ensures Strip(s) == s
  {
  }

  lemma StripLeadingSpace(s: string)
    ensures Strip(" " + s) == Strip(s)
  {
    assert (" " + s)[1..] == s;
  }

  /** ASCII upper case to lower case; other characters unchanged. */
  function LowerChar(c: char): char
  {
    if 'A' <= c <= 'Z' then (c as int + 32) as char else c
  }

  /** Python's `s.lower()` on the ASCII range. */
  function Lower(s: string): (r: string)
    ensures |r| == |s|
    ensures forall k :: 0 <= k < |s| ==> r[k] == LowerChar(s[k])
  {
    seq(|s|, k requires 0 <= k < |s| => LowerChar(s[k]))
  }

  predicate IsDigit(c: char)
  {
    '0' <= c <= '9'
  }

  predicate AllDigits(s: string)
  {
    forall k :: 0 <= k < |s| ==> IsDigit(s[k])
  }

  function DigitValue(c: char): nat
    requires IsDigit(c)
  {
    c as int - '0' as int
  }

  /** The value of a string of decimal digits, most significant first. */
  function DigitsValue(s: string): nat
    requires AllDigits(s)
  {
    if s == [] then 0 else 10 * DigitsValue(s[..|s| - 1]) + DigitValue(s[|s| - 1])
  }

  function DigitChar(d: nat): (c: char)
    requires d < 10
    ensures IsDigit(c) && DigitValue(c) == d
  {
    ('0' as int + d) as char
  }

  /** Python's `str(n)` for a natural number: no sign, no leading zero. */
  function NatStr(n: nat): (s: string)
    ensures |s| >= 1 && AllDigits(s)
    ensures |s| > 1 ==> s[0] != '0'
  {
    if n < 10 then [DigitChar(n)] else NatStr(n / 10) + [DigitChar(n % 10)]
  }

  /** Python's `int(s)` for a string: surrounding whitespace, an optional sign and
      at least one ASCII digit; anything else raises `ValueError` (here `None`). */
  function ParseInt(s: string): (r: Option<int>)
    ensures r.Some? ==> Strip(s) != []
  {
    var t := Strip(s);
    if t == [] then None
    else if t[0] == '-' || t[0] == '+' then
      var ds := t[1..];
      if ds != [] && AllDigits(ds) then
        Some(if t[0] == '-' then -(DigitsValue(ds) as int) else DigitsValue(ds))
      else None
    else if AllDigits(t) then Some(DigitsValue(t))
    else None
  }

  lemma {:induction false} NatStrValue(n: nat)
    ensures DigitsValue(NatStr(n)) == n
  {
    if n >= 10 {
      var s := NatStr(n);
      assert s[..|s| - 1] == NatStr(n / 10);
      NatStrValue(n / 10);
    }
  }

  /** Leading zeros do not change the value of a digit string (`int("04") == 4`). */
  lemma {:induction false} LeadingZero(s: string)
    requires AllDigits(s)
    ensures AllDigits("0" + s) && DigitsValue("0" + s) == DigitsValue(s)
    decreases |s|
  {
    if s != [] {
      var t := "0" + s;
      assert t[..|t| - 1] == "0" + s[..|s| - 1];
      LeadingZero(s[..|s| - 1]);
    }
  }

  lemma DigitsNoSpace(s: string)
    requires AllDigits(s)
    ensures forall k :: 0 <= k < |s| ==> !IsSpace(s[k])
  {
  }

  /** `int(str(n)) == n`. */
  lemma ParseNatStr(n: nat)
    ensures ParseInt(NatStr(n)) == Some(n)
  {
    var s := NatStr(n);
    DigitsNoSpace(s);
    StripNoSpace(s);
    NatStrValue(n);
  }

  /** `int(s) == n` for any digit string `s` of value `n`, leading zeros allowed. */
  lemma ParseDigits(s: string)
    requires s != [] && AllDigits(s)
    ensures ParseInt(s) == Some(DigitsValue(s))
  {
    DigitsNoSpace(s);
    StripNoSpace(s);
  }

  /** Python's `<` on strings: code-point lexicographic order. */
  predicate StrLess(a: string, b: string)
  {
    if a == [] then b != []
    else if b == [] then false
    else if a[0] != b[0] then a[0] < b[0]
    else StrLess(a[1..], b[1..])
  }

  lemma {:induction false} StrLessIrreflexive(a: string)
    ensures !StrLess(a, a)
  {
    if a != [] { StrLessIrreflexive(a[1..]); }
  }

  lemma {:induction false} StrLessTransitive(a: string, b: string, c: string)
    requires StrLess(a, b) && StrLess(b, c)
    ensures StrLess(a, c)
  {
    if a != [] && b != [] && c != [] && a[0] == b[0] && b[0] == c[0] {
      StrLessTransitive(a[1..], b[1..], c[1..]);
    }
  }

  lemma {:induction false} StrLessTotal(a: string, b: string)
    ensures a == b || StrLess(a, b) || StrLess(b, a)
  {
    if a != [] && b != [] && a[0] == b[0] {
      StrLessTotal(a[1..], b[1..]);
      if a[1..] == b[1..] {
        assert a == [a[0]] + a[1..] && b == [b[0]] + b[1..];
      }
    }
  }

  /** Strictly increasing in code-point order, hence free of duplicates. */
  predicate StrictlySorted(s: seq<string>)
  {
    forall i, j :: 0 <= i < j < |s| ==> StrLess(s[i], s[j])
  }

  /** Insert one string into a strictly sorted list, unless it is already there. */
  function InsertUnique(x: string, s: seq<string>): (r: seq<string>)
    requires StrictlySorted(s)
    ensures StrictlySorted(r)
    ensures forall y :: y in r <==> y in s || y == x
  {
    if s == [] then [x]
    else if x == s[0] then s
    else if StrLess(x, s[0]) then
      assert StrictlySorted([x] + s) by {
        forall i, j | 0 <= i < j < |[x] + s|
          ensures StrLess(([x] + s)[i], ([x] + s)[j])
        {
          if i == 0 && j > 1 { StrLessTransitive(x, s[0], s[j - 1]); }
        }
      }
      [x] + s
    else
      StrLessTotal(x, s[0]);
      var rest := InsertUnique(x, s[1..]);
      assert StrictlySorted([s[0]] + rest) by {
        forall j | 0 <= j < |rest|
          ensures StrLess(s[0], rest[j])
        {
          assert rest[j] in s[1..] || rest[j] == x;
        }
      }
      assert forall y :: y in s <==> y == s[0] || y in s[1..] by {
        assert s == [s[0]] + s[1..];
      }
      [s[0]] + rest
  }

  /** Python's `sorted(set(xs))`: the distinct strings of `xs` in increasing order. */
  function SortedDistinct(xs: seq<string>): (r: seq<string>)
    ensures StrictlySorted(r)
    ensures forall y :: y in r <==> y in xs
  {
    if xs == [] then []
    else
      var init := xs[..|xs| - 1];
      assert forall y :: y in xs <==> y in init || y == xs[|xs| - 1] by {
        assert xs == init + [xs[|xs| - 1]];
      }
      InsertUnique(xs[|xs| - 1], SortedDistinct(init))
  }
}
