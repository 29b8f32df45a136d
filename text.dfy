/**
 * The few pieces of Python's string handling that the tiling engine relies on:
 * `str.split`/`str.join` on a one-character separator, `str.replace`, `str(int)`,
 * `int(str)`, `"%0Nd" % n`, string comparison, `os.path.basename`,
 * `os.path.splitext` and `str.lower`.
 */
module Text {
  import opened Wrappers

  // ---------------------------------------------------------------------------
  // split / join

  /** Python's `s.split(sep)` for a one-character separator: there is always at least one part. */
  function Split(s: string, sep: char): (parts: seq<string>)
    ensures |parts| >= 1
    ensures forall i :: 0 <= i < |parts| ==> sep !in parts[i]
    decreases |s|
  {
    if |s| == 0 then [""]
    else
      var rest := Split(s[1..], sep);
      if s[0] == sep then [""] + rest
      else [[s[0]] + rest[0]] + rest[1..]
  }

  /** Python's `sep.join(parts)`. */
  function Join(parts: seq<string>, sep: char): string
  {
    if |parts| == 0 then ""
    else if |parts| == 1 then parts[0]
    else parts[0] + [sep] + Join(parts[1..], sep)
  }

  predicate FreeOf(parts: seq<string>, sep: char)
  {
    forall i :: 0 <= i < |parts| ==> sep !in parts[i]
  }

  /** A character other than the separator occurs in a join only where it occurs in a part. */
  lemma {:induction false} JoinFree(parts: seq<string>, sep: char, c: char)
    requires c != sep && FreeOf(parts, c)
    ensures c !in Join(parts, sep)
    decreases |parts|
  {
    if |parts| > 1 {
      JoinFree(parts[1..], sep, c);
      assert c !in parts[0] + [sep];
    }
  }

  /** Splitting a text whose first part holds no separator peels that part off. */
  lemma {:induction false} SplitPrefix(a: string, t: string, sep: char)
    requires sep !in a
    ensures Split(a + t, sep) == [a + Split(t, sep)[0]] + Split(t, sep)[1..]
    decreases |a|
  {
    if |a| == 0 {
      assert a + t == t;
      assert a + Split(t, sep)[0] == Split(t, sep)[0];
      assert Split(t, sep) == [Split(t, sep)[0]] + Split(t, sep)[1..];
    } else {
      assert (a + t)[1..] == a[1..] + t;
      SplitPrefix(a[1..], t, sep);
      assert [a[0]] + (a[1..] + Split(t, sep)[0]) == a + Split(t, sep)[0];
    }
  }

  /** Joining parts that hold no separator and splitting again gives the parts back. */
  lemma {:induction false} SplitJoin(parts: seq<string>, sep: char)
    requires |parts| > 0 && FreeOf(parts, sep)
    ensures Split(Join(parts, sep), sep) == parts
    decreases |parts|
  {
    if |parts| == 1 {
      SplitPrefix(parts[0], "", sep);
      assert parts[0] + "" == parts[0];
    } else {
      var rest := Join(parts[1..], sep);
      SplitJoin(parts[1..], sep);
      assert ([sep] + rest)[1..] == rest;
      SplitPrefix(parts[0], [sep] + rest, sep);
      assert parts[0] + [sep] + rest == parts[0] + ([sep] + rest);
      assert parts[0] + "" == parts[0];
    }
  }

  // ---------------------------------------------------------------------------
  // replace

  /** Python's `s.replace(pat, rep)`: every non-overlapping occurrence, left to right. */
  function ReplaceAll(s: string, pat: string, rep: string): string
    requires |pat| > 0
    decreases |s|
  {
    if |s| < |pat| then s
    else if s[..|pat|] == pat then rep + ReplaceAll(s[|pat|..], pat, rep)
    else [s[0]] + ReplaceAll(s[1..], pat, rep)
  }

  predicate OccursAt(s: string, pat: string, i: int)
  {
    0 <= i && i + |pat| <= |s| && s[i..i + |pat|] == pat
  }

  ghost predicate Occurs(s: string, pat: string)
  {
    exists i :: OccursAt(s, pat, i)
  }

  /** A text in which the pattern does not occur is left as it is. */
  lemma {:induction false} ReplaceAbsent(s: string, pat: string, rep: string)
    requires |pat| > 0 && !Occurs(s, pat)
    ensures ReplaceAll(s, pat, rep) == s
    decreases |s|
  {
    if |s| >= |pat| {
      assert s[0..0 + |pat|] == s[..|pat|];
      assert !OccursAt(s, pat, 0);
      forall i | 0 <= i && i + |pat| <= |s| - 1
        ensures !OccursAt(s[1..], pat, i)
      {
        assert s[1..][i..i + |pat|] == s[i + 1..i + 1 + |pat|];
        assert !OccursAt(s, pat, i + 1);
      }
      ReplaceAbsent(s[1..], pat, rep);
    }
  }

  /** A text that lacks the pattern's first character is left as it is. */
  lemma ReplaceLacking(s: string, pat: string, rep: string)
    requires |pat| > 0 && pat[0] !in s
    ensures ReplaceAll(s, pat, rep) == s
  {
    forall i | 0 <= i && i + |pat| <= |s|
      ensures !OccursAt(s, pat, i)
    {
      assert s[i..i + |pat|][0] == s[i] != pat[0];
    }
    ReplaceAbsent(s, pat, rep);
  }

  /** A text that is exactly the pattern becomes the replacement. */
  lemma ReplaceWhole(pat: string, rep: string)
    requires |pat| > 0
    ensures ReplaceAll(pat, pat, rep) == rep
  {
    assert pat[..|pat|] == pat;
    assert pat[|pat|..] == "";
    assert rep + "" == rep;
  }

  // ---------------------------------------------------------------------------
  // integers as text

  predicate IsDigit(c: char) { '0' <= c <= '9' }

  predicate AllDigits(s: string) { forall i :: 0 <= i < |s| ==> IsDigit(s[i]) }

  function DigitChar(d: nat): (c: char)
    requires d < 10
    ensures IsDigit(c) && (c as int) - ('0' as int) == d
  {
    (('0' as int) + d) as char
  }

  function DigitValue(c: char): nat
    requires IsDigit(c)
  {
    (c as int) - ('0' as int)
  }

  function Pow10(k: nat): (p: nat)
    ensures p >= 1
  {
    if k == 0 then 1 else 10 * Pow10(k - 1)
  }

  /** The value of a string of decimal digits, most significant first. */
  function DigitsValue(s: string): (v: nat)
    requires AllDigits(s)
    ensures v < Pow10(|s|)
  {
    if |s| == 0 then 0
    else
      var rest := DigitsValue(s[1..]);
      LeadingDigitBound(DigitValue(s[0]), Pow10(|s| - 1), rest);
      DigitValue(s[0]) * Pow10(|s| - 1) + rest
  }

  /** Python's `str(n)` for a non-negative integer. */
  function NatToStr(n: nat): (s: string)
    ensures |s| >= 1 && AllDigits(s)
    decreases n
  {
    if n < 10 then [DigitChar(n)] else NatToStr(n / 10) + [DigitChar(n % 10)]
  }

  /** Python's `str(n)`. */
  function IntToStr(n: int): string
  {
    if n < 0 then "-" + NatToStr(-n) else NatToStr(n)
  }

  /** Python's `int(s)`, for an optional sign followed by decimal digits. */
  function ParseInt(s: string): Option<int>
  {
    if |s| > 0 && (s[0] == '-' || s[0] == '+') then
      if |s| > 1 && AllDigits(s[1..]) then
        Some(if s[0] == '-' then -(DigitsValue(s[1..]) as int) else DigitsValue(s[1..]))
      else None
    else if |s| > 0 && AllDigits(s) then Some(DigitsValue(s))
    else None
  }

  /** Appending a digit multiplies the value by ten and adds the digit. */
  lemma {:induction false} DigitsValueSnoc(a: string, c: char)
    requires AllDigits(a) && IsDigit(c)
    ensures AllDigits(a + [c]) && DigitsValue(a + [c]) == 10 * DigitsValue(a) + DigitValue(c)
    decreases |a|
  {
    assert AllDigits(a + [c]);
    if |a| > 0 {
      assert (a + [c])[1..] == a[1..] + [c];
      assert (a + [c])[0] == a[0];
      DigitsValueSnoc(a[1..], c);
      var p, d, x := Pow10(|a| - 1), DigitValue(a[0]), DigitsValue(a[1..]);
      assert Pow10(|a|) == 10 * p;
      assert DigitsValue(a) == d * p + x;
      assert DigitsValue(a + [c]) == d * Pow10(|a|) + DigitsValue(a[1..] + [c]);
      Distribute10(d, p, x);
    } else {
      assert a + [c] == [c];
    }
  }

  lemma {:induction false} NatToStrValue(n: nat)
    ensures DigitsValue(NatToStr(n)) == n
    decreases n
  {
    if n >= 10 {
      NatToStrValue(n / 10);
      DigitsValueSnoc(NatToStr(n / 10), DigitChar(n % 10));
    } else {
      assert NatToStr(n)[1..] == "";
    }
  }

  /** `int(str(n)) == n`. */
  lemma ParseIntToStr(n: int)
    ensures ParseInt(IntToStr(n)) == Some(n)
  {
    if n < 0 {
      var digits := NatToStr(-n);
      NatToStrValue(-n);
      var s := "-" + digits;
      assert s[0] == '-' && s[1..] == digits && |s| > 1;
      assert IntToStr(n) == s;
    } else {
      var digits := NatToStr(n);
      NatToStrValue(n);
      assert IsDigit(digits[0]);
      assert IntToStr(n) == digits;
    }
  }

  /** `n` digits of '0'. */
  function ZeroRun(k: nat): (z: string)
    ensures |z| == k && AllDigits(z)
  {
    seq(k, _ => '0')
  }

  /** Right-aligns `s` in a field of `width` characters filled with '0'. */
  function PadLeft(s: string, width: int): string
  {
    if |s| >= width then s else ZeroRun(width - |s|) + s
  }

  /** Python's `"%0<width>d" % n`: zeros go between the sign and the digits. */
  function FormatZeroPadded(n: int, width: int): string
  {
    if n >= 0 then PadLeft(NatToStr(n), width) else "-" + PadLeft(NatToStr(-n), width - 1)
  }

  lemma {:induction false} ZeroRunValue(k: nat, s: string)
    requires AllDigits(s)
    ensures AllDigits(ZeroRun(k) + s) && DigitsValue(ZeroRun(k) + s) == DigitsValue(s)
    decreases k
  {
    if k > 0 {
      assert (ZeroRun(k) + s)[1..] == ZeroRun(k - 1) + s;
      ZeroRunValue(k - 1, s);
    } else {
      assert ZeroRun(k) + s == s;
    }
  }

  lemma {:induction false} NatToStrLength(n: nat, k: nat)
    requires k >= 1 && n < Pow10(k)
    ensures |NatToStr(n)| <= k
    decreases k
  {
    if n >= 10 {
      NatToStrLength(n / 10, k - 1);
    }
  }

  /** For `0 <= n < 10^width`, `"%0<width>d" % n` is exactly `width` digits that read back as `n`. */
  lemma FormatZeroPaddedDigits(n: nat, width: nat)
    requires width >= 1 && n < Pow10(width)
    ensures var s := FormatZeroPadded(n, width);
      |s| == width && AllDigits(s) && DigitsValue(s) == n
  {
    NatToStrLength(n, width);
    NatToStrValue(n);
    if |NatToStr(n)| < width {
      ZeroRunValue(width - |NatToStr(n)|, NatToStr(n));
    }
  }

  // ---------------------------------------------------------------------------
  // comparison

  /** Python's `a <= b` on strings: lexicographic by character code, a prefix comes first. */
  predicate StrLe(a: string, b: string)
    decreases |a|
  {
    if |a| == 0 then true
    else if |b| == 0 then false
    else if a[0] != b[0] then a[0] < b[0]
    else StrLe(a[1..], b[1..])
  }

  lemma {:induction false} StrLeTotal(a: string, b: string)
    ensures StrLe(a, b) || StrLe(b, a)
    decreases |a|
  {
    if |a| > 0 && |b| > 0 && a[0] == b[0] {
      StrLeTotal(a[1..], b[1..]);
    }
  }

  lemma {:induction false} StrLeTransitive(a: string, b: string, c: string)
    requires StrLe(a, b) && StrLe(b, c)
    ensures StrLe(a, c)
    decreases |a|
  {
    if |a| > 0 && |b| > 0 && |c| > 0 && a[0] == b[0] && b[0] == c[0] {
      StrLeTransitive(a[1..], b[1..], c[1..]);
    }
  }

  lemma {:induction false} StrLeAntisymmetric(a: string, b: string)
    requires StrLe(a, b) && StrLe(b, a)
    ensures a == b
    decreases |a|
  {
    if |a| > 0 {
      StrLeAntisymmetric(a[1..], b[1..]);
      assert a == [a[0]] + a[1..] && b == [b[0]] + b[1..];
    }
  }

  /** After a common-length head, the comparison is decided by the heads unless they are equal. */
  lemma {:induction false} StrLeConcat(s1: string, t1: string, s2: string, t2: string)
    requires |s1| == |s2|
    ensures StrLe(s1 + t1, s2 + t2) == if s1 == s2 then StrLe(t1, t2) else StrLe(s1, s2)
    decreases |s1|
  {
    if |s1| == 0 {
      assert s1 + t1 == t1 && s2 + t2 == t2;
    } else {
      assert (s1 + t1)[1..] == s1[1..] + t1;
      assert (s2 + t2)[1..] == s2[1..] + t2;
      StrLeConcat(s1[1..], t1, s2[1..], t2);
      if s1[0] == s2[0] {
        assert s1 == s2 <==> s1[1..] == s2[1..] by {
          assert s1 == [s1[0]] + s1[1..] && s2 == [s2[0]] + s2[1..];
        }
      }
    }
  }

  /** A leading digit `d` followed by a value below `p` stays below `10 * p`. */
  lemma LeadingDigitBound(d: nat, p: nat, rest: nat)
    requires d < 10 && rest < p
    ensures d * p + rest < 10 * p
  {
    MulMonotone(d + 1, 10, p);
  }

  lemma Distribute10(d: int, p: int, x: int)
    ensures d * (10 * p) + 10 * x == 10 * (d * p + x)
  {
  }

  lemma MulMonotone(a: nat, b: nat, p: nat)
    requires a <= b
    ensures a * p <= b * p
  {
  }

  /** A smaller leading digit makes a smaller number, whatever follows. */
  lemma LeadingDigitOrder(a: nat, b: nat, vs: nat, vt: nat, p: nat)
    requires a < b && vs < p && vt < p
    ensures a * p + vs < b * p + vt
  {
    MulMonotone(a + 1, b, p);
    assert (a + 1) * p == a * p + p;
  }

  /** Comparing two digit strings whose first digits differ. */
  lemma DigitOrderHead(s: string, t: string)
    requires |s| == |t| > 0 && AllDigits(s) && AllDigits(t) && s[0] != t[0]
    ensures StrLe(s, t) <==> DigitsValue(s) <= DigitsValue(t)
  {
    var p := Pow10(|s| - 1);
    var a, b := DigitValue(s[0]), DigitValue(t[0]);
    var vs, vt := DigitsValue(s[1..]), DigitsValue(t[1..]);
    DigitsValueHead(s);
    DigitsValueHead(t);
    assert StrLe(s, t) == (a < b);
    if a < b {
      LeadingDigitOrder(a, b, vs, vt, p);
    } else {
      LeadingDigitOrder(b, a, vt, vs, p);
    }
  }

  lemma DigitsValueHead(s: string)
    requires |s| > 0 && AllDigits(s)
    ensures DigitsValue(s) == DigitValue(s[0]) * Pow10(|s| - 1) + DigitsValue(s[1..])
    ensures DigitsValue(s[1..]) < Pow10(|s| - 1)
  {
  }

  /** On digit strings of one length, string order is numeric order. */
  lemma {:induction false} DigitOrder(s: string, t: string)
    requires |s| == |t| && AllDigits(s) && AllDigits(t)
    ensures StrLe(s, t) <==> DigitsValue(s) <= DigitsValue(t)
    decreases |s|
  {
    if |s| > 0 {
      if s[0] != t[0] {
        DigitOrderHead(s, t);
      } else {
        DigitOrder(s[1..], t[1..]);
        assert DigitsValue(s) - DigitsValue(s[1..]) == DigitsValue(t) - DigitsValue(t[1..]);
      }
    }
  }

  // ---------------------------------------------------------------------------
  // paths and case

  /** Index just past the last '/' in `p` (0 when there is none). */
  function AfterLastSlash(p: string): (k: nat)
    ensures k <= |p|
    ensures forall i :: k <= i < |p| ==> p[i] != '/'
    ensures k > 0 ==> p[k - 1] == '/'
  {
    if |p| == 0 then 0
    else if p[|p| - 1] == '/' then |p|
    else AfterLastSlash(p[..|p| - 1])
  }

  /** `os.path.basename(p)` on POSIX: everything after the last '/'. */
  function Basename(p: string): (b: string)
    ensures '/' !in b
    ensures |b| <= |p| && b == p[|p| - |b|..]
  {
    p[AfterLastSlash(p)..]
  }

  /** Index of the last '.' at or after `from`, if any. */
  function LastDot(p: string, from: nat): (k: Option<nat>)
    ensures k.Some? ==> from <= k.value < |p| && p[k.value] == '.'
    ensures k.Some? ==> forall i :: k.value < i < |p| ==> p[i] != '.'
    ensures k.None? ==> forall i :: from <= i < |p| ==> p[i] != '.'
    decreases |p|
  {
    if |p| <= from then None
    else if p[|p| - 1] == '.' then Some(|p| - 1)
    else LastDot(p[..|p| - 1], from)
  }

  /**
   * `os.path.splitext(p)` on POSIX: the extension starts at the last '.' of the base name,
   * unless every character of the base name before that dot is itself a dot.
   */
  function SplitExt(p: string): (parts: (string, string))
    ensures parts.0 + parts.1 == p
    ensures parts.1 == "" || parts.1[0] == '.'
    ensures '/' !in parts.1
  {
    var start := AfterLastSlash(p);
    match LastDot(p, start)
    case None => (p, "")
    case Some(d) =>
      if exists i :: start <= i < d && p[i] != '.' then (p[..d], p[d..])
      else (p, "")
  }

  /** `str.lower()` restricted to ASCII letters. */
  function Lower(s: string): (r: string)
    ensures |r| == |s|
    ensures forall i :: 0 <= i < |s| ==> ('A' <= s[i] <= 'Z' ==> r[i] as int == s[i] as int + 32)
    ensures forall i :: 0 <= i < |s| ==> (!('A' <= s[i] <= 'Z') ==> r[i] == s[i])
  {
    seq(|s|, i requires 0 <= i < |s| => if 'A' <= s[i] <= 'Z' then (s[i] as int + 32) as char else s[i])
  }
}
