/**
 * The few pieces of the JavaScript string and number library that the
 * synchronisation code relies on: `lastIndexOf`, `substring`,
 * `Number.prototype.toString` on integers and `parseInt`, each with the
 * clamping and edge cases of the language, plus the code-unit order that
 * `Array.prototype.sort` uses on strings.
 */
module JsText {
  import opened Wrappers

  /** Clamping of a position into [lo, hi], as the string methods do. */
  function Clamp(x: int, lo: int, hi: int): (r: int)
    requires lo <= hi
    ensures lo <= r <= hi
    ensures lo <= x <= hi ==> r == x
    ensures x < lo ==> r == lo
    ensures hi < x ==> r == hi
  {
    if x < lo then lo else if x > hi then hi else x
  }

  /** Backwards search for `c` starting at position `i`. */
  function ScanBack(s: string, c: char, i: int): (k: int)
    requires -1 <= i < |s|
    ensures -1 <= k <= i
    ensures k >= 0 ==> s[k] == c
    ensures forall j :: k < j <= i ==> s[j] != c
    decreases i + 1
  {
    if i < 0 then -1 else if s[i] == c then i else ScanBack(s, c, i - 1)
  }

  /**
   * `s.lastIndexOf(c, fromIndex)` for a one-character search string: the
   * largest position k at or before `fromIndex` (clamped to [0, |s|]) with
   * s[k] == c, or -1 when there is none.
   */
  function LastIndexOf(s: string, c: char, fromIndex: int): (k: int)
    ensures -1 <= k < |s|
    ensures k >= 0 ==> s[k] == c && k <= Clamp(fromIndex, 0, |s|)
    ensures forall j :: k < j < |s| && j <= Clamp(fromIndex, 0, |s|) ==> s[j] != c
  {
    var start := Clamp(fromIndex, 0, |s|);
    ScanBack(s, c, if start < |s| then start else |s| - 1)
  }

  /**
   * `s.substring(start, end)`: both positions are clamped to [0, |s|] and
   * swapped when the first exceeds the second.
   */
  function Substring(s: string, start: int, end: int): (r: string)
    ensures 0 <= start <= end <= |s| ==> r == s[start..end]
    ensures 0 <= end <= start <= |s| ==> r == s[end..start]
    ensures |r| <= |s|
  {
    var a := Clamp(start, 0, |s|);
    var b := Clamp(end, 0, |s|);
    if a <= b then s[a..b] else s[b..a]
  }

  predicate IsDigit(c: char) {
    '0' <= c <= '9'
  }

  predicate AllDigits(s: string) {
    forall i :: 0 <= i < |s| ==> IsDigit(s[i])
  }

  function DigitChar(d: int): (c: char)
    requires 0 <= d < 10
    ensures IsDigit(c) && c as int - '0' as int == d
  {
    (d + '0' as int) as char
  }

  /** The decimal digits of a natural number, most significant first. */
  function NatToString(n: nat): (s: string)
    ensures |s| >= 1 && AllDigits(s)
    ensures n < 10 <==> |s| == 1
    decreases n
  {
    if n < 10 then [DigitChar(n)] else NatToString(n / 10) + [DigitChar(n % 10)]
  }

  /** `n.toString()` for an integral number. */
  function IntToString(n: int): (s: string)
    ensures |s| >= 1
    ensures n >= 0 ==> AllDigits(s)
    ensures n < 0 ==> s[0] == '-' && AllDigits(s[1..])
  {
    if n < 0 then "-" + NatToString(-n) else NatToString(n)
  }

  /** The decimal form of an integer holds no "/". */
  lemma NoSlashInNumber(n: int)
    ensures '/' !in IntToString(n)
  {
    var s := IntToString(n);
    if n < 0 {
      assert forall p :: 1 <= p < |s| ==> s[p] == s[1..][p - 1];
    }
  }

  /** The value of a string of decimal digits. */
  function DigitsValue(s: string): nat
    requires AllDigits(s)
    decreases |s|
  {
    if s == [] then 0 else DigitsValue(s[..|s| - 1]) * 10 + (s[|s| - 1] as int - '0' as int)
  }

  /** Length of the longest prefix of `s` made of decimal digits. */
  function DigitPrefixLength(s: string): (n: nat)
    ensures n <= |s|
    ensures AllDigits(s[..n])
    ensures n < |s| ==> !IsDigit(s[n])
    decreases |s|
  {
    if s == [] || !IsDigit(s[0]) then 0 else 1 + DigitPrefixLength(s[1..])
  }

  /**
   * `parseInt(s)` on a string without leading white space: an optional sign
   * followed by the longest run of decimal digits; `None` stands for `NaN`,
   * the result when no digit follows the sign.
   */
  function ParseInt(s: string): (r: Option<int>)
    ensures r.None? <==> DigitPrefixLength(if |s| > 0 && (s[0] == '-' || s[0] == '+') then s[1..] else s) == 0
  {
    var negative := |s| > 0 && s[0] == '-';
    var body := if |s| > 0 && (s[0] == '-' || s[0] == '+') then s[1..] else s;
    var n := DigitPrefixLength(body);
    if n == 0 then None
    else
      var v: int := DigitsValue(body[..n]);
      Some(if negative then -v else v)
  }

  lemma {:induction false} DigitPrefixOfDigits(s: string)
    requires AllDigits(s)
    ensures DigitPrefixLength(s) == |s|
    decreases |s|
  {
    if s != [] {
      DigitPrefixOfDigits(s[1..]);
    }
  }

  lemma {:induction false} DigitsValueOfNat(n: nat)
    ensures DigitsValue(NatToString(n)) == n
    decreases n
  {
    var s := NatToString(n);
    if n >= 10 {
      assert s[..|s| - 1] == NatToString(n / 10);
      DigitsValueOfNat(n / 10);
    }
  }

  /** `parseInt(n.toString())` gives back `n` for every integer. */
  lemma ParseIntRoundTrip(n: int)
    ensures ParseInt(IntToString(n)) == Some(n)
  {
    var m := if n < 0 then -n else n;
    var digits := NatToString(m);
    DigitPrefixOfDigits(digits);
    DigitsValueOfNat(m);
    assert digits[..|digits|] == digits;
    if n < 0 {
      assert IntToString(n)[1..] == digits;
    }
  }

  /**
   * One character as JavaScript stores it: a single UTF-16 code unit for a
   * character of the Basic Multilingual Plane, a surrogate pair above U+FFFF.
   */
  function CodeUnits(c: char): (u: seq<int>)
    ensures 1 <= |u| <= 2
    ensures |u| == 2 <==> 0xD800 <= u[0] < 0xDC00
    ensures forall i :: 0 <= i < |u| ==> 0 <= u[i] < 0x1_0000
  {
    if (c as int) < 0x1_0000 then [c as int]
    else [0xD800 + (c as int - 0x1_0000) / 0x400, 0xDC00 + (c as int - 0x1_0000) % 0x400]
  }

  /** The UTF-16 code units of a string, the sequence JavaScript compares. */
  function Utf16(s: string): (u: seq<int>)
    ensures |s| <= |u| <= 2 * |s|
  {
    if |s| == 0 then [] else CodeUnits(s[0]) + Utf16(s[1..])
  }

  lemma CodeUnitsInjective(c: char, d: char)
    requires CodeUnits(c) == CodeUnits(d)
    ensures c == d
  {
    if (c as int) >= 0x1_0000 {
      var x := c as int - 0x1_0000;
      assert x == (x / 0x400) * 0x400 + x % 0x400;
    }
  }

  /** Distinct strings have distinct UTF-16 encodings. */
  lemma {:induction false} Utf16Injective(a: string, b: string)
    requires Utf16(a) == Utf16(b)
    ensures a == b
    decreases |a|
  {
    if |a| > 0 && |b| > 0 {
      var ua, ub := CodeUnits(a[0]), CodeUnits(b[0]);
      assert |ua| == |ub| by {
        assert ua[0] == Utf16(a)[0] && ub[0] == Utf16(b)[0];
      }
      assert ua == Utf16(a)[..|ua|] && ub == Utf16(b)[..|ub|];
      CodeUnitsInjective(a[0], b[0]);
      assert Utf16(a) == ua + Utf16(a[1..]) && Utf16(b) == ub + Utf16(b[1..]);
      assert Utf16(a[1..]) == Utf16(a)[|ua|..] && Utf16(b[1..]) == Utf16(b)[|ub|..];
      Utf16Injective(a[1..], b[1..]);
      assert a == [a[0]] + a[1..] && b == [b[0]] + b[1..];
    }
  }

  /**
   * Lexicographic order on code-unit sequences: a proper prefix comes
   * first, otherwise the first differing unit decides.
   */
  predicate UnitsLess(a: seq<int>, b: seq<int>)
    decreases |a|
  {
    |b| > 0 && (|a| == 0 || a[0] < b[0] || (a[0] == b[0] && UnitsLess(a[1..], b[1..])))
  }

  lemma {:induction false} UnitsLessIrreflexive(a: seq<int>)
    ensures !UnitsLess(a, a)
    decreases |a|
  {
    if |a| > 0 {
      UnitsLessIrreflexive(a[1..]);
    }
  }

  lemma {:induction false} UnitsLessTransitive(a: seq<int>, b: seq<int>, c: seq<int>)
    requires UnitsLess(a, b) && UnitsLess(b, c)
    ensures UnitsLess(a, c)
    decreases |a|
  {
    if |a| > 0 && a[0] == b[0] && b[0] == c[0] {
      UnitsLessTransitive(a[1..], b[1..], c[1..]);
    }
  }

  lemma {:induction false} UnitsLessTotal(a: seq<int>, b: seq<int>)
    requires a != b
    ensures UnitsLess(a, b) || UnitsLess(b, a)
    decreases |a|
  {
    if |a| > 0 && |b| > 0 && a[0] == b[0] {
      assert a == [a[0]] + a[1..] && b == [b[0]] + b[1..];
      UnitsLessTotal(a[1..], b[1..]);
    }
  }

  /**
   * The order `Array.prototype.sort` uses when no comparator is given:
   * UTF-16 code-unit order. It differs from code-point order above U+FFFF,
   * where a surrogate pair sorts before the characters U+E000 to U+FFFF.
   */
  predicate StrLess(a: string, b: string)
    ensures a == [] ==> (StrLess(a, b) <==> b != [])
    ensures b == [] ==> !StrLess(a, b)
    ensures (a != [] && b != [] && (a[0] as int) < 0x1_0000 && (b[0] as int) < 0x1_0000 && a[0] != b[0]) ==>
              (StrLess(a, b) <==> a[0] < b[0])
  {
    UnitsLess(Utf16(a), Utf16(b))
  }

  /** A character above U+FFFF sorts before U+FF61, although its code point is larger. */
  lemma SurrogatePairSortsBeforeHighBmp()
    ensures StrLess("\U{10000}", "｡")
    ensures "\U{10000}"[0] as int > "｡"[0] as int
  {
    assert Utf16("\U{10000}") == [0xD800, 0xDC00];
    assert Utf16("｡") == [0xFF61];
  }

  lemma StrLessIrreflexive(a: string)
    ensures !StrLess(a, a)
  {
    UnitsLessIrreflexive(Utf16(a));
  }

  lemma StrLessTransitive(a: string, b: string, c: string)
    requires StrLess(a, b) && StrLess(b, c)
    ensures StrLess(a, c)
  {
    UnitsLessTransitive(Utf16(a), Utf16(b), Utf16(c));
  }

  lemma StrLessTotal(a: string, b: string)
    requires a != b
    ensures StrLess(a, b) || StrLess(b, a)
  {
    if Utf16(a) == Utf16(b) {
      Utf16Injective(a, b);
    }
    UnitsLessTotal(Utf16(a), Utf16(b));
  }

  lemma StrLessAsymmetric(a: string, b: string)
    requires StrLess(a, b)
    ensures !StrLess(b, a)
  {
    if StrLess(b, a) {
      StrLessTransitive(a, b, a);
      StrLessIrreflexive(a);
    }
  }
}
