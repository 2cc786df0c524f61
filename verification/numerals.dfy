/** Decimal numerals as the toolkit reads and writes them: Python's
    `int(text)` for base ten, `str(n)`, and the zero-padded fields of
    `strftime` (`%Y` is four digits wide, `%m %d %H %M %S` two). */
module Numerals {
  import opened Wrappers
  import opened Text

  predicate IsDigit(c: char) {
    '0' <= c <= '9'
  }

  predicate AllDigits(s: string) {
    forall k :: 0 <= k < |s| ==> IsDigit(s[k])
  }

  function DigitValue(c: char): (d: nat)
    requires IsDigit(c)
    ensures d < 10
  {
    (c as int) - ('0' as int)
  }

  function DigitChar(d: nat): (c: char)
    requires d < 10
    ensures IsDigit(c) && DigitValue(c) == d
  {
    (('0' as int) + d) as char
  }

  /** The value of a string of decimal digits, most significant first. */
  function DigitsValue(s: string): nat
    requires AllDigits(s)
  {
    if |s| == 0 then 0
    else DigitsValue(s[..|s| - 1]) * 10 + DigitValue(s[|s| - 1])
  }

  /** `str(n)` for a natural number: the shortest digit string of `n`. */
  function FormatNat(n: nat): (r: string)
    ensures |r| >= 1 && AllDigits(r)
    ensures DigitsValue(r) == n
    ensures |r| > 1 ==> r[0] != '0'
    ensures n < 10 <==> |r| == 1
  {
    if n < 10 then [DigitChar(n)]
    else
      var r := FormatNat(n / 10) + [DigitChar(n % 10)];
      assert r[..|r| - 1] == FormatNat(n / 10);
      r
  }

  /** `str(n)` for any integer. */
  function FormatInt(n: int): (r: string)
    ensures |r| >= 1
    ensures n >= 0 ==> r == FormatNat(n)
    ensures n < 0 ==> r == "-" + FormatNat(-n)
  {
    if n < 0 then "-" + FormatNat(-n) else FormatNat(n)
  }

  /** Leading zeros do not change a digit string's value. */
  lemma {:induction false} LeadingZero(s: string)
    requires AllDigits(s)
    ensures AllDigits("0" + s) && DigitsValue("0" + s) == DigitsValue(s)
    decreases |s|
  {
    var t := "0" + s;
    if |s| > 0 {
      assert t[..|t| - 1] == "0" + s[..|s| - 1];
      LeadingZero(s[..|s| - 1]);
    }
  }

  /** `n` written with zeros on the left up to `width` characters, as
      `strftime` writes its numeric fields. */
  function Pad(n: nat, width: nat): (r: string)
    ensures AllDigits(r) && DigitsValue(r) == n
    ensures |r| == if |FormatNat(n)| >= width then |FormatNat(n)| else width
    decreases width
  {
    if |FormatNat(n)| >= width then FormatNat(n)
    else
      var r := "0" + Pad(n, width - 1);
      LeadingZero(Pad(n, width - 1));
      r
  }

  /** A number below `10^width` pads to exactly `width` digits. */
  lemma PadWidth(n: nat, width: nat)
    requires 1 <= width <= 4
    requires width == 1 ==> n < 10
    requires width == 2 ==> n < 100
    requires width == 3 ==> n < 1000
    requires width == 4 ==> n < 10000
    ensures |Pad(n, width)| == width
  {
    var f := FormatNat(n);
    if n >= 10 {
      var f1 := FormatNat(n / 10);
      if n / 10 >= 10 {
        var f2 := FormatNat(n / 100);
        assert n / 10 / 10 == n / 100;
        if n / 100 >= 10 {
          assert n / 100 / 10 == n / 1000;
          assert n / 1000 < 10;
        }
      }
    }
  }

  // ---------------------------------------------------------------------
  // Python's int(text), base ten

  /** The digit body of an integer literal as `int()` accepts it: digits
      with single underscores allowed between two digits. */
  predicate DigitGroups(u: string) {
    |u| >= 1 && forall k :: 0 <= k < |u| ==> DigitOrJoiner(u, k)
  }

  /** Position `k` of `u` holds a digit, or an underscore between two
      digits. */
  predicate DigitOrJoiner(u: string, k: int)
    requires 0 <= k < |u|
  {
    IsDigit(u[k]) || (u[k] == '_' && 0 < k < |u| - 1 && IsDigit(u[k - 1]) && IsDigit(u[k + 1]))
  }

  /** The digits of `u` without its underscores. */
  function DropUnderscores(u: string): (r: string)
    requires forall k :: 0 <= k < |u| ==> IsDigit(u[k]) || u[k] == '_'
    ensures AllDigits(r)
    ensures AllDigits(u) ==> r == u
  {
    if |u| == 0 then ""
    else if u[0] == '_' then DropUnderscores(u[1..])
    else [u[0]] + DropUnderscores(u[1..])
  }

  /** The value of an unsigned literal body, if it is one. */
  function ParseUnsigned(u: string): (r: Option<int>)
    ensures r.Some? ==> r.value >= 0
  {
    if DigitGroups(u) then
      assert forall k :: 0 <= k < |u| ==> IsDigit(u[k]) || u[k] == '_' by {
        forall k | 0 <= k < |u| ensures IsDigit(u[k]) || u[k] == '_' {
          assert DigitOrJoiner(u, k);
        }
      }
      Some(DigitsValue(DropUnderscores(u)))
    else None
  }

  /** `int(s)`: surrounding whitespace is ignored, an optional sign, then
      digit groups; anything else is a `ValueError` (here `None`).
      Non-ASCII decimal digits, which Python also accepts, are not
      modelled. */
  function ParseInt(s: string): (r: Option<int>)
    ensures r.Some? ==> |Strip(s)| >= 1
  {
    var t := Strip(s);
    if |t| == 0 then None
    else if t[0] == '-' then
      match ParseUnsigned(t[1..])
      case Some(v) => Some(-v)
      case None => None
    else if t[0] == '+' then
      match ParseUnsigned(t[1..])
      case Some(v) => Some(v)
      case None => None
    else
      match ParseUnsigned(t)
      case Some(v) => Some(v)
      case None => None
  }

  /** A non-empty string of plain digits reads as its value, leading
      zeros included (`int("07") == 7`). */
  lemma ParseDigits(s: string)
    requires |s| >= 1 && AllDigits(s)
    ensures ParseInt(s) == Some(DigitsValue(s))
  {
    StripNoSpace(s);
    assert IsDigit(s[0]);
    assert s[0] != '-' && s[0] != '+';
    assert DigitGroups(s) by {
      forall k | 0 <= k < |s| ensures DigitOrJoiner(s, k) {
      }
    }
    assert DropUnderscores(s) == s;
    assert ParseUnsigned(s) == Some(DigitsValue(s));
  }

  /** `int(str(n)) == n`. */
  lemma ParseFormatInt(n: int)
    ensures ParseInt(FormatInt(n)) == Some(n)
  {
    var f := FormatInt(n);
    StripNoSpace(f);
    if n < 0 {
      var g := FormatNat(-n);
      assert f[1..] == g;
      assert DigitGroups(g) by {
        forall k | 0 <= k < |g| ensures DigitOrJoiner(g, k) {
        }
      }
    } else {
      ParseDigits(f);
    }
  }

  /** No character of `s` is a decimal digit. */
  predicate NoDigit(s: string) {
    forall k :: 0 <= k < |s| ==> !IsDigit(s[k])
  }

  /** `int()` rejects text with no digit at all. */
  lemma ParseNeedsDigit(s: string)
    requires NoDigit(s)
    ensures ParseInt(s) == None
  {
    StripNoDigit(s);
    var t := Strip(s);
    if |t| > 0 {
      NoDigitUnsigned(t);
      NoDigitSlice(t, 1, |t|);
      NoDigitUnsigned(t[1..]);
    }
  }

  /** A slice of digit-free text is digit-free. */
  lemma NoDigitSlice(s: string, lo: int, hi: int)
    requires NoDigit(s) && 0 <= lo <= hi <= |s|
    ensures NoDigit(s[lo..hi])
  {
    forall k | 0 <= k < hi - lo ensures !IsDigit(s[lo..hi][k]) {
      assert s[lo..hi][k] == s[lo + k];
    }
  }

  /** Stripping digit-free text leaves it digit-free. */
  lemma StripNoDigit(s: string)
    requires NoDigit(s)
    ensures NoDigit(Strip(s))
  {
    var t := Strip(s);
    var lo :| 0 <= lo <= |s| - |t| && t == s[lo..lo + |t|]
              && AllSpace(s[..lo]) && AllSpace(s[lo + |t|..]);
    NoDigitSlice(s, lo, lo + |t|);
  }

  /** A literal body without digits is not a number. */
  lemma NoDigitUnsigned(u: string)
    requires NoDigit(u)
    ensures ParseUnsigned(u) == None
  {
    if |u| >= 1 {
      assert !DigitOrJoiner(u, 0);
    }
  }
}
