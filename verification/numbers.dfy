/**
  Decimal printing and parsing of integers: Python's `str(n)` (used by the
  f-strings that build URLs and experience labels) and `int(s)` (used to read
  an experience label back).
 */
module Numbers {
  import opened Wrappers
  import Text

  predicate IsDigit(c: char) {
    '0' <= c <= '9'
  }

  predicate AllDigits(s: string) {
    forall k :: 0 <= k < |s| ==> IsDigit(s[k])
  }

  function DigitChar(d: nat): (c: char)
    requires d < 10
    ensures IsDigit(c)
  {
    ('0' as int + d) as char
  }

  function DigitValue(c: char): (d: nat)
    requires IsDigit(c)
    ensures d < 10 && DigitChar(d) == c
  {
    c as int - '0' as int
  }

  /** `str(n)` for n >= 0: at least one digit, and no leading zero unless the number is 0. */
  function ShowNat(n: nat): (r: string)
    ensures |r| >= 1 && AllDigits(r)
    ensures |r| > 1 ==> r[0] != '0'
  {
    if n < 10 then [DigitChar(n)] else ShowNat(n / 10) + [DigitChar(n % 10)]
  }

  /** The value of a string of decimal digits (leading zeros allowed, as `int()` allows them). */
  function ParseNat(s: string): nat
    requires AllDigits(s)
  {
    if |s| == 0 then 0 else ParseNat(s[..|s| - 1]) * 10 + DigitValue(s[|s| - 1])
  }

  /** `str(n)` for any integer: a minus sign before the digits of |n| when n < 0. */
  function Show(n: int): (r: string)
    ensures |r| >= 1
    ensures forall k :: 0 < k < |r| ==> IsDigit(r[k])
    ensures IsDigit(r[0]) || r[0] == '-'
    ensures n >= 0 <==> AllDigits(r)
  {
    if n < 0 then
      var r := "-" + ShowNat(-n);
      assert !IsDigit(r[0]);
      r
    else ShowNat(n)
  }

  /**
    The whitespace `int()` skips around a number: what `str.isspace()` accepts,
    except the four separators U+001C to U+001F, which `strip()` does remove.
   */
  predicate IntSpace(c: char) {
    Text.IsSpace(c) && !(28 <= c as int <= 31)
  }

  /** `s` with the whitespace `int()` skips removed from both ends. */
  function SkipSpace(s: string): (r: string)
    ensures |r| <= |s|
    ensures |r| > 0 ==> !IntSpace(r[0]) && !IntSpace(r[|r| - 1])
    ensures (|s| > 0 ==> !IntSpace(s[0]) && !IntSpace(s[|s| - 1])) ==> r == s
    ensures Text.AllSpace(s) ==> Text.AllSpace(r)
    decreases |s|
  {
    if |s| > 0 && IntSpace(s[0]) then SkipSpace(s[1..])
    else if |s| > 0 && IntSpace(s[|s| - 1]) then SkipSpace(s[..|s| - 1])
    else s
  }

  /**
    `int(s)` on a string: surrounding whitespace (as `int()` counts it) is
    ignored, then an optional sign and one or more ASCII digits. `None` stands
    for the `ValueError` Python raises.
   */
  function ParseInt(s: string): (r: Option<int>)
    ensures Text.AllSpace(s) ==> r == None
  {
    var t := SkipSpace(s);
    assert Text.AllSpace(s) && |t| > 0 ==> Text.IsSpace(t[0]);
    ParseSigned(t)
  }

  /** `int()` on an already stripped string: an optional sign, then one or more digits. */
  function ParseSigned(t: string): Option<int> {
    if |t| > 0 && (t[0] == '-' || t[0] == '+') then
      var digits := t[1..];
      if |digits| > 0 && AllDigits(digits) then
        var v: int := ParseNat(digits);
        Some(if t[0] == '-' then -v else v)
      else None
    else if |t| > 0 && AllDigits(t) then Some(ParseNat(t))
    else None
  }

  lemma {:induction false} ParseShowNat(n: nat)
    ensures ParseNat(ShowNat(n)) == n
  {
    if n >= 10 {
      ParseShowNat(n / 10);
      var r := ShowNat(n);
      assert r[..|r| - 1] == ShowNat(n / 10);
    }
  }

  /** What `str` prints has no surrounding whitespace. */
  lemma ShowStripped(n: int)
    ensures Text.Trimmed(Show(n))
    ensures SkipSpace(Show(n)) == Show(n)
  {
    var r := Show(n);
    assert Text.Trimmed(r) by {
      assert IsDigit(r[0]) || r[0] == '-';
      assert IsDigit(r[|r| - 1]) by {
        if |r| == 1 {
          assert n >= 0 <==> AllDigits(r);
        }
      }
    }
  }

  /** The sign and digits `str` prints are read back as the same integer. */
  lemma ParseSignedShow(n: int)
    ensures ParseSigned(Show(n)) == Some(n)
  {
    var r := Show(n);
    if n < 0 {
      var d := ShowNat(-n);
      assert r == "-" + d;
      assert r[1..] == d;
      ParseShowNat(-n);
    } else {
      ParseShowNat(n);
      assert r[0] != '-' && r[0] != '+';
    }
  }

  /** Printing an integer and parsing it back is the identity. */
  lemma ParseShow(n: int)
    ensures ParseInt(Show(n)) == Some(n)
  {
    ShowStripped(n);
    ParseSignedShow(n);
  }

  /** Skipping the whitespace before `int()` changes nothing: `int()` skips it itself. */
  lemma ParseIntSkipsSpace(s: string)
    ensures ParseInt(SkipSpace(s)) == ParseInt(s)
  {
  }

  /**
    `strip()` and `int()` disagree on U+001C: `int("\x1c5")` fails, while the
    stripped text `"5"` reads as 5.
   */
  lemma IntKeepsSeparators()
    ensures ParseInt([28 as char, '5']) == None
    ensures ParseInt(Text.Strip([28 as char, '5'])) == Some(5)
  {
    var s := [28 as char, '5'];
    assert !IntSpace(s[0]) && !IntSpace(s[1]);
    assert SkipSpace(s) == s;
    assert !IsDigit(s[0]);
    var five := ['5'];
    assert s[1..] == five;
    assert Text.IsSpace(s[0]) && !Text.IsSpace(five[0]);
    assert Text.Strip(s) == five;
    assert SkipSpace(five) == five;
    assert ParseNat(five) == 5 by {
      assert five[..0] == [];
    }
  }

  /** Different integers print differently. */
  lemma ShowInjective(m: int, n: int)
    requires Show(m) == Show(n)
    ensures m == n
  {
    ParseShow(m);
    ParseShow(n);
  }
}
