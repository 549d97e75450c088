/**
 * The string operations the bot relies on: `str.upper()`, `str.lower()`,
 * the substring test `needle in hay`, `str.isalpha()`, `str.isdigit()` and
 * `int(...)`. Only the ASCII range is modelled (see README).
 */
module Text {
  import opened Wrappers

  predicate IsAsciiLower(c: char) { 'a' <= c <= 'z' }
  predicate IsAsciiUpper(c: char) { 'A' <= c <= 'Z' }
  predicate IsAsciiLetter(c: char) { IsAsciiLower(c) || IsAsciiUpper(c) }
  predicate IsAsciiDigit(c: char) { '0' <= c <= '9' }

  /** `s.isalpha()`: non-empty and every character a letter. */
  predicate IsAlpha(s: string) { |s| > 0 && forall i :: 0 <= i < |s| ==> IsAsciiLetter(s[i]) }

  /** `s.isdigit()`: non-empty and every character a digit. */
  predicate IsDigits(s: string) { |s| > 0 && forall i :: 0 <= i < |s| ==> IsAsciiDigit(s[i]) }

  function UpperChar(c: char): (r: char)
    ensures IsAsciiLetter(c) <==> IsAsciiLetter(r)
    ensures !IsAsciiLower(r)
    ensures !IsAsciiLetter(c) ==> r == c
  {
    if IsAsciiLower(c) then (c as int - 32) as char else c
  }

  function LowerChar(c: char): (r: char)
    ensures IsAsciiLetter(c) <==> IsAsciiLetter(r)
    ensures !IsAsciiUpper(r)
    ensures !IsAsciiLetter(c) ==> r == c
  {
    if IsAsciiUpper(c) then (c as int + 32) as char else c
  }

  /** `s.upper()`: same length, no lower-case letter left, other characters untouched. */
  function Upper(s: string): (r: string)
    ensures |r| == |s|
    ensures forall i :: 0 <= i < |s| ==> !IsAsciiLower(r[i])
    ensures forall i :: 0 <= i < |s| && !IsAsciiLetter(s[i]) ==> r[i] == s[i]
  {
    seq(|s|, i requires 0 <= i < |s| => UpperChar(s[i]))
  }

  /** `s.lower()`: same length, no upper-case letter left, other characters untouched. */
  function Lower(s: string): (r: string)
    ensures |r| == |s|
    ensures forall i :: 0 <= i < |s| ==> !IsAsciiUpper(r[i])
    ensures forall i :: 0 <= i < |s| && !IsAsciiLetter(s[i]) ==> r[i] == s[i]
  {
    seq(|s|, i requires 0 <= i < |s| => LowerChar(s[i]))
  }

  /** `needle in hay` for strings: `needle` occurs as a contiguous block of `hay`. */
  predicate Contains(hay: string, needle: string)
  {
    exists i :: 0 <= i <= |hay| - |needle| && OccursAt(hay, needle, i)
  }

  /** `needle` starts at position `i` of `hay`. */
  predicate OccursAt(hay: string, needle: string, i: int)
  {
    0 <= i <= |hay| - |needle| && hay[i..i + |needle|] == needle
  }

  /** The empty string occurs in every string, and every string occurs in itself. */
  lemma ContainsTrivial(hay: string)
    ensures Contains(hay, "")
    ensures Contains(hay, hay)
  {
    assert OccursAt(hay, "", 0);
    assert OccursAt(hay, hay, 0);
  }

  // ---- int(...) restricted to an optional sign followed by decimal digits ----

  function DigitValue(c: char): (d: nat)
    requires IsAsciiDigit(c)
    ensures d < 10
  {
    c as int - '0' as int
  }

  function DigitChar(d: nat): (c: char)
    requires d < 10
    ensures IsAsciiDigit(c) && DigitValue(c) == d
  {
    ('0' as int + d) as char
  }

  /** The value of a string of decimal digits, most significant first. */
  function DigitsValue(ds: string): nat
    requires forall i :: 0 <= i < |ds| ==> IsAsciiDigit(ds[i])
    decreases |ds|
  {
    if ds == [] then 0 else DigitsValue(ds[..|ds| - 1]) * 10 + DigitValue(ds[|ds| - 1])
  }

  /** The digits after an optional leading `+` or `-`. */
  function Unsigned(s: string): string
  {
    if |s| > 0 && (s[0] == '+' || s[0] == '-') then s[1..] else s
  }

  /**
   * The interpreter's default limit on the digits of a decimal integer
   * string (`sys.int_info.default_max_str_digits`); every digit counts,
   * leading zeros included, and the sign does not.
   */
  const MaxStrDigits: nat := 4300

  /**
   * `int(s)` on an optional sign followed by one or more decimal digits, at
   * most `MaxStrDigits` of them; `None` where `int` raises.
   */
  function ParseInt(s: string): (r: Option<int>)
    ensures r.Some? <==> IsDigits(Unsigned(s)) && |Unsigned(s)| <= MaxStrDigits
    ensures r.Some? ==> |s| > 0 && (if s[0] == '-' then -r.value else r.value) == DigitsValue(Unsigned(s))
    ensures r.Some? && r.value < 0 ==> s[0] == '-'
  {
    var ds := Unsigned(s);
    if |ds| <= MaxStrDigits && IsDigits(ds) then
      var magnitude: int := DigitsValue(ds);
      Some(if s[0] == '-' then -magnitude else magnitude)
    else None
  }

  /** The decimal spelling of a natural number, without leading zeros. */
  function ShowNat(n: nat): (r: string)
    ensures IsDigits(r)
    decreases n
  {
    if n < 10 then [DigitChar(n)] else ShowNat(n / 10) + [DigitChar(n % 10)]
  }

  /** `str(n)` for an integer. */
  function ShowInt(n: int): string
  {
    if n < 0 then "-" + ShowNat(-n) else ShowNat(n)
  }

  lemma {:induction false} DigitsValueShowNat(n: nat)
    ensures DigitsValue(ShowNat(n)) == n
    decreases n
  {
    if n >= 10 {
      DigitsValueShowNat(n / 10);
      var s := ShowNat(n);
      assert s[..|s| - 1] == ShowNat(n / 10);
    }
  }

  /** The number of decimal digits `str` writes for `n`, the sign not counted. */
  function DigitCount(n: int): nat
  {
    |ShowNat(if n < 0 then -n else n)|
  }

  /**
   * Parsing what `str` prints succeeds exactly when the spelling is within
   * the digit limit, and then gives back the number.
   */
  lemma ParseShowRoundTrip(n: int)
    ensures ParseInt(ShowInt(n)).Some? <==> DigitCount(n) <= MaxStrDigits
    ensures DigitCount(n) <= MaxStrDigits ==> ParseInt(ShowInt(n)) == Some(n)
  {
    var magnitude: nat := if n < 0 then -n else n;
    var s := ShowInt(n);
    assert Unsigned(s) == ShowNat(magnitude) by {
      if n >= 0 {
        assert s[0] != '+' && s[0] != '-';
      }
    }
    assert IsDigits(Unsigned(s)) && |Unsigned(s)| == DigitCount(n);
    DigitsValueShowNat(magnitude);
  }

  /** Zero padding counts toward the limit: 4301 digits are refused even when their value is small. */
  lemma PaddedDigitsRefused()
    ensures ParseInt(seq(MaxStrDigits - 1, _ => '0') + "45") == None
  {
    assert |Unsigned(seq(MaxStrDigits - 1, _ => '0') + "45")| == MaxStrDigits + 1;
  }
}
