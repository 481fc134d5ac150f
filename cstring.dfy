/**
 * The pieces of the C library that the election code leans on:
 * NUL-terminated strings, strtol(s, NULL, 10) and the "%ld" conversion
 * used by asprintf. `long` is 64 bits wide.
 */
module CString {

  const LONG_MIN: int := -0x8000_0000_0000_0000
  const LONG_MAX: int := 0x7FFF_FFFF_FFFF_FFFF

  predicate IsLong(n: int) { LONG_MIN <= n <= LONG_MAX }

  /** A C string holds no NUL: the first NUL ends it. */
  predicate IsCString(s: string) { forall k :: 0 <= k < |s| ==> s[k] != '\0' }

  /** `s` holds no comma. */
  predicate CommaFree(s: string) { forall k :: 0 <= k < |s| ==> s[k] != ',' }

  /**
   * The string a `char *` pointing at offset `i` of a buffer denotes:
   * everything from `i` up to the first NUL (or the end of the buffer).
   */
  function CStr(buf: seq<char>, i: nat): (r: string)
    requires i <= |buf|
    ensures i + |r| <= |buf| && r == buf[i..i + |r|] && IsCString(r)
    ensures i + |r| == |buf| || buf[i + |r|] == '\0'
    decreases |buf| - i
  {
    if i == |buf| || buf[i] == '\0' then [] else [buf[i]] + CStr(buf, i + 1)
  }

  /** A NUL at offset `j` ends the C string starting at `i` exactly there. */
  lemma CStrUpTo(buf: seq<char>, i: nat, j: nat)
    requires i <= j < |buf| && buf[j] == '\0' && IsCString(buf[i..j])
    ensures CStr(buf, i) == buf[i..j]
  {
    var r := CStr(buf, i);
    if i + |r| < j {
      assert buf[i..j][|r|] == buf[i + |r|];
    }
  }

  // ---------------------------------------------------------------- strtol

  /** isspace() in the C locale. */
  predicate IsSpace(c: char) {
    c == ' ' || c == '\t' || c == '\n' || c == '\U{000B}' || c == '\U{000C}' || c == '\r'
  }

  predicate IsDigit(c: char) { '0' <= c <= '9' }

  predicate AllDigits(s: string) { forall k :: 0 <= k < |s| ==> IsDigit(s[k]) }

  /** First offset at or after `i` that does not hold white space. */
  function SkipSpace(s: string, i: nat): (j: nat)
    requires i <= |s|
    ensures i <= j <= |s| && (j == |s| || !IsSpace(s[j]))
    decreases |s| - i
  {
    if i == |s| || !IsSpace(s[i]) then i else SkipSpace(s, i + 1)
  }

  /** First offset at or after `i` that does not hold a decimal digit. */
  function DigitEnd(s: string, i: nat): (j: nat)
    requires i <= |s|
    ensures i <= j <= |s| && (j == |s| || !IsDigit(s[j]))
    decreases |s| - i
  {
    if i == |s| || !IsDigit(s[i]) then i else DigitEnd(s, i + 1)
  }

  /** The value of a decimal digit. */
  function DigitValue(c: char): (d: nat)
    ensures d < 10
  {
    if IsDigit(c) then c as int - '0' as int else 0
  }

  /** Value of a decimal numeral, most significant digit first. */
  function DigitsValue(ds: string): nat
  {
    if ds == [] then 0
    else DigitsValue(ds[..|ds| - 1]) * 10 + DigitValue(ds[|ds| - 1])
  }

  /** strtol saturates at the bounds of `long` on overflow. */
  function Clamp(n: int): (r: int)
    ensures IsLong(r)
    ensures IsLong(n) ==> r == n
    ensures n < LONG_MIN ==> r == LONG_MIN
    ensures n > LONG_MAX ==> r == LONG_MAX
  {
    if n < LONG_MIN then LONG_MIN else if n > LONG_MAX then LONG_MAX else n
  }

  /**
   * strtol(s, NULL, 10): skip white space, take an optional sign, then the
   * longest run of digits; no digits at all gives 0. Nothing is rejected.
   */
  function Strtol(s: string): (n: int)
    ensures IsLong(n)
    ensures n < 0 ==> '-' in s
  {
    var i := SkipSpace(s, 0);
    var negative := i < |s| && s[i] == '-';
    var j := if i < |s| && (s[i] == '-' || s[i] == '+') then i + 1 else i;
    var magnitude: int := DigitsValue(s[j..DigitEnd(s, j)]);
    Clamp(if negative then -magnitude else magnitude)
  }

  // ------------------------------------------------------------------- %ld

  function DigitChar(d: nat): (c: char)
    requires d < 10
    ensures IsDigit(c) && c as int - '0' as int == d
  {
    ('0' as int + d) as char
  }

  /** Decimal numeral of a natural number, without leading zeros. */
  function FormatNat(n: nat): (s: string)
    ensures s != [] && AllDigits(s)
    ensures |s| > 1 ==> s[0] != '0'
    decreases n
  {
    if n < 10 then [DigitChar(n)] else FormatNat(n / 10) + [DigitChar(n % 10)]
  }

  /** What "%ld" prints for `n`. */
  function FormatLong(n: int): (s: string)
    ensures s != [] && IsCString(s) && CommaFree(s)
    ensures (s[0] == '-') == (n < 0)
  {
    if n < 0 then "-" + FormatNat(-n) else FormatNat(n)
  }

  lemma {:induction false} DigitsValueOfFormat(n: nat)
    ensures DigitsValue(FormatNat(n)) == n
  {
    if n >= 10 {
      DigitsValueOfFormat(n / 10);
      var s := FormatNat(n);
      assert s[..|s| - 1] == FormatNat(n / 10);
    }
  }

  lemma {:induction false} DigitEndOfDigits(s: string, i: nat)
    requires i <= |s| && AllDigits(s[i..])
    ensures DigitEnd(s, i) == |s|
    decreases |s| - i
  {
    if i < |s| {
      assert s[i] == s[i..][0];
      assert s[i + 1..] == s[i..][1..];
      DigitEndOfDigits(s, i + 1);
    }
  }

  /**
   * strtol reads back exactly the number "%ld" printed; a number beyond the
   * range of `long` (which the model's unbounded integers can hold) comes
   * back saturated.
   */
  lemma StrtolOfFormat(n: int)
    ensures Strtol(FormatLong(n)) == Clamp(n)
  {
    var s := FormatLong(n);
    var d := FormatNat(if n < 0 then -n else n);
    assert !IsSpace(s[0]);
    assert SkipSpace(s, 0) == 0;
    DigitsValueOfFormat(if n < 0 then -n else n);
    if n < 0 {
      assert s == "-" + d;
      assert s[1..] == d;
      DigitEndOfDigits(s, 1);
      assert s[1..|s|] == d;
    } else {
      assert s == d;
      DigitEndOfDigits(s, 0);
      assert s[0..|s|] == d;
    }
  }

  /** Text that is neither space, sign nor digit stops strtol. */
  predicate Stops(c: char) { !IsSpace(c) && !IsDigit(c) && c != '+' && c != '-' }

  lemma {:induction false} SkipSpaceAppend(x: string, y: string, i: nat)
    requires i <= |x| && y != [] && !IsSpace(y[0])
    ensures SkipSpace(x + y, i) == SkipSpace(x, i)
    decreases |x| - i
  {
    if i < |x| {
      assert (x + y)[i] == x[i];
      SkipSpaceAppend(x, y, i + 1);
    } else {
      assert (x + y)[i] == y[0];
    }
  }

  lemma {:induction false} DigitEndAppend(x: string, y: string, i: nat)
    requires i <= |x| && y != [] && !IsDigit(y[0])
    ensures DigitEnd(x + y, i) == DigitEnd(x, i)
    decreases |x| - i
  {
    if i < |x| {
      assert (x + y)[i] == x[i];
      DigitEndAppend(x, y, i + 1);
    } else {
      assert (x + y)[i] == y[0];
    }
  }

  /** strtol ignores everything from a stopping character on. */
  lemma StrtolStopsAt(x: string, y: string)
    requires y != [] && Stops(y[0])
    ensures Strtol(x + y) == Strtol(x)
  {
    var s := x + y;
    SkipSpaceAppend(x, y, 0);
    var i := SkipSpace(x, 0);
    assert i == |x| ==> s[i] == y[0];
    assert i < |x| ==> s[i] == x[i];
    var j := if i < |x| && (x[i] == '-' || x[i] == '+') then i + 1 else i;
    DigitEndAppend(x, y, j);
    var k := DigitEnd(x, j);
    assert s[j..k] == x[j..k];
  }

  /** strtol on the rest of a string stops at a stopping character, or at the end. */
  lemma StrtolUpTo(s: string, i: nat, j: nat)
    requires i <= j <= |s| && (j == |s| || Stops(s[j]))
    ensures Strtol(s[i..|s|]) == Strtol(s[i..j])
  {
    if j < |s| {
      var x, y := s[i..j], s[j..|s|];
      assert s[i..|s|] == x + y;
      assert y[0] == s[j];
      StrtolStopsAt(x, y);
    }
  }

  /** A leading zero does not count: "01" reads as 1. */
  lemma StrtolPadded()
    ensures Strtol("01") == 1
  {
    assert SkipSpace("01", 0) == 0 && DigitEnd("01", 2) == 2 && DigitEnd("01", 0) == 2;
    assert "01"[0..2][..1] == "0" && "0"[..0] == [];
  }

  /** A single digit reads as its value: "2" reads as 2. */
  lemma StrtolDigit()
    ensures Strtol("2") == 2
  {
    assert SkipSpace("2", 0) == 0 && DigitEnd("2", 1) == 1 && DigitEnd("2", 0) == 1;
    assert "2"[0..1][..0] == [];
  }

  /** A field without a single digit is read as 0. */
  lemma StrtolWithoutDigits(s: string)
    requires forall k :: 0 <= k < |s| ==> !IsDigit(s[k])
    ensures Strtol(s) == 0
  {
  }
}
