/** C strings. A `char` stands for one unsigned byte, and a string for the bytes before the NUL. */
module CStrings {

  predicate NulFree(s: string) {
    forall i :: 0 <= i < |s| ==> s[i] != '\0'
  }

  /** What `snprintf(dest, size, "%s", s)` leaves in a buffer of `size` bytes, `size > 0`. */
  function Fit(s: string, size: nat): (r: string)
    ensures size > 0 ==> |r| < size
    ensures |s| < size ==> r == s
  {
    if |s| < size then s else if size == 0 then "" else s[..size - 1]
  }

  // ---------------------------------------------------------------- strcmp

  /** The sign of `strcmp`: the first differing byte decides, and a proper prefix is smaller. */
  function Strcmp(a: string, b: string): (r: int)
    ensures r == 0 <==> a == b
  {
    if a == [] then (if b == [] then 0 else -1)
    else if b == [] then 1
    else if a[0] < b[0] then -1
    else if b[0] < a[0] then 1
    else
      assert a == [a[0]] + a[1..] && b == [b[0]] + b[1..];
      Strcmp(a[1..], b[1..])
  }

  lemma {:induction false} StrcmpFlips(a: string, b: string)
    ensures Strcmp(b, a) == -Strcmp(a, b)
  {
    if a != [] && b != [] && a[0] == b[0] {
      StrcmpFlips(a[1..], b[1..]);
    }
  }

  lemma {:induction false} StrcmpTransitive(a: string, b: string, c: string)
    requires Strcmp(a, b) <= 0 && Strcmp(b, c) <= 0
    ensures Strcmp(a, c) <= 0
  {
    if a != [] && b != [] && c != [] && a[0] == b[0] == c[0] {
      StrcmpTransitive(a[1..], b[1..], c[1..]);
    }
  }

  // ---------------------------------------------------------------- decimal numbers

  predicate IsDigit(c: char) {
    '0' <= c <= '9'
  }

  function Digit(d: nat): (c: char)
    requires d < 10
    ensures IsDigit(c)
  {
    '0' + d as char
  }

  function DigitValue(c: char): (d: nat)
    requires IsDigit(c)
    ensures d < 10
  {
    (c - '0') as nat
  }

  /** `%u` and `%lu`: no sign, no leading zero. */
  function Decimal(n: nat): (s: string)
    ensures s != [] && (forall i :: 0 <= i < |s| ==> IsDigit(s[i]))
    ensures s[0] == '0' ==> s == "0"
    ensures n > 0 ==> s[0] != '0'
  {
    if n < 10 then [Digit(n)] else Decimal(n / 10) + [Digit(n % 10)]
  }

  /** The number a run of digits denotes. */
  function DecimalValue(s: string): (n: nat)
    requires forall i :: 0 <= i < |s| ==> IsDigit(s[i])
  {
    if s == [] then 0 else 10 * DecimalValue(s[..|s| - 1]) + DigitValue(s[|s| - 1])
  }

  /** Printing a number and reading the digits gives the number back. */
  lemma {:induction false} DecimalRoundTrip(n: nat)
    ensures DecimalValue(Decimal(n)) == n
  {
    if n >= 10 {
      DecimalRoundTrip(n / 10);
      assert Decimal(n)[..|Decimal(n)| - 1] == Decimal(n / 10);
    }
  }

  lemma {:induction false} DecimalLength(n: nat, digits: nat, bound: nat)
    requires digits > 0 && bound == Power10(digits) && n < bound
    ensures |Decimal(n)| <= digits
  {
    if n >= 10 {
      assert digits > 1;
      DecimalLength(n / 10, digits - 1, Power10(digits - 1));
    }
  }

  function Power10(n: nat): nat {
    if n == 0 then 1 else 10 * Power10(n - 1)
  }

  // ---------------------------------------------------------------- hexadecimal digits

  predicate IsHexDigit(c: char) {
    '0' <= c <= '9' || 'A' <= c <= 'F' || 'a' <= c <= 'f'
  }

  function HexDigitValue(c: char): (d: nat)
    requires IsHexDigit(c)
    ensures d < 16
  {
    if '0' <= c <= '9' then (c - '0') as nat
    else if 'A' <= c <= 'F' then (c - 'A') as nat + 10
    else (c - 'a') as nat + 10
  }

  // ---------------------------------------------------------------- strtol and strstr

  /** `isspace` in the C locale. */
  predicate IsSpace(c: char) {
    c == ' ' || '\t' <= c <= '\r'
  }

  function SkipSpaces(s: string): (r: string)
    ensures |r| <= |s|
    ensures r != "" ==> !IsSpace(r[0])
  {
    if s != "" && IsSpace(s[0]) then SkipSpaces(s[1..]) else s
  }

  /** How many decimal digits lead `s`. */
  function DigitRun(s: string): (n: nat)
    ensures n <= |s| && forall i :: 0 <= i < n ==> IsDigit(s[i])
    ensures n < |s| ==> !IsDigit(s[n])
  {
    if s == "" || !IsDigit(s[0]) then 0 else 1 + DigitRun(s[1..])
  }

  lemma {:induction false} DigitRunAll(s: string, rest: string)
    requires forall i :: 0 <= i < |s| ==> IsDigit(s[i])
    requires rest == "" || !IsDigit(rest[0])
    ensures DigitRun(s + rest) == |s|
  {
    if s != "" {
      assert (s + rest)[1..] == s[1..] + rest;
      DigitRunAll(s[1..], rest);
    } else {
      assert s + rest == rest;
    }
  }

  const LONG_MAX: int := 0x7FFF_FFFF_FFFF_FFFF
  const LONG_MIN: int := -0x8000_0000_0000_0000

  /** What `strtol(s, &end, 10)` returns, whether it set `errno`, and what `end` points at. */
  datatype LongScan = LongScan(value: int, overflow: bool, rest: string)

  function Clamped(n: int): (r: int)
    ensures LONG_MIN <= r <= LONG_MAX
  {
    if n > LONG_MAX then LONG_MAX else if n < LONG_MIN then LONG_MIN else n
  }

  /** Spaces, a sign and digits; without a digit nothing is consumed. */
  function Strtol(s: string): (r: LongScan)
    ensures LONG_MIN <= r.value <= LONG_MAX && |r.rest| <= |s|
  {
    var t := SkipSpaces(s);
    if t != "" && t[0] == '-' then Numeral(s, true, t[1..])
    else if t != "" && t[0] == '+' then Numeral(s, false, t[1..])
    else Numeral(s, false, t)
  }

  function Numeral(s: string, negative: bool, u: string): (r: LongScan)
    ensures LONG_MIN <= r.value <= LONG_MAX && (|r.rest| <= |s| || |r.rest| <= |u|)
  {
    var n := DigitRun(u);
    if n == 0 then LongScan(0, false, s)
    else
      var signed := Signed(negative, DecimalValue(u[..n]));
      LongScan(Clamped(signed), Clamped(signed) != signed, u[n..])
  }

  function Signed(negative: bool, magnitude: int): int {
    if negative then -magnitude else magnitude
  }

  lemma NumeralDigits(s: string, v: nat)
    requires s != "" && (forall i :: 0 <= i < |s| ==> IsDigit(s[i])) && v == DecimalValue(s) <= LONG_MAX
    ensures Numeral(s, false, s) == LongScan(v, false, "")
  {
    AllDigits(s);
    assert s[..DigitRun(s)] == s;
  }

  lemma StrtolDigits(s: string, v: nat)
    requires s != "" && (forall i :: 0 <= i < |s| ==> IsDigit(s[i])) && v == DecimalValue(s) <= LONG_MAX
    ensures Strtol(s) == LongScan(v, false, "")
  {
    NumeralDigits(s, v);
    assert IsDigit(s[0]);
  }

  /** `strtol` reads a printed number back. */
  lemma StrtolDecimal(n: nat)
    requires n <= LONG_MAX
    ensures Strtol(Decimal(n)) == LongScan(n, false, "")
  {
    DecimalRoundTrip(n);
    StrtolDigits(Decimal(n), n);
  }

  lemma AllDigits(s: string)
    requires forall i :: 0 <= i < |s| ==> IsDigit(s[i])
    ensures DigitRun(s) == |s| && s[..|s|] == s && s[|s|..] == ""
  {
    DigitRunAll(s, "");
    assert s + "" == s;
  }

  /** `strstr` finds the text. */
  predicate Contains(s: string, text: string) {
    text <= s || (s != "" && Contains(s[1..], text))
  }
}
