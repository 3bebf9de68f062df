/** Decimal text: `std::to_string`, `std::stoll` and `Long.parseLong` over 64-bit integers. */
module Decimal {
  import opened Prelude

  const INT64_MIN: int := -0x8000_0000_0000_0000
  const INT64_MAX: int := 0x7fff_ffff_ffff_ffff
  const TWO_TO_64: int := 0x1_0000_0000_0000_0000

  predicate InInt64(n: int) {
    INT64_MIN <= n <= INT64_MAX
  }

  /** Two's-complement reading of the low 64 bits of `n`. */
  function Wrap64(n: int): (r: int)
    ensures InInt64(r)
    ensures r == n <==> InInt64(n)
  {
    (n - INT64_MIN) % TWO_TO_64 + INT64_MIN
  }

  /** Wrap64 picks the one 64-bit integer that differs by a multiple of 2^64. */
  lemma {:induction false} WrapUnique(n: int, r: int, q: int)
    requires InInt64(r) && n == r + q * TWO_TO_64
    ensures Wrap64(n) == r
  {
    var p := (n - INT64_MIN) / TWO_TO_64;
    assert n - INT64_MIN == p * TWO_TO_64 + (n - INT64_MIN) % TWO_TO_64;
    assert (p - q) * TWO_TO_64 == r - Wrap64(n);
  }

  lemma WrapQuotient(n: int) returns (q: int)
    ensures n == Wrap64(n) + q * TWO_TO_64
  {
    q := (n - INT64_MIN) / TWO_TO_64;
  }

  /** Wrapping an operand first changes nothing: 64-bit addition composes. */
  lemma WrapWraps(a: int, b: int)
    ensures Wrap64(Wrap64(a) + b) == Wrap64(a + b)
  {
    var q := WrapQuotient(a);
    var p := WrapQuotient(a + b);
    WrapUnique(Wrap64(a) + b, Wrap64(a + b), p - q);
  }

  // ---------- digits ----------

  predicate IsDigit(c: char) {
    '0' <= c <= '9'
  }

  function DigitChar(d: nat): (c: char)
    requires d < 10
    ensures IsDigit(c) && DigitValue(c) == d
  {
    ('0' as int + d) as char
  }

  function DigitValue(c: char): nat
    requires IsDigit(c)
  {
    c as int - '0' as int
  }

  predicate AllDigits(s: string) {
    forall i :: 0 <= i < |s| ==> IsDigit(s[i])
  }

  function Value(digits: string): nat
    requires AllDigits(digits)
  {
    if digits == "" then 0
    else Value(digits[..|digits| - 1]) * 10 + DigitValue(digits[|digits| - 1])
  }

  function Digits(n: nat): (s: string)
    ensures s != "" && AllDigits(s) && Value(s) == n
  {
    if n < 10 then [DigitChar(n)] else Digits(n / 10) + [DigitChar(n % 10)]
  }

  /** How many leading characters of `s` are digits. */
  function DigitRun(s: string): (n: nat)
    ensures n <= |s| && AllDigits(s[..n])
    ensures n < |s| ==> !IsDigit(s[n])
  {
    if s == "" || !IsDigit(s[0]) then 0 else 1 + DigitRun(s[1..])
  }

  // ---------- printing and parsing ----------

  /** `std::to_string(long long)`, which is also how Java prints a `long`. */
  function ToString(n: int): string {
    if n < 0 then "-" + Digits(-n) else Digits(n)
  }

  predicate IsSpace(c: char) {
    c == ' ' || c == '\t' || c == '\n' || c == '\U{0B}' || c == '\U{0C}' || c == '\r'
  }

  function SkipSpace(s: string): string {
    if s != "" && IsSpace(s[0]) then SkipSpace(s[1..]) else s
  }

  predicate Signed(s: string) {
    s != "" && (s[0] == '-' || s[0] == '+')
  }

  function Unsigned(s: string): string {
    if Signed(s) then s[1..] else s
  }

  function SignedValue(s: string, magnitude: int): int {
    if Signed(s) && s[0] == '-' then -magnitude else magnitude
  }

  function Ranged(n: int): Option<int> {
    if InInt64(n) then Some(n) else None
  }

  /** `std::stoll`: leading space, a sign and the longest digit prefix; `None` stands for its exceptions. */
  function Stoll(s: string): (r: Option<int>)
    ensures r.Some? ==> InInt64(r.value)
  {
    var t := SkipSpace(s);
    var u := Unsigned(t);
    var n := DigitRun(u);
    if n == 0 then None else Ranged(SignedValue(t, Value(u[..n])))
  }

  /** `Long.parseLong`: the whole text must be a number; `None` stands for NumberFormatException. */
  function ParseLong(s: string): (r: Option<int>)
    ensures r.Some? ==> InInt64(r.value)
  {
    var u := Unsigned(s);
    if u == "" || !AllDigits(u) then None else Ranged(SignedValue(s, Value(u)))
  }

  lemma {:induction false} FullDigitRun(s: string)
    requires AllDigits(s)
    ensures DigitRun(s) == |s| && s[..|s|] == s
  {
  }

  /** Every 64-bit integer survives printing and both parsers, the minimum included. */
  lemma {:induction false} NumberRoundTrip(n: int)
    requires InInt64(n)
    ensures Stoll(ToString(n)) == Some(n)
    ensures ParseLong(ToString(n)) == Some(n)
  {
    var digits := Digits(if n < 0 then -n else n);
    FullDigitRun(digits);
    assert Unsigned(ToString(n)) == digits;
    assert SkipSpace(ToString(n)) == ToString(n);
  }

  /** Whatever the client accepts as a number, the server reads as the same number. */
  lemma {:induction false} StrictParseIsPrefixParse(s: string)
    requires ParseLong(s).Some?
    ensures Stoll(s) == ParseLong(s)
  {
    FullDigitRun(Unsigned(s));
    assert SkipSpace(s) == s;
  }

  // ---------- which texts are numbers, told without a parser ----------

  predicate AllSpace(s: string) {
    forall i :: 0 <= i < |s| ==> IsSpace(s[i])
  }

  function Negated(sign: string, magnitude: int): int {
    if sign == "-" then -magnitude else magnitude
  }

  /** `sign` and `digits` spell the number `n`. */
  predicate Spells(sign: string, digits: string, n: int) {
    && (sign == "" || sign == "+" || sign == "-")
    && digits != "" && AllDigits(digits) && n == Negated(sign, Value(digits))
  }

  /** `s` is white space, then a spelled number, then anything that does not go on with a digit. */
  ghost predicate StartsWithNumber(s: string, n: int) {
    exists space, sign, digits, rest ::
      && AllSpace(space) && Spells(sign, digits, n) && (rest == "" || !IsDigit(rest[0]))
      && s == space + (sign + (digits + rest))
  }

  ghost predicate IsNumber(s: string, n: int) {
    exists sign, digits :: Spells(sign, digits, n) && s == sign + digits
  }

  lemma {:induction false} SkipAllSpace(space: string, rest: string)
    requires AllSpace(space) && (rest == "" || !IsSpace(rest[0]))
    ensures SkipSpace(space + rest) == rest
  {
    if space == "" {
      assert space + rest == rest;
    } else {
      assert (space + rest)[1..] == space[1..] + rest;
      SkipAllSpace(space[1..], rest);
    }
  }

  lemma {:induction false} DigitRunOf(digits: string, rest: string)
    requires AllDigits(digits) && (rest == "" || !IsDigit(rest[0]))
    ensures DigitRun(digits + rest) == |digits| && (digits + rest)[..|digits|] == digits
  {
    if digits == "" {
      assert digits + rest == rest;
    } else {
      assert (digits + rest)[1..] == digits[1..] + rest;
      DigitRunOf(digits[1..], rest);
    }
  }

  lemma {:induction false} UnsignedOf(sign: string, digits: string, rest: string)
    requires (sign == "" || sign == "+" || sign == "-") && digits != "" && AllDigits(digits)
    ensures var t := sign + (digits + rest);
      && Unsigned(t) == digits + rest && t != "" && !IsSpace(t[0])
      && forall m :: SignedValue(t, m) == Negated(sign, m)
  {
    var t := sign + (digits + rest);
    assert sign == "" ==> t == digits + rest;
    assert sign != "" ==> t[0] == sign[0] && t[1..] == digits + rest;
  }

  lemma {:induction false} SkippedSpace(s: string) returns (space: string)
    ensures AllSpace(space) && s == space + SkipSpace(s)
  {
    if s != "" && IsSpace(s[0]) {
      var more := SkippedSpace(s[1..]);
      space := [s[0]] + more;
    } else {
      space := "";
    }
  }

  lemma {:induction false} SignOf(t: string) returns (sign: string)
    ensures (sign == "" || sign == "+" || sign == "-") && t == sign + Unsigned(t)
    ensures forall m :: SignedValue(t, m) == Negated(sign, m)
  {
    sign := if Signed(t) then t[..1] else "";
  }

  /** `stoll` reads exactly the numbers that texts start with, as long as they fit in 64 bits; everything
      else is one of its exceptions. */
  lemma {:induction false} StollExactly(s: string, n: int)
    ensures Stoll(s) == Some(n) <==> InInt64(n) && StartsWithNumber(s, n)
  {
    hide SkipSpace, DigitRun, Unsigned, SignedValue, Value, AllSpace, AllDigits;
    if StartsWithNumber(s, n) {
      var space, sign, digits, rest :|
        && AllSpace(space) && Spells(sign, digits, n) && (rest == "" || !IsDigit(rest[0]))
        && s == space + (sign + (digits + rest));
      UnsignedOf(sign, digits, rest);
      SkipAllSpace(space, sign + (digits + rest));
      DigitRunOf(digits, rest);
    }
    if Stoll(s) == Some(n) {
      var space := SkippedSpace(s);
      var t := SkipSpace(s);
      var sign := SignOf(t);
      var u := Unsigned(t);
      var digits, rest := u[..DigitRun(u)], u[DigitRun(u)..];
      assert u == digits + rest && Spells(sign, digits, n);
      assert s == space + (sign + (digits + rest));
    }
  }

  /** `Long.parseLong` reads exactly the numbers, with nothing around them. */
  lemma {:induction false} ParseLongExactly(s: string, n: int)
    ensures ParseLong(s) == Some(n) <==> InInt64(n) && IsNumber(s, n)
  {
    hide Unsigned, SignedValue, Value, AllDigits;
    if IsNumber(s, n) {
      var sign, digits :| Spells(sign, digits, n) && s == sign + digits;
      UnsignedOf(sign, digits, "");
      assert sign + (digits + "") == s && digits + "" == digits;
    }
    if ParseLong(s) == Some(n) {
      var sign := SignOf(s);
      assert Spells(sign, Unsigned(s), n);
    }
  }

  /** White space is what C's `isspace` takes for it: tab, the four line and page breaks, and blank. */
  lemma WhiteSpaceCodes(c: char)
    ensures IsSpace(c) <==> 9 <= c as int <= 13 || c as int == 32
  {
  }

  function Pow10(n: nat): nat {
    if n == 0 then 1 else 10 * Pow10(n - 1)
  }

  /** Digits count by place: the first of n + 1 stands for 10^n. */
  lemma {:induction false} ValueByPlace(digit: char, rest: string)
    requires IsDigit(digit) && AllDigits(rest)
    ensures Value([digit] + rest) == (digit as int - 48) * Pow10(|rest|) + Value(rest)
  {
    var s := [digit] + rest;
    if rest == "" {
      assert s[..0] == "";
    } else {
      var k := |rest| - 1;
      assert s[..|s| - 1] == [digit] + rest[..k] && s[|s| - 1] == rest[k];
      ValueByPlace(digit, rest[..k]);
      assert Value(s) == Value([digit] + rest[..k]) * 10 + DigitValue(rest[k]);
      assert (digit as int - 48) * (10 * Pow10(k)) == (digit as int - 48) * Pow10(k) * 10;
    }
  }

  /** Printing writes the digits '0' to '9' without leading zeros. */
  lemma {:induction false} PrintingIsPlain(n: int)
    ensures 0 <= n < 10 ==> ToString(n) == ["0123456789"[n]]
    ensures n > 0 ==> ToString(n)[0] != '0'
    ensures n < 0 ==> ToString(n) == "-" + ToString(-n)
  {
    if n >= 10 {
      PrintingIsPlain(n / 10);
      assert ToString(n) == Digits(n / 10) + [DigitChar(n % 10)];
    }
  }
}
