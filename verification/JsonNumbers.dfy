/** JSON numbers: printing integers with their signedness, and reading numbers back. */
module JsonNumbers {
  import opened Resources
  import opened TaskIds
  import opened JsonStrings

  const TWO_TO_THE_63 := 0x8000_0000_0000_0000
  const TWO_TO_THE_64 := 0x1_0000_0000_0000_0000

  /** Below this every long double counts exactly, even one that is no wider than a double. */
  const EXACT := 0x20_0000_0000_0000

  predicate IsInt64(value: int) {
    -0x8000_0000_0000_0000 <= value < 0x8000_0000_0000_0000
  }

  /** A number as read: an integer; an integer so large that its value depends on how wide a long double
      is; or decimal digits with a power of ten. */
  datatype Numeric =
    | Whole(sign: int, value: int)
    | Wide(sign: int, digits: nat)
    | Fraction(sign: int, digits: nat, exponent: int)

  // ----- printing

  function Decimal(value: int): string {
    if value < 0 then "-" + Itoa(-value) else Itoa(value)
  }

  /** The same bits, read without a sign. */
  function Unsigned(value: int): nat
    requires IsInt64(value)
  {
    if value < 0 then value + TWO_TO_THE_64 else value
  }

  function Magnitude(value: int): nat {
    if value < 0 then -value else value
  }

  /** The number that is printed: only an item marked as signed keeps a negative value. */
  function Shown(sign: int, value: int): int
    requires IsInt64(value)
  {
    if sign == -1 then value else Unsigned(value)
  }

  lemma {:induction false} ItoaLength(n: nat, digits: nat, bound: nat)
    requires n < bound && bound == Power10(digits) && digits > 0
    ensures |Itoa(n)| <= digits
  {
    if n >= 10 {
      ItoaLength(n / 10, digits - 1, bound / 10);
    }
  }

  function Power10(n: nat): (p: nat)
    ensures p > 0
  {
    if n == 0 then 1 else 10 * Power10(n - 1)
  }

  /** Conversion to a signed 32-bit number. */
  function Int32(value: int): int {
    var low := value % 0x1_0000_0000;
    if low < 0x8000_0000 then low else low - 0x1_0000_0000
  }

  lemma Int32Keeps(value: int)
    requires -0x8000_0000 <= value <= 0x7FFF_FFFF
    ensures Int32(value) == value
  {
  }

  /** The four formats: 32 or 64 bits, with or without sign. */
  method FormatInt(sign: int, value: int) returns (text: string)
    requires IsInt64(value)
    ensures text == Decimal(Shown(sign, value))
  {
    if sign == -1 {
      if -0x8000_0000 <= value <= 0x7FFF_FFFF {
        Int32Keeps(value);
        return Decimal(Int32(value));
      }
      return Decimal(value);
    }
    if Unsigned(value) <= 0xFFFF_FFFF {
      assert value % 0x1_0000_0000 == value == Unsigned(value);
      return Itoa(value % 0x1_0000_0000);
    }
    return Itoa(Unsigned(value));
  }

  /** Prints an integer into a buffer of 22 bytes, which is always enough. */
  method PrintInt(sign: int, value: int) returns (str: array<char>, len: nat)
    requires IsInt64(value)
    ensures fresh(str) && str.Length == 22 && len < 22
    ensures str[..len] == Decimal(Shown(sign, value)) && str[len] == '\0'
  {
    str := new char[22];
    DecimalFits(sign, value);
    var text := FormatInt(sign, value);
    len := StrCpy(str, 0, text);
  }

  lemma DecimalFits(sign: int, value: int)
    requires IsInt64(value)
    ensures |Decimal(Shown(sign, value))| < 22
  {
    assert Power10(20) == 100_000_000_000_000_000_000 by {
      assert Power10(5) == 100_000 && Power10(10) == 100_000 * Power10(5) by { PowerSplit(5); }
      PowerSplit(10);
    }
    ItoaLength(if Shown(sign, value) < 0 then -value else Shown(sign, value), 20, Power10(20));
  }

  lemma PowerSplit(n: nat)
    ensures Power10(n + n) == Power10(n) * Power10(n)
  {
    PowerSum(n, n);
  }

  lemma {:induction false} PowerSum(m: nat, n: nat)
    ensures Power10(m + n) == Power10(m) * Power10(n)
  {
    if m > 0 {
      PowerSum(m - 1, n);
    }
  }

  // ----- reading

  /** Reads digits on from a value. */
  function DigitRun(s: string, n: nat): (r: (nat, string))
    ensures |r.1| <= |s|
  {
    if s != "" && IsDigit(s[0]) then DigitRun(s[1..], n * 10 + (s[0] as int - '0' as int)) else (n, s)
  }

  /** Whether a text starts with one of these characters. */
  predicate Starts(s: string, chars: string) {
    s != "" && s[0] in chars
  }

  function Drop(s: string, chars: string): (r: string)
    ensures |r| <= |s|
  {
    if Starts(s, chars) then s[1..] else s
  }

  predicate StartsDigit(s: string) {
    s != "" && IsDigit(s[0])
  }

  /** The digits before the point: one zero is skipped, and then a run that starts with another digit. */
  function IntegerPart(s: string): (r: (nat, string))
    ensures |r.1| <= |s|
  {
    var rest := Drop(s, "0");
    if StartsDigit(rest) && rest[0] != '0' then DigitRun(rest, 0) else (0, rest)
  }

  /** The exponent, and what follows it. */
  function ExponentPart(s: string): (r: (int, string))
    ensures |r.1| <= |s|
  {
    if !Starts(s, "eE") then (0, s)
    else
      var digits := Drop(s[1..], "+-");
      var (n, rest) := DigitRun(digits, 0);
      var value: int := if Starts(s[1..], "-") then 0 - n else n;
      (value, rest)
  }

  /** The digits of a number read on behind the point, how many negated, and what follows. */
  function FractionPart(s: string, n: nat): (r: (nat, int, string))
    ensures |r.2| <= |s|
  {
    if Starts(s, ".") && StartsDigit(s[1..]) then
      var (digits, rest) := DigitRun(s[1..], n);
      (digits, |rest| - |s[1..]|, rest)
    else (n, 0, s)
  }

  /** An integer is counted in a long double and then converted to 64 bits. */
  function Integral(sign: int, digits: nat): Numeric {
    if digits < EXACT then Whole(sign, sign * digits) else Wide(sign, digits)
  }

  function Assembled(sign: int, digits: nat, scale: int, exponent: int): Numeric {
    if scale == 0 && exponent == 0 then Integral(sign, digits) else Fraction(sign, digits, scale + exponent)
  }

  /** What becomes of an integer where a long double is exact below this bound. From 2 to the 63rd on the
      conversion to 64 bits is undefined. */
  function SettledNumber(number: Numeric, bound: nat): Numeric {
    if number.Wide? && number.digits < bound then Whole(number.sign, number.sign * number.digits) else number
  }

  /** Reads a number; a point or an exponent that changes nothing leaves it an integer. */
  function ParseNumeral(s: string): (r: (Numeric, string))
    ensures |r.1| <= |s|
  {
    var sign := if Starts(s, "-") then -1 else 1;
    var (n, more) := IntegerPart(Drop(s, "-"));
    var (digits, scale, rest) := FractionPart(more, n);
    var (exponent, end) := ExponentPart(rest);
    (Assembled(sign, digits, scale, exponent), end)
  }

  /** What may follow a number without being taken for a part of it. */
  predicate Ends(rest: string) {
    !Starts(rest, ".") && !Starts(rest, "eE") && !StartsDigit(rest)
  }

  // ----- round trip

  lemma {:induction false} DigitsContinue(a: string, b: string, n: nat)
    requires forall c | c in a :: IsDigit(c)
    ensures DigitRun(a + b, n) == DigitRun(b, DigitRun(a, n).0)
  {
    if a == "" {
      assert a + b == b;
    } else {
      assert IsDigit(a[0]) && (a + b)[1..] == a[1..] + b;
      DigitsContinue(a[1..], b, n * 10 + (a[0] as int - '0' as int));
    }
  }

  lemma {:induction false} ItoaReads(n: nat)
    ensures DigitRun(Itoa(n), 0).0 == n
    ensures n > 0 ==> Itoa(n)[0] != '0'
    ensures forall c | c in Itoa(n) :: IsDigit(c)
  {
    ItoaIsDigits(n);
    if n >= 10 {
      ItoaReads(n / 10);
      DigitsContinue(Itoa(n / 10), [Digit(n % 10)], 0);
    }
  }

  lemma IntegerPartReads(n: nat, rest: string)
    requires Ends(rest)
    ensures IntegerPart(Itoa(n) + rest) == (n, rest)
  {
    var s := Itoa(n) + rest;
    ItoaReads(n);
    assert s[0] == Itoa(n)[0] && IsDigit(s[0]);
    if n == 0 {
      assert s[1..] == rest;
    } else {
      DigitsContinue(Itoa(n), rest, 0);
    }
  }

  lemma NumberStops(rest: string, n: nat)
    requires Ends(rest)
    ensures FractionPart(rest, n) == (n, 0, rest) && ExponentPart(rest) == (0, rest)
  {
  }

  /** What reading gives for a number shown. */
  function ReadBack(shown: int): Numeric {
    Integral(if shown < 0 then -1 else 1, Magnitude(shown))
  }

  lemma DecimalParses(value: int, rest: string)
    requires Ends(rest)
    ensures ParseNumeral(Decimal(value) + rest) == (ReadBack(value), rest)
  {
    var n := Magnitude(value);
    DecimalSigned(value, rest);
    IntegerPartReads(n, rest);
    NumberStops(rest, n);
  }

  lemma DecimalSigned(value: int, rest: string)
    ensures var s := Decimal(value) + rest;
      (Starts(s, "-") <==> value < 0) && Drop(s, "-") == Itoa(if value < 0 then -value else value) + rest
  {
    var s := Decimal(value) + rest;
    if value < 0 {
      assert s[1..] == Itoa(-value) + rest;
    } else {
      ItoaReads(value);
      assert s[0] == Itoa(value)[0] && IsDigit(s[0]);
    }
  }

  /** This value is read, on platforms where a long double is exact below this bound. */
  predicate Comes(number: Numeric, value: int, bound: nat) {
    var settled := SettledNumber(number, bound);
    settled.Whole? && settled.value == value
  }

  /** An integer below a bound, below which a long double is exact, survives printing and reading exactly if
      it is not negative or is marked as signed; one that does not is shown too large for the field. Where
      the bound is 2 to the 63rd, an integer of any size survives exactly if the number shown is below it. */
  lemma IntegerSurvives(sign: int, value: int, rest: string, bound: nat)
    requires IsInt64(value) && Ends(rest) && EXACT <= bound <= TWO_TO_THE_63
    ensures var shown := Shown(sign, value); var r := ParseNumeral(Decimal(shown) + rest);
      && r.1 == rest
      && (Magnitude(value) < bound ==> (Comes(r.0, value, bound) <==> sign == -1 || value >= 0))
      && (Magnitude(value) < EXACT && (sign == -1 || value >= 0) ==> r.0.Whole? && r.0.value == value)
      && (sign != -1 && value < 0 ==> r.0 == Wide(1, value + TWO_TO_THE_64))
      && (Comes(r.0, value, TWO_TO_THE_63) <==> Magnitude(shown) < TWO_TO_THE_63)
  {
    DecimalParses(Shown(sign, value), rest);
  }

  // ----- numerals with fractions and exponents

  /** The number that some digits denote, by place. */
  function ValueOf(digits: string): nat
    requires forall c | c in digits :: IsDigit(c)
  {
    if digits == "" then 0
    else
      var last := |digits| - 1;
      assert digits[last] in digits && IsDigit(digits[last]);
      10 * ValueOf(digits[..last]) + (digits[last] as int - '0' as int)
  }

  lemma {:induction false} RunIsValue(digits: string, rest: string, n: nat)
    requires (forall c | c in digits :: IsDigit(c)) && !StartsDigit(rest)
    ensures DigitRun(digits + rest, n) == (n * Power10(|digits|) + ValueOf(digits), rest)
  {
    RunReads(digits, n);
    DigitsContinue(digits, rest, n);
  }

  lemma {:induction false} RunReads(digits: string, n: nat)
    requires forall c | c in digits :: IsDigit(c)
    ensures DigitRun(digits, n) == (n * Power10(|digits|) + ValueOf(digits), "")
  {
    if digits != "" {
      var last := |digits| - 1;
      var front := digits[..last];
      assert digits == front + [digits[last]] && IsDigit(digits[last]);
      RunReads(front, n);
      DigitsContinue(front, [digits[last]], n);
      assert Power10(|digits|) == 10 * Power10(|front|);
      assert [digits[last]][1..] == "";
    }
  }

  /** Digits after digits count by place. */
  lemma {:induction false} ValuesJoin(a: string, b: string)
    requires (forall c | c in a :: IsDigit(c)) && (forall c | c in b :: IsDigit(c))
    ensures ValueOf(a + b) == ValueOf(a) * Power10(|b|) + ValueOf(b)
  {
    if b == "" {
      assert a + b == a;
    } else {
      var front, last := b[..|b| - 1], b[|b| - 1];
      assert a + b == (a + front) + [last] && b == front + [last] && last in b && IsDigit(last);
      ValuesJoin(a, front);
      ValueNext(a + front, last);
      ValueNext(front, last);
      TimesTen(ValueOf(a), |front|);
    }
  }

  lemma ValueNext(digits: string, c: char)
    requires (forall d | d in digits :: IsDigit(d)) && IsDigit(c)
    ensures ValueOf(digits + [c]) == 10 * ValueOf(digits) + (c as int - '0' as int)
  {
    assert (digits + [c])[..|digits|] == digits;
  }

  lemma TimesTen(n: nat, k: nat)
    ensures n * Power10(k + 1) == 10 * (n * Power10(k))
  {
  }

  predicate AllDigits(s: string) {
    forall c | c in s :: IsDigit(c)
  }

  /** A numeral of JSON (section 6 of RFC 8259): no digits of a fraction or of an exponent where it has none. */
  datatype Numeral = Numeral(minus: bool, whole: string, fraction: string, e: string, sign: string, power: string)
  {
    predicate Ok() {
      && AllDigits(whole) && AllDigits(fraction) && AllDigits(power)
      && whole != "" && (whole == "0" || whole[0] != '0')
      && (power != "" ==> e in {"e", "E"} && sign in {"", "+", "-"})
    }

    function Text(): string {
      (if minus then "-" else "") + whole + (if fraction == "" then "" else "." + fraction)
      + if power == "" then "" else e + sign + power
    }

    /** The exponent written. */
    function Tens(): int
      requires Ok()
    {
      if power == "" then 0 else if sign == "-" then 0 - ValueOf(power) else ValueOf(power)
    }
  }

  lemma WholeReads(whole: string, rest: string)
    requires AllDigits(whole) && whole != "" && (whole == "0" || whole[0] != '0') && !StartsDigit(rest)
    ensures IntegerPart(whole + rest) == (ValueOf(whole), rest)
  {
    var s := whole + rest;
    assert s[0] == whole[0] && whole[0] in whole;
    if whole == "0" {
      assert s[1..] == rest;
    } else {
      RunIsValue(whole, rest, 0);
    }
  }

  /** The digits of whole and fraction together. */
  function Together(whole: string, fraction: string): nat
    requires AllDigits(whole) && AllDigits(fraction)
  {
    ValueOf(whole) * Power10(|fraction|) + ValueOf(fraction)
  }

  lemma FractionReads(whole: string, fraction: string, rest: string, s: string)
    requires AllDigits(whole) && AllDigits(fraction) && !StartsDigit(rest)
    requires if fraction == "" then s == rest && !Starts(rest, ".") else s == "." + (fraction + rest)
    ensures FractionPart(s, ValueOf(whole)) == (Together(whole, fraction), 0 - |fraction|, rest) && !StartsDigit(s)
  {
    if fraction != "" {
      var more := fraction + rest;
      assert s[0] == '.' && s[1..] == more && more[0] == fraction[0] && fraction[0] in fraction;
      RunIsValue(fraction, rest, ValueOf(whole));
      PointReads(s, more, rest, ValueOf(whole), Together(whole, fraction));
    }
  }

  lemma PointReads(s: string, more: string, rest: string, n: nat, value: nat)
    requires s != "" && s[0] == '.' && s[1..] == more && StartsDigit(more) && DigitRun(more, n) == (value, rest)
    ensures FractionPart(s, n) == (value, |rest| - |more|, rest)
  {
  }

  lemma PowerReads(e: string, sign: string, power: string, rest: string)
    requires AllDigits(power) && power != "" && e in {"e", "E"} && sign in {"", "+", "-"} && !StartsDigit(rest)
    ensures ExponentPart(e + sign + power + rest) == (if sign == "-" then 0 - ValueOf(power) else ValueOf(power), rest)
  {
    var s, digits := e + sign + power + rest, power + rest;
    assert digits[0] == power[0] && power[0] in power;
    assert s[0] == e[0] && s[1..] == sign + digits;
    if sign == "" {
      assert s[1..] == digits;
    } else {
      assert s[1..][0] == sign[0] && s[1..][1..] == digits;
    }
    RunIsValue(power, rest, 0);
  }

  /** What a numeral is read as: the digits of whole and fraction together and a power of ten, or an integer if
      neither a fraction nor an exponent other than zero is there. */
  function Denoted(x: Numeral): Numeric
    requires x.Ok()
  {
    var sign := if x.minus then -1 else 1;
    var digits := Together(x.whole, x.fraction);
    if x.fraction == "" && x.Tens() == 0 then
      if digits < 0x20_0000_0000_0000 then Whole(sign, sign * digits) else Wide(sign, digits)
    else Fraction(sign, digits, x.Tens() - |x.fraction|)
  }

  /** Every numeral is read whole, as what it denotes. */
  lemma NumeralReads(x: Numeral, rest: string)
    requires x.Ok() && Ends(rest)
    ensures ParseNumeral(x.Text() + rest) == (Denoted(x), rest)
    ensures AllDigits(x.whole + x.fraction) && ValueOf(x.whole + x.fraction) == Together(x.whole, x.fraction)
  {
    ValuesJoin(x.whole, x.fraction);
    var power := if x.power == "" then rest else x.e + x.sign + x.power + rest;
    var fraction := if x.fraction == "" then power else "." + (x.fraction + power);
    TextByParts(x, rest, power, fraction);
    SpelledReads(x, x.Text() + rest, fraction, power, rest);
  }

  lemma SpelledReads(x: Numeral, s: string, fraction: string, power: string, rest: string)
    requires x.Ok() && Ends(rest) && power == if x.power == "" then rest else x.e + x.sign + x.power + rest
    requires fraction == if x.fraction == "" then power else "." + (x.fraction + power)
    requires (Starts(s, "-") <==> x.minus) && Drop(s, "-") == x.whole + fraction
    ensures ParseNumeral(s) == (Denoted(x), rest)
  {
    TailReads(x, power, rest);
    FractionReads(x.whole, x.fraction, power, fraction);
    WholeReads(x.whole, fraction);
    PartsAssemble(x, s, fraction, power, rest, x.Tens());
  }

  lemma TailReads(x: Numeral, power: string, rest: string)
    requires x.Ok() && Ends(rest) && power == if x.power == "" then rest else x.e + x.sign + x.power + rest
    ensures ExponentPart(power) == (x.Tens(), rest) && !StartsDigit(power) && !Starts(power, ".")
  {
    if x.power != "" {
      PowerReads(x.e, x.sign, x.power, rest);
      assert power[0] == x.e[0];
    }
  }

  lemma PartsAssemble(x: Numeral, s: string, fraction: string, power: string, rest: string, tens: int)
    requires x.Ok() && (Starts(s, "-") <==> x.minus) && IntegerPart(Drop(s, "-")) == (ValueOf(x.whole), fraction)
    requires FractionPart(fraction, ValueOf(x.whole)) == (Together(x.whole, x.fraction), 0 - |x.fraction|, power)
    requires ExponentPart(power) == (tens, rest) && tens == x.Tens()
    ensures ParseNumeral(s) == (Denoted(x), rest)
  {
  }

  lemma TextByParts(x: Numeral, rest: string, power: string, fraction: string)
    requires x.Ok()
    requires power == if x.power == "" then rest else x.e + x.sign + x.power + rest
    requires fraction == if x.fraction == "" then power else "." + (x.fraction + power)
    ensures var s := x.Text() + rest; (Starts(s, "-") <==> x.minus) && Drop(s, "-") == x.whole + fraction
  {
    var s, body := x.Text() + rest, x.whole + fraction;
    assert body[0] == x.whole[0] && x.whole[0] in x.whole && IsDigit(body[0]);
    if x.minus {
      assert s == "-" + body;
      assert s[1..] == body;
    } else {
      assert s == body;
    }
  }

  // ----- the parser, on positions of a text

  method ScanDigits(text: string, start: nat, n: nat) returns (value: nat, ptr: nat)
    requires start <= |text|
    ensures start <= ptr <= |text| && DigitRun(text[start..], n) == (value, text[ptr..])
  {
    ptr, value := start, n;
    while '0' <= At(text, ptr) <= '9'
      invariant start <= ptr <= |text| && DigitRun(text[start..], n) == DigitRun(text[ptr..], value)
      decreases |text| - ptr
    {
      assert text[ptr..][1..] == text[ptr + 1..];
      value, ptr := value * 10 + (text[ptr] as int - '0' as int), ptr + 1;
    }
  }

  method ScanInteger(text: string, start: nat) returns (n: nat, num: nat)
    requires start <= |text|
    ensures start <= num <= |text| && IntegerPart(text[start..]) == (n, text[num..])
  {
    n, num := 0, start;
    if At(text, num) == '0' {
      assert text[num..][1..] == text[num + 1..];
      num := num + 1;
    }
    if '1' <= At(text, num) <= '9' {
      n, num := ScanDigits(text, num, 0);
    }
  }

  method ScanFraction(text: string, start: nat, n: nat) returns (digits: nat, scale: int, num: nat)
    requires start <= |text|
    ensures start <= num <= |text| && FractionPart(text[start..], n) == (digits, scale, text[num..])
  {
    digits, scale, num := n, 0, start;
    if At(text, num) == '.' && '0' <= At(text, num + 1) <= '9' {
      assert text[start..][1..] == text[start + 1..];
      digits, num := ScanDigits(text, start + 1, n);
      scale := start + 1 - num;
    }
  }

  method ScanExponent(text: string, start: nat) returns (exponent: int, num: nat)
    requires start <= |text|
    ensures start <= num <= |text| && ExponentPart(text[start..]) == (exponent, text[num..])
  {
    exponent, num := 0, start;
    if At(text, num) == 'e' || At(text, num) == 'E' {
      assert text[start..][1..] == text[start + 1..];
      var signsubscale: int := 1;
      num := num + 1;
      if At(text, num) == '+' {
        assert text[num..][1..] == text[num + 1..];
        num := num + 1;
      } else if At(text, num) == '-' {
        assert text[num..][1..] == text[num + 1..];
        num := num + 1;
        signsubscale := -1;
      }
      var subscale;
      subscale, num := ScanDigits(text, num, 0);
      exponent := subscale * signsubscale;
    }
  }

  /** Reads a number at a position. */
  method ParseNumber(text: string, p: nat) returns (r: Numeric, num: nat)
    requires p <= |text|
    ensures p <= num <= |text| && ParseNumeral(text[p..]) == (r, text[num..])
  {
    var sign: int := 1;
    num := p;
    if At(text, num) == '-' {
      assert text[num..][1..] == text[num + 1..];
      num := num + 1;
      sign := -1;
    }
    assert Drop(text[p..], "-") == text[num..];
    var n, digits, scale, subscale;
    n, num := ScanInteger(text, num);
    digits, scale, num := ScanFraction(text, num, n);
    subscale, num := ScanExponent(text, num);
    if scale == 0 && subscale == 0 {
      r := Integral(sign, digits);
    } else {
      r := Fraction(sign, digits, scale + subscale);
    }
  }
}
