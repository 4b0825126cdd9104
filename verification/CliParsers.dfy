/** The bounded number parsers of the command line. Machine integers are types here, so that the
    verifier checks at every step that nothing wraps around. */
module CliParsers {
  import opened Basics
  import opened Filter

  const UINT64_MAX: nat := 0xFFFF_FFFF_FFFF_FFFF
  const INT64_MAX: nat := 0x7FFF_FFFF_FFFF_FFFF

  newtype uint64 = x: int | 0 <= x <= 0xFFFF_FFFF_FFFF_FFFF
  newtype int64 = x: int | -0x8000_0000_0000_0000 <= x <= 0x7FFF_FFFF_FFFF_FFFF
  newtype uint32 = x: int | 0 <= x <= 0xFFFF_FFFF

  // ----- what digits mean -----

  predicate IsDigit(c: char, base: nat) { '0' <= c && (c as int) < ('0' as int) + base }

  predicate AllDigits(s: string, base: nat) { forall i :: 0 <= i < |s| ==> IsDigit(s[i], base) }

  function Digit(c: char): int { c as int - '0' as int }

  function Value(s: string, base: nat): int {
    if s == "" then 0 else Value(s[..|s| - 1], base) * base + Digit(s[|s| - 1])
  }

  lemma {:induction false} ValueGrows(s: string, base: nat, n: nat)
    requires AllDigits(s, base) && n <= |s| && base > 0
    ensures 0 <= Value(s[..n], base) <= Value(s, base)
    decreases |s|
  {
    assert s[..|s|] == s;
    if s != "" {
      var front := s[..|s| - 1];
      if n < |s| {
        ValueGrows(front, base, n);
        assert front[..n] == s[..n];
      } else {
        ValueGrows(front, base, |front|);
        assert front[..|front|] == front;
      }
      TimesGrows(Value(front, base), base);
    }
  }

  lemma TimesGrows(v: nat, m: nat)
    requires m > 0
    ensures v <= v * m
  {
  }

  lemma ValueStep(s: string, base: nat, i: nat)
    requires i < |s|
    ensures Value(s[..i + 1], base) == Value(s[..i], base) * base + Digit(s[i])
  {
    assert s[..i + 1][..i] == s[..i];
  }

  /** The decimal digits of n, most significant first. */
  function Decimal(n: nat): string {
    if n < 10 then [('0' as int + n) as char] else Decimal(n / 10) + [('0' as int + n % 10) as char]
  }

  lemma {:induction false} DecimalHasValue(n: nat)
    ensures Decimal(n) != "" && AllDigits(Decimal(n), 10) && Value(Decimal(n), 10) == n
  {
    var s := Decimal(n);
    if n < 10 {
      assert s[..0] == "";
    } else {
      DecimalHasValue(n / 10);
      assert s[..|s| - 1] == Decimal(n / 10);
    }
  }

  predicate AllZeros(s: string) { forall i :: 0 <= i < |s| ==> s[i] == '0' }

  /** Leading zeros change nothing. */
  lemma {:induction false} LeadingZeros(zeros: string, s: string, base: nat)
    requires AllZeros(zeros)
    ensures Value(zeros + s, base) == Value(s, base)
  {
    if s == "" {
      assert zeros + s == zeros;
      if zeros != "" {
        LeadingZeros(zeros[..|zeros| - 1], "", base);
        assert zeros[..|zeros| - 1] + "" == zeros[..|zeros| - 1];
      }
    } else {
      LeadingZeros(zeros, s[..|s| - 1], base);
      assert (zeros + s)[..|zeros + s| - 1] == zeros + s[..|s| - 1];
    }
  }

  lemma ZerosAreDigits(zeros: string, s: string, base: nat)
    requires AllZeros(zeros) && AllDigits(s, base) && s != "" && base > 0
    ensures AllDigits(zeros + s, base) && Value(zeros + s, base) == Value(s, base)
    ensures zeros + s != "" && IsDigit((zeros + s)[0], base)
  {
    LeadingZeros(zeros, s, base);
    assert IsDigit('0', base);
  }

  /** The octal digits of n, most significant first. */
  function Octal(n: nat): string {
    if n < 8 then [('0' as int + n) as char] else Octal(n / 8) + [('0' as int + n % 8) as char]
  }

  lemma {:induction false} OctalHasValue(n: nat)
    ensures Octal(n) != "" && AllDigits(Octal(n), 8) && Value(Octal(n), 8) == n
  {
    var s := Octal(n);
    if n < 8 {
      assert s[..0] == "";
    } else {
      OctalHasValue(n / 8);
      assert s[..|s| - 1] == Octal(n / 8);
    }
  }

  function Printed(n: nat, base: nat): string { if base == 8 then Octal(n) else Decimal(n) }

  lemma PrintedStep(v: nat, d: nat, base: nat)
    requires base in {8, 10} && d < base && v > 0
    ensures Printed(v * base + d, base) == Printed(v, base) + [('0' as int + d) as char]
  {
    if base == 8 {
      assert (v * 8 + d) / 8 == v && (v * 8 + d) % 8 == d;
    } else {
      assert (v * 10 + d) / 10 == v && (v * 10 + d) % 10 == d;
    }
  }

  lemma PrintedDigit(d: nat, base: nat)
    requires base in {8, 10} && d < base
    ensures Printed(d, base) == [('0' as int + d) as char]
  {
  }

  lemma OneMoreDigit(zeros: string, v: nat, d: nat, base: nat) returns (zeros': string)
    requires base in {8, 10} && d < base && AllZeros(zeros)
    ensures AllZeros(zeros') && zeros + Printed(v, base) + [('0' as int + d) as char] == zeros' + Printed(v * base + d, base)
  {
    if v == 0 {
      PrintedDigit(0, base);
      PrintedDigit(d, base);
      zeros' := zeros + Printed(0, base);
    } else {
      PrintedStep(v, d, base);
      Associative(zeros, Printed(v, base), [('0' as int + d) as char]);
      zeros' := zeros;
    }
  }

  lemma LastDigit(s: string, base: nat)
    requires s != "" && AllDigits(s, base)
    ensures var d := s[|s| - 1] as int - '0' as int;
            0 <= d < base && s == s[..|s| - 1] + [('0' as int + d) as char] && Value(s, base) == Value(s[..|s| - 1], base) * base + d
  {
    assert IsDigit(s[|s| - 1], base);
  }

  /** Every string of digits is zeros and a printed number. */
  lemma {:induction false} DigitsArePrinted(s: string, base: nat) returns (zeros: string, n: nat)
    requires base in {8, 10} && s != "" && AllDigits(s, base)
    ensures AllZeros(zeros) && s == zeros + Printed(n, base) && n == Value(s, base)
    decreases |s|
  {
    var front, d: nat := s[..|s| - 1], s[|s| - 1] as int - '0' as int;
    LastDigit(s, base);
    if front == "" {
      PrintedDigit(d, base);
      zeros, n := "", d;
    } else {
      var v: nat;
      zeros, v := DigitsArePrinted(front, base);
      zeros := OneMoreDigit(zeros, v, d, base);
      n := v * base + d;
    }
  }

  // ----- unsigned numbers -----

  function UnsignedMeaning(s: string): Option<nat> {
    if s != "" && AllDigits(s, 10) && 0 <= Value(s, 10) <= UINT64_MAX then Some(Value(s, 10)) else None
  }

  method ParseUnsigned(value: string, length: nat) returns (r: Option<nat>)
    requires length <= |value|
    ensures r == UnsignedMeaning(value[..length])
  {
    if length == 0 {
      return None;
    }
    ghost var s := value[..length];
    var accumulator: uint64 := 0;
    for index := 0 to length
      invariant AllDigits(s[..index], 10)
      invariant accumulator as int == Value(s[..index], 10)
    {
      var character := value[index];
      if character < '0' || character > '9' {
        assert !IsDigit(s[index], 10);
        return None;
      }
      var digit := (character as int - '0' as int) as uint64;
      ValueStep(s, 10, index);
      if accumulator > (0xFFFF_FFFF_FFFF_FFFF - digit) / 10 {
        TooLarge(s, 10, index + 1, UINT64_MAX);
        return None;
      }
      accumulator := accumulator * 10 + digit;
      assert s[..index + 1] == s[..index] + [s[index]];
    }
    assert s[..length] == s;
    r := Some(accumulator as nat);
  }

  /** Once a prefix is out of range, the whole is, unless it is not a number at all. */
  lemma TooLarge(s: string, base: nat, n: nat, max: nat)
    requires n <= |s| && base > 0 && Value(s[..n], base) > max
    ensures !(AllDigits(s, base) && Value(s, base) <= max)
  {
    if AllDigits(s, base) {
      ValueGrows(s, base, n);
    }
  }

  // ----- size -----

  function SignOf(value: string): CompareOp {
    if value != "" && value[0] == '+' then Greater else if value != "" && value[0] == '-' then Less else Equal
  }

  function Unsigned(value: string): string {
    if value != "" && value[0] in {'+', '-'} then value[1..] else value
  }

  function UnitOf(c: char): Option<nat> {
    match c
    case 'c' => Some(1)
    case 'w' => Some(2)
    case 'b' => Some(512)
    case 'k' => Some(1024)
    case 'K' => Some(1024)
    case 'M' => Some(1024 * 1024)
    case 'G' => Some(1024 * 1024 * 1024)
    case 'T' => Some(1024 * 1024 * 1024 * 1024)
    case _ => None
  }

  const BLOCK: nat := 512

  function SizeMeaning(value: string): Option<Threshold> {
    var rest := Unsigned(value);
    if rest == "" then None
    else
      var unit := UnitOf(rest[|rest| - 1]);
      var number := UnsignedMeaning(if unit.Some? then rest[..|rest| - 1] else rest);
      var multiplier := if unit.Some? then unit.value else BLOCK;
      if number.None? || number.value * multiplier > UINT64_MAX then None
      else Some(Threshold(SignOf(value), number.value * multiplier))
  }

  method UnitOfSuffix(suffix: char) returns (hasUnit: bool, multiplier: uint64)
    ensures hasUnit <==> UnitOf(suffix).Some?
    ensures multiplier as nat == if hasUnit then UnitOf(suffix).value else BLOCK
  {
    hasUnit, multiplier := true, 512;
    if suffix == 'c' {
      multiplier := 1;
    } else if suffix == 'w' {
      multiplier := 2;
    } else if suffix == 'b' {
      multiplier := 512;
    } else if suffix == 'k' || suffix == 'K' {
      multiplier := 1024;
    } else if suffix == 'M' {
      multiplier := 1024 * 1024;
    } else if suffix == 'G' {
      multiplier := 1024 * 1024 * 1024;
    } else if suffix == 'T' {
      multiplier := 1024 * 1024 * 1024 * 1024;
    } else {
      hasUnit := false;
    }
  }

  method ParseSizeFilter(value: string) returns (r: Option<Threshold>)
    ensures r == SizeMeaning(value)
  {
    if |value| == 0 {
      return None;
    }
    var op, start := Equal, 0;
    if value[0] == '+' {
      op, start := Greater, 1;
    } else if value[0] == '-' {
      op, start := Less, 1;
    }
    var cursor := value[start..];
    if |cursor| == 0 {
      return None;
    }

    var suffix := cursor[|cursor| - 1];
    var hasUnit, multiplier := UnitOfSuffix(suffix);
    if !hasUnit && (suffix < '0' || suffix > '9') {
      assert !IsDigit(cursor[|cursor| - 1], 10);
      return None;
    }
    var digitsLength := if hasUnit then |cursor| - 1 else |cursor|;

    var number := ParseUnsigned(cursor, digitsLength);
    assert cursor[..|cursor|] == cursor;
    if number.None? {
      return None;
    }
    var numeric := number.value as uint64;
    ProductFits(numeric as nat, multiplier as nat, UINT64_MAX);
    if multiplier != 0 && numeric > 0xFFFF_FFFF_FFFF_FFFF / multiplier {
      return None;
    }
    r := Some(Threshold(op, (numeric * multiplier) as int));
  }

  /** The division guard is exact: it passes just the products that fit. */
  lemma ProductFits(n: nat, m: nat, max: nat)
    requires m > 0
    ensures n * m <= max <==> n <= max / m
  {
    if n <= max / m {
      assert n * m <= max / m * m <= max;
    } else {
      assert n * m >= (max / m + 1) * m > max;
    }
  }

  /** A size as the documentation writes it. */
  ghost predicate SizeText(value: string, sign: string, digits: string, unit: string) {
    && value == sign + digits + unit
    && sign in {"", "+", "-"}
    && digits != "" && AllDigits(digits, 10)
    && (unit == "" || (|unit| == 1 && UnitOf(unit[0]).Some?))
  }

  function Multiplier(unit: string): nat { if unit != "" && UnitOf(unit[0]).Some? then UnitOf(unit[0]).value else BLOCK }

  /** Every text of the grammar is accepted exactly when its value fits 64 bits, with that value. */
  lemma SizeTextMeans(value: string, sign: string, digits: string, unit: string)
    requires SizeText(value, sign, digits, unit)
    ensures SizeMeaning(value)
         == var product := Value(digits, 10) * Multiplier(unit);
            if product <= UINT64_MAX then Some(Threshold(SignOf(sign), product)) else None
  {
    SizeTextParts(value, sign, digits, unit);
    assert digits[..|digits|] == digits;
    ValueGrows(digits, 10, 0);
    TimesGrows(Value(digits, 10), Multiplier(unit));
  }

  lemma SizeTextParts(value: string, sign: string, digits: string, unit: string)
    requires SizeText(value, sign, digits, unit)
    ensures SignOf(value) == SignOf(sign) && Unsigned(value) == digits + unit
    ensures var rest, u := Unsigned(value), UnitOf(Unsigned(value)[|digits + unit| - 1]);
            && (u.Some? <==> unit != "") && (u.Some? ==> u.value == Multiplier(unit))
            && digits == if u.Some? then rest[..|rest| - 1] else rest
  {
    assert !IsDigit('+', 10) && !IsDigit('-', 10);
    assert IsDigit(digits[0], 10) && IsDigit(digits[|digits| - 1], 10);
    assert value[0] == if sign == "" then digits[0] else sign[0];
    var rest := Unsigned(value);
    assert rest == digits + unit;
    assert rest[|rest| - 1] == if unit == "" then digits[|digits| - 1] else unit[0];
  }

  /** Nothing else is accepted. */
  lemma MeaningfulSizeIsText(value: string) returns (sign: string, digits: string, unit: string)
    requires SizeMeaning(value).Some?
    ensures SizeText(value, sign, digits, unit)
  {
    var rest := Unsigned(value);
    sign := if value[0] == '+' then "+" else if value[0] == '-' then "-" else "";
    var u := UnitOf(rest[|rest| - 1]);
    digits, unit := if u.Some? then rest[..|rest| - 1] else rest, if u.Some? then [rest[|rest| - 1]] else "";
    assert rest == digits + unit && value == sign + rest;
  }

  /** Parsing inverts printing. */
  lemma PrintedSizeParses(sign: string, n: nat, unit: string)
    requires sign in {"", "+", "-"} && (unit == "" || (|unit| == 1 && UnitOf(unit[0]).Some?))
    requires n * Multiplier(unit) <= UINT64_MAX
    ensures SizeMeaning(sign + Decimal(n) + unit) == Some(Threshold(SignOf(sign), n * Multiplier(unit)))
  {
    DecimalHasValue(n);
    SizeTextMeans(sign + Decimal(n) + unit, sign, Decimal(n), unit);
  }

  /** What each unit is worth: a byte, a word, a block, which is also what no unit means, and the powers of 1024. */
  lemma UnitsAreWorth()
    ensures Multiplier("c") == 1 && Multiplier("w") == 2 && Multiplier("b") == 512 && Multiplier("") == Multiplier("b")
    ensures Multiplier("k") == 1024 && Multiplier("K") == Multiplier("k")
    ensures Multiplier("M") == 1024 * Multiplier("k") && Multiplier("G") == 1024 * Multiplier("M") && Multiplier("T") == 1024 * Multiplier("G")
  {
  }

  /** There are no other units. */
  lemma UnitsAreThese(value: string)
    requires SizeMeaning(value).Some?
    ensures var last := value[|value| - 1]; IsDigit(last, 10) || last in {'c', 'w', 'b', 'k', 'K', 'M', 'G', 'T'}
  {
    var sign, digits, unit := MeaningfulSizeIsText(value);
    assert value[|value| - 1] == if unit == "" then digits[|digits| - 1] else unit[0];
  }

  // ----- modification time -----

  const SECONDS_PER_DAY: nat := 86400

  function DaysMeaning(value: string): Option<Threshold> {
    var number := UnsignedMeaning(Unsigned(value));
    if number.None? || number.value > INT64_MAX then None else Some(Threshold(SignOf(value), number.value))
  }

  method ParseMtimeFilter(value: string) returns (r: Option<Threshold>)
    ensures r == DaysMeaning(value)
  {
    if |value| == 0 {
      return None;
    }
    var op, start := Equal, 0;
    if value[0] == '+' {
      op, start := Greater, 1;
    } else if value[0] == '-' {
      op, start := Less, 1;
    }
    var cursor := value[start..];
    if |cursor| == 0 {
      return None;
    }
    var number := ParseUnsigned(cursor, |cursor|);
    assert cursor[..|cursor|] == cursor;
    if number.None? || number.value > INT64_MAX {
      return None;
    }
    r := Some(Threshold(op, number.value));
  }

  function MtimeMeaning(value: string): Option<Threshold> {
    var days := DaysMeaning(value);
    if days.None? || days.value.value * SECONDS_PER_DAY > INT64_MAX then None
    else Some(Threshold(days.value.op, days.value.value * SECONDS_PER_DAY))
  }

  /** Binding the option turns days into seconds; the product is computed in 64 bits and never overflows. */
  method BindMtime(value: string) returns (r: Option<Threshold>)
    ensures r == MtimeMeaning(value)
  {
    var parsed := ParseMtimeFilter(value);
    if parsed.None? {
      return None;
    }
    var days := parsed.value.value as int64;
    if days > 0x7FFF_FFFF_FFFF_FFFF / 86400 {
      return None;
    }
    var seconds: int64 := days * 86400;
    r := Some(Threshold(parsed.value.op, seconds as int));
  }

  lemma SignComesOff(sign: string, digits: string)
    requires sign in {"", "+", "-"} && digits != "" && IsDigit(digits[0], 10)
    ensures Unsigned(sign + digits) == digits && SignOf(sign + digits) == SignOf(sign)
  {
    var value := sign + digits;
    assert !IsDigit('+', 10) && !IsDigit('-', 10);
    assert value[0] == if sign == "" then digits[0] else sign[0];
    assert sign != "" ==> value[1..] == digits;
  }

  lemma PrintedDaysParse(sign: string, n: nat)
    requires sign in {"", "+", "-"}
    ensures DaysMeaning(sign + Decimal(n)) == if n <= INT64_MAX then Some(Threshold(SignOf(sign), n)) else None
  {
    DecimalHasValue(n);
    SignComesOff(sign, Decimal(n));
  }

  lemma PrintedMtimeBinds(sign: string, n: nat)
    requires sign in {"", "+", "-"}
    ensures MtimeMeaning(sign + Decimal(n))
         == if n * SECONDS_PER_DAY <= INT64_MAX then Some(Threshold(SignOf(sign), n * SECONDS_PER_DAY)) else None
  {
    PrintedDaysParse(sign, n);
  }

  lemma DaysTextMeans(sign: string, zeros: string, n: nat)
    requires sign in {"", "+", "-"} && AllZeros(zeros)
    ensures DaysMeaning(sign + (zeros + Decimal(n))) == if n <= INT64_MAX then Some(Threshold(SignOf(sign), n)) else None
  {
    DecimalHasValue(n);
    ZerosAreDigits(zeros, Decimal(n), 10);
    SignComesOff(sign, zeros + Decimal(n));
  }

  /** A sign, any zeros and a number of days is accepted exactly when its seconds fit 63 bits. */
  lemma MtimeTextMeans(sign: string, zeros: string, n: nat)
    requires sign in {"", "+", "-"} && AllZeros(zeros)
    ensures MtimeMeaning(sign + (zeros + Decimal(n)))
         == if n * 86400 <= 0x7FFF_FFFF_FFFF_FFFF then Some(Threshold(SignOf(sign), n * 86400)) else None
  {
    DaysTextMeans(sign, zeros, n);
  }

  /** Nothing else is accepted. */
  lemma MeaningfulMtimeIsText(value: string) returns (sign: string, zeros: string, n: nat)
    requires MtimeMeaning(value).Some?
    ensures sign in {"", "+", "-"} && AllZeros(zeros) && value == sign + (zeros + Decimal(n))
  {
    sign := if value[0] == '+' then "+" else if value[0] == '-' then "-" else "";
    zeros, n := DigitsArePrinted(Unsigned(value), 10);
    assert value == sign + Unsigned(value);
  }

  // ----- permissions -----

  function PermMeaning(value: string): Option<nat> {
    if value != "" && AllDigits(value, 8) && 0 <= Value(value, 8) < MODE_BITS then Some(Value(value, 8)) else None
  }

  /** Shifting by three bits and setting them is multiplying by eight and adding. */
  method ParsePermFilter(value: string) returns (r: Option<nat>)
    ensures r == PermMeaning(value)
  {
    if |value| == 0 {
      return None;
    }
    var mask: uint32 := 0;
    for index := 0 to |value|
      invariant AllDigits(value[..index], 8)
      invariant mask as int == Value(value[..index], 8)
    {
      var character := value[index];
      if character < '0' || character > '7' {
        assert !IsDigit(value[index], 8);
        return None;
      }
      ValueStep(value, 8, index);
      var digit := (character as int - '0' as int) as uint32;
      if mask > 0xFFFF_FFFF / 8 {
        TooLarge(value, 8, index, MODE_BITS - 1);
        return None;
      }
      mask := mask * 8 + digit;
      assert value[..index + 1] == value[..index] + [value[index]];
    }
    assert value[..|value|] == value;
    if mask > 4095 {
      return None;
    }
    r := Some(mask as nat);
  }

  /** Zeros and a number printed in octal are accepted exactly when the number fits twelve bits. */
  lemma PermTextMeans(zeros: string, n: nat)
    requires AllZeros(zeros)
    ensures PermMeaning(zeros + Octal(n)) == if n <= 4095 then Some(n) else None
  {
    OctalHasValue(n);
    ZerosAreDigits(zeros, Octal(n), 8);
  }

  /** Nothing else is accepted. */
  lemma MeaningfulPermIsText(value: string) returns (zeros: string, n: nat)
    requires PermMeaning(value).Some?
    ensures AllZeros(zeros) && value == zeros + Octal(n) && n <= 4095
  {
    zeros, n := DigitsArePrinted(value, 8);
  }

  // ----- parse, bind and compare together -----

  function CeilDiv(a: nat, u: nat): nat
    requires u > 0
  {
    (a + u - 1) / u
  }

  lemma CeilDivBounds(a: nat, u: nat, n: nat)
    requires u > 0
    ensures CeilDiv(a, u) <= n <==> a <= n * u
  {
    var q := CeilDiv(a, u);
    assert q * u <= a + u - 1 < q * u + u;
    if q <= n {
      assert q * u <= n * u;
    } else {
      assert q * u >= (n + 1) * u == n * u + u;
    }
  }

  /** Comparing with N units, or with the number of units rounded up, differs exactly strictly between N-1
      and N units. */
  lemma RoundingShowsIff(size: nat, u: nat, n: nat)
    requires u > 0
    ensures (size < n * u <==> CeilDiv(size, u) < n) <==> !((n - 1) * u < size < n * u)
    ensures (size == n * u <==> CeilDiv(size, u) == n) <==> !((n - 1) * u < size < n * u)
  {
    CeilDivBounds(size, u, n);
    assert (n - 1) * u + u == n * u;
    if n > 0 {
      CeilDivBounds(size, u, n - 1);
    }
  }

  /** What find does for `-size N` and `-size -N` in unit u. */
  predicate FindSize(sign: string, n: nat, u: nat, size: nat)
    requires u > 0
  {
    if sign == "-" then CeilDiv(size, u) < n else CeilDiv(size, u) == n
  }

  lemma ThresholdShowsIff(sign: string, n: nat, u: nat, size: nat, t: Threshold)
    requires u > 0 && sign in {"", "-"} && t == Threshold(SignOf(sign), n * u)
    ensures (Compare(size, t.value, t.op) <==> FindSize(sign, n, u, size)) <==> !((n - 1) * u < size < n * u)
  {
    RoundingShowsIff(size, u, n);
  }

  /** `--size +N` in unit u accepts exactly the sizes whose number of units, rounded up, exceeds N. */
  lemma SizePlusMatchesFind(n: nat, unit: string, size: nat)
    requires unit == "" || (|unit| == 1 && UnitOf(unit[0]).Some?)
    requires n * Multiplier(unit) <= UINT64_MAX
    ensures var t := SizeMeaning("+" + Decimal(n) + unit);
            t.Some? && (Compare(size, t.value.value, t.value.op) <==> CeilDiv(size, Multiplier(unit)) > n)
  {
    PrintedSizeParses("+", n, unit);
    CeilDivBounds(size, Multiplier(unit), n);
  }

  /** `--size N` and `--size -N` compare unrounded bytes: they do what find does exactly for the sizes
      that are not strictly between N-1 and N units. */
  lemma SizeOtherwiseMatchesFindIff(sign: string, n: nat, unit: string, size: nat)
    requires sign in {"", "-"} && (unit == "" || (|unit| == 1 && UnitOf(unit[0]).Some?))
    requires n * Multiplier(unit) <= UINT64_MAX
    ensures var t, u := SizeMeaning(sign + Decimal(n) + unit), Multiplier(unit);
            t.Some? && ((Compare(size, t.value.value, t.value.op) <==> FindSize(sign, n, u, size)) <==> !((n - 1) * u < size < n * u))
  {
    PrintedSizeParses(sign, n, unit);
    ThresholdShowsIff(sign, n, Multiplier(unit), size, Threshold(SignOf(sign), n * Multiplier(unit)));
  }

  /** `--mtime -N` accepts exactly the ages of less than N whole days. */
  lemma MtimeMinusMatchesFind(n: nat, age: nat)
    requires n * SECONDS_PER_DAY <= INT64_MAX
    ensures var t := MtimeMeaning("-" + Decimal(n));
            t.Some? && (Compare(age, t.value.value, t.value.op) <==> age / SECONDS_PER_DAY < n)
  {
    PrintedMtimeBinds("-", n);
  }

  /** `--mtime N` and `--mtime +N` compare unrounded seconds: they do what find does exactly for the
      ages that are not strictly between N and N+1 days. */
  lemma MtimeOtherwiseMatchesFindIff(sign: string, n: nat, age: nat)
    requires sign in {"", "+"} && n * SECONDS_PER_DAY <= INT64_MAX
    ensures var t := MtimeMeaning(sign + Decimal(n));
            var find := if sign == "+" then age / SECONDS_PER_DAY > n else age / SECONDS_PER_DAY == n;
            t.Some? && ((Compare(age, t.value.value, t.value.op) <==> find)
                        <==> !(n * SECONDS_PER_DAY < age < (n + 1) * SECONDS_PER_DAY))
  {
    PrintedMtimeBinds(sign, n);
  }
}
