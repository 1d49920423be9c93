/** The fixed-point parser of Kubernetes storage quantities. */
module Quantity {
  import opened Wrappers

  const U128_MAX := 0xFFFF_FFFF_FFFF_FFFF_FFFF_FFFF_FFFF_FFFF
  const I64_MAX := 0x7FFF_FFFF_FFFF_FFFF
  const I32_MAX := 0x7FFF_FFFF

  // ----- Decimal numerals -----

  predicate IsDigit(c: char) {
    '0' <= c <= '9'
  }

  predicate AllDigits(s: string) {
    forall i | 0 <= i < |s| :: IsDigit(s[i])
  }

  function DigitOf(c: char): nat
    requires IsDigit(c)
  {
    c as int - '0' as int
  }

  function DigitsValue(s: string): nat
    requires AllDigits(s)
    decreases |s|
  {
    if s == [] then 0 else 10 * DigitsValue(s[..|s| - 1]) + DigitOf(s[|s| - 1])
  }

  function Power(base: nat, e: nat): (r: nat)
    requires base > 0
    ensures r > 0
  {
    if e == 0 then 1 else base * Power(base, e - 1)
  }

  // ----- What a quantity denotes -----

  /** A quantity as written: sign, whole digits, point, fraction digits and unit suffix. */
  datatype Quantity = Quantity(plus: bool, whole: string, point: bool, fraction: string, suffix: string)

  function Text(q: Quantity): string {
    (if q.plus then "+" else "") + q.whole + (if q.point then "." else "") + q.fraction + q.suffix
  }

  /** The factor a suffix stands for: 1024 to a power, times ten to an exponent. */
  datatype Unit = Unit(power: nat, exponent: int)

  /** A decimal integer with optional sign that fits in 32 bits. */
  function ParseI32(s: string): Option<int> {
    var negative := |s| > 0 && s[0] == '-';
    var digits := if |s| > 0 && (s[0] == '-' || s[0] == '+') then s[1..] else s;
    if digits == [] || !AllDigits(digits) then None
    else
      var value: int := if negative then 0 - DigitsValue(digits) else DigitsValue(digits);
      if -I32_MAX - 1 <= value <= I32_MAX then Some(value) else None
  }

  function UnitOf(suffix: string): Option<Unit> {
    if suffix == "Ki" then Some(Unit(1, 0))
    else if suffix == "Mi" then Some(Unit(2, 0))
    else if suffix == "Gi" then Some(Unit(3, 0))
    else if suffix == "Ti" then Some(Unit(4, 0))
    else if suffix == "Pi" then Some(Unit(5, 0))
    else if suffix == "Ei" then Some(Unit(6, 0))
    else if suffix == "n" then Some(Unit(0, -9))
    else if suffix == "u" then Some(Unit(0, -6))
    else if suffix == "m" then Some(Unit(0, -3))
    else if suffix == "" then Some(Unit(0, 0))
    else if suffix == "k" then Some(Unit(0, 3))
    else if suffix == "M" then Some(Unit(0, 6))
    else if suffix == "G" then Some(Unit(0, 9))
    else if suffix == "T" then Some(Unit(0, 12))
    else if suffix == "P" then Some(Unit(0, 15))
    else if suffix == "E" then Some(Unit(0, 18))
    else if suffix[0] == 'e' || suffix[0] == 'E' then
      match ParseI32(suffix[1..]) case None => None case Some(e) => Some(Unit(0, e))
    else None
  }

  predicate WellFormed(q: Quantity) {
    && AllDigits(q.whole) && AllDigits(q.fraction) && (q.whole != [] || q.fraction != [])
    && (!q.point ==> q.fraction == [])
    && UnitOf(q.suffix).Some?
  }

  function Mantissa(q: Quantity): nat
    requires WellFormed(q)
  {
    DigitsValue(q.whole + q.fraction)
  }

  function Scaled(mantissa: nat, unit: Unit): nat {
    mantissa * Power(1024, unit.power) * Power(10, Max(unit.exponent, 0))
  }

  function Divisor(places: nat, unit: Unit): (r: nat)
    ensures r > 0
  {
    Power(10, places) * Power(10, Max(-unit.exponent, 0))
  }

  /** The rational number a well-formed quantity denotes is Numerator / Denominator. */
  function Numerator(q: Quantity): nat
    requires WellFormed(q)
  {
    Scaled(Mantissa(q), UnitOf(q.suffix).value)
  }

  function Denominator(q: Quantity): (r: nat)
    requires WellFormed(q)
    ensures r > 0
  {
    Divisor(|q.fraction|, UnitOf(q.suffix).value)
  }

  /** `bytes` is the least integer not below num / den. */
  ghost predicate IsCeiling(bytes: nat, num: nat, den: nat) {
    bytes * den >= num && num > (bytes - 1) * den
  }

  function CeilDiv(num: nat, den: nat): (r: nat)
    requires den > 0
    ensures IsCeiling(r, num, den)
  {
    var r := (num + den - 1) / den;
    assert r * den + (num + den - 1) % den == num + den - 1;
    assert (r - 1) * den == r * den - den;
    r
  }

  /** Every intermediate value fits in 128 bits and the result in 63. */
  predicate PartsFit(mantissa: nat, places: nat, unit: Unit) {
    && mantissa <= U128_MAX
    && Power(10, places) <= U128_MAX
    && mantissa * Power(1024, unit.power) <= U128_MAX
    && Power(10, if unit.exponent < 0 then -unit.exponent else unit.exponent) <= U128_MAX
    && Scaled(mantissa, unit) <= U128_MAX && Divisor(places, unit) <= U128_MAX
    && CeilDiv(Scaled(mantissa, unit), Divisor(places, unit)) <= I64_MAX
  }

  predicate Fits(q: Quantity)
    requires WellFormed(q)
  {
    PartsFit(Mantissa(q), |q.fraction|, UnitOf(q.suffix).value)
  }

  // ----- Splitting a text -----

  /** The first position that is neither a digit nor a point. */
  function Boundary(s: string): (b: nat)
    ensures b <= |s|
    ensures forall i | 0 <= i < b :: IsDigit(s[i]) || s[i] == '.'
    ensures b < |s| ==> !IsDigit(s[b]) && s[b] != '.'
  {
    if s == [] || (!IsDigit(s[0]) && s[0] != '.') then 0 else 1 + Boundary(s[1..])
  }

  function FirstPoint(s: string): (p: nat)
    ensures p <= |s| && (forall i | 0 <= i < p :: s[i] != '.') && (p < |s| ==> s[p] == '.')
  {
    if s == [] || s[0] == '.' then 0 else 1 + FirstPoint(s[1..])
  }

  function SplitNumber(plus: bool, number: string, suffix: string): Quantity {
    var p := FirstPoint(number);
    if p < |number| then Quantity(plus, number[..p], true, number[p + 1..], suffix)
    else Quantity(plus, number, false, "", suffix)
  }

  function Split(value: string): Quantity {
    var plus := |value| > 0 && value[0] == '+';
    var rest := if plus then value[1..] else value;
    SplitNumber(plus, rest[..Boundary(rest)], rest[Boundary(rest)..])
  }

  function NumberText(q: Quantity): string {
    q.whole + (if q.point then "." else "") + q.fraction
  }

  lemma TextInParts(q: Quantity)
    ensures Text(q) == (if q.plus then "+" else "") + (NumberText(q) + q.suffix)
  {
  }

  lemma SplitNumberKeepsText(plus: bool, number: string, suffix: string)
    ensures var q := SplitNumber(plus, number, suffix); NumberText(q) == number && q.plus == plus && q.suffix == suffix
  {
    var p := FirstPoint(number);
    if p < |number| { assert number == number[..p] + "." + number[p + 1..]; }
  }

  lemma TextOfParts(plus: bool, rest: string, b: nat)
    requires b <= |rest|
    ensures Text(SplitNumber(plus, rest[..b], rest[b..])) == (if plus then "+" else "") + rest
  {
    SplitNumberKeepsText(plus, rest[..b], rest[b..]);
    TextInParts(SplitNumber(plus, rest[..b], rest[b..]));
    assert rest == rest[..b] + rest[b..];
  }

  /** Splitting loses nothing. */
  lemma TextOfSplit(value: string)
    ensures Text(Split(value)) == value
  {
    var plus := |value| > 0 && value[0] == '+';
    var rest := if plus then value[1..] else value;
    TextOfParts(plus, rest, Boundary(rest));
    assert value == (if plus then "+" else "") + rest;
  }

  lemma SuffixStartsOutsideNumber(suffix: string)
    requires UnitOf(suffix).Some? && suffix != []
    ensures !IsDigit(suffix[0]) && suffix[0] != '.'
  {
  }

  lemma BoundaryIsUnique(number: string, suffix: string)
    requires forall i | 0 <= i < |number| :: IsDigit(number[i]) || number[i] == '.'
    requires suffix != [] ==> !IsDigit(suffix[0]) && suffix[0] != '.'
    ensures Boundary(number + suffix) == |number|
  {
    var s, b := number + suffix, Boundary(number + suffix);
    assert forall i | 0 <= i < |number| :: s[i] == number[i];
    assert suffix != [] ==> s[|number|] == suffix[0];
  }

  lemma FirstPointIsUnique(whole: string, rest: string)
    requires (forall i | 0 <= i < |whole| :: whole[i] != '.') && (rest != [] ==> rest[0] == '.')
    ensures FirstPoint(whole + rest) == |whole|
  {
    var s := whole + rest;
    assert forall i | 0 <= i < |whole| :: s[i] == whole[i];
    assert rest != [] ==> s[|whole|] == rest[0];
  }

  lemma SplitNumberIsUnique(q: Quantity)
    requires AllDigits(q.whole) && (!q.point ==> q.fraction == [])
    ensures SplitNumber(q.plus, NumberText(q), q.suffix) == q
  {
    var tail := (if q.point then "." else "") + q.fraction;
    var number := NumberText(q);
    assert number == q.whole + tail;
    FirstPointIsUnique(q.whole, tail);
    if q.point { assert number[..|q.whole|] == q.whole && number[|q.whole| + 1..] == q.fraction; }
    else { assert number == q.whole; }
  }

  lemma NumberCharacters(q: Quantity)
    requires WellFormed(q)
    ensures NumberText(q) != []
    ensures forall i | 0 <= i < |NumberText(q)| :: IsDigit(NumberText(q)[i]) || NumberText(q)[i] == '.'
  {
  }

  /** A well-formed quantity is the only reading of its text. */
  lemma SplitOfText(q: Quantity)
    requires WellFormed(q)
    ensures Split(Text(q)) == q
  {
    var number := NumberText(q);
    var rest := number + q.suffix;
    TextInParts(q);
    NumberCharacters(q);
    if q.suffix != [] { SuffixStartsOutsideNumber(q.suffix); }
    BoundaryIsUnique(number, q.suffix);
    assert rest[..|number|] == number && rest[|number|..] == q.suffix && rest[0] == number[0];
    if q.plus { assert Text(q)[1..] == rest && Text(q)[0] == '+'; } else { assert Text(q) == rest; }
    SplitNumberIsUnique(q);
  }

  // ----- The parser -----

  function CheckedMul(x: nat, y: nat): Option<nat> {
    if x * y <= U128_MAX then Some(x * y) else None
  }

  function CheckedPower(base: nat, e: nat): Option<nat>
    requires base > 0
  {
    if Power(base, e) <= U128_MAX then Some(Power(base, e)) else None
  }

  /** Applies the unit with checked 128-bit arithmetic and rounds up. */
  method ScaleAndRound(mantissa: nat, places: nat, unit: Unit) returns (bytes: Option<nat>)
    ensures bytes.Some? <==> PartsFit(mantissa, places, unit)
    ensures bytes.Some? ==> bytes.value == CeilDiv(Scaled(mantissa, unit), Divisor(places, unit))
  {
    if mantissa > U128_MAX { return None; }
    var places10 := CheckedPower(10, places);
    if places10.None? { return None; }
    var denominator := places10.value;
    var scaled := CheckedMul(mantissa, Power(1024, unit.power));
    if scaled.None? { return None; }
    var numerator := scaled.value;
    if unit.exponent < 0 {
      var factor := CheckedPower(10, -unit.exponent);
      if factor.None? { return None; }
      var product := CheckedMul(denominator, factor.value);
      if product.None? { return None; }
      denominator := product.value;
    } else {
      var factor := CheckedPower(10, unit.exponent);
      if factor.None? { return None; }
      var product := CheckedMul(numerator, factor.value);
      if product.None? { return None; }
      numerator := product.value;
    }
    assert numerator == Scaled(mantissa, unit);
    assert denominator == Divisor(places, unit);
    var result := CeilDiv(numerator, denominator);
    if result > I64_MAX { return None; }
    return Some(result);
  }

  /** Succeeds exactly on well-formed texts whose arithmetic fits, with the value rounded up to whole bytes. */
  method StorageQuantityBytes(value: string) returns (bytes: Option<nat>)
    ensures bytes.Some? <==> WellFormed(Split(value)) && Fits(Split(value))
    ensures bytes.Some? ==>
      bytes.value <= I64_MAX && IsCeiling(bytes.value, Numerator(Split(value)), Denominator(Split(value)))
  {
    var q := Split(value);
    if q.whole == [] && q.fraction == [] { return None; }
    if !AllDigits(q.whole) || !AllDigits(q.fraction) { return None; }
    var unit := UnitOf(q.suffix);
    if unit.None? { return None; }
    bytes := ScaleAndRound(DigitsValue(q.whole + q.fraction), |q.fraction|, unit.value);
  }

  /** The result for a text, when there is one, is the value of its only reading. */
  lemma ParsesTheOnlyReading(q: Quantity, value: string)
    requires WellFormed(q) && Text(q) == value
    ensures Split(value) == q
    ensures forall other | WellFormed(other) && Text(other) == value :: other == q
  {
    SplitOfText(q);
    forall other | WellFormed(other) && Text(other) == value ensures other == q {
      SplitOfText(other);
    }
  }

  // ----- Round trip of the text written into a claim -----

  function DecimalText(n: nat): string {
    if n < 10 then [('0' as int + n) as char] else DecimalText(n / 10) + [('0' as int + n % 10) as char]
  }

  lemma {:induction false} DecimalReadsBack(n: nat)
    ensures DecimalText(n) != [] && AllDigits(DecimalText(n)) && DigitsValue(DecimalText(n)) == n
  {
    var s := DecimalText(n);
    if n < 10 {
      assert s[..0] == [];
    } else {
      DecimalReadsBack(n / 10);
      assert s[..|s| - 1] == DecimalText(n / 10);
    }
  }

  lemma ClaimTextSplits(n: nat)
    ensures Split(DecimalText(n)) == Quantity(false, DecimalText(n), false, "", "")
  {
    DecimalReadsBack(n);
    var q := Quantity(false, DecimalText(n), false, "", "");
    assert Text(q) == DecimalText(n);
    SplitOfText(q);
  }

  /** Every size up to i64::MAX survives being written into a claim and parsed again. */
  lemma ClaimTextRoundTrips(n: nat)
    requires n <= I64_MAX
    ensures var q := Split(DecimalText(n));
      && WellFormed(q) && Fits(q)
      && forall bytes: nat :: IsCeiling(bytes, Numerator(q), Denominator(q)) <==> bytes == n
  {
    DecimalReadsBack(n);
    ClaimTextSplits(n);
    var q := Split(DecimalText(n));
    assert q.whole + q.fraction == DecimalText(n);
    assert Power(10, 0) == 1 && Power(1024, 0) == 1;
    assert Numerator(q) == n && Denominator(q) == 1;
  }
}
