/** Exact parsing of JSON numbers into non-negative 64-bit integers.

    The exponent is clamped while it is read, so the parser is first proved against the clamped meaning of a
    number, and the clamp is then compared with the true meaning. */
module Number {
  import opened Wrappers

  const MAX_RAW_BYTES := 262_144
  const LIMIT := MAX_RAW_BYTES + 1
  const MAX_INT64 := 0x7fff_ffff_ffff_ffff

  newtype Int64 = x: int | -0x8000_0000_0000_0000 <= x < 0x8000_0000_0000_0000

  // ----- Powers of ten

  /** m times ten to the n. */
  function Shift(m: int, n: nat): int {
    if n == 0 then m else 10 * Shift(m, n - 1)
  }

  function Ten(n: nat): int {
    Shift(1, n)
  }

  lemma {:induction false} ShiftSum(a: int, b: int, n: nat)
    ensures Shift(a + b, n) == Shift(a, n) + Shift(b, n)
  {
    if n > 0 { ShiftSum(a, b, n - 1); }
  }

  lemma {:induction false} ShiftOrder(a: int, b: int, n: nat)
    ensures a < b <==> Shift(a, n) < Shift(b, n)
    ensures a == b <==> Shift(a, n) == Shift(b, n)
  {
    if n > 0 { ShiftOrder(a, b, n - 1); }
  }

  lemma {:induction false} ShiftZero(n: nat)
    ensures Shift(0, n) == 0
  {
    if n > 0 { ShiftZero(n - 1); }
  }

  lemma {:induction false} ShiftTwice(m: int, a: nat, b: nat)
    ensures Shift(Shift(m, a), b) == Shift(m, a + b)
  {
    if b > 0 { ShiftTwice(m, a, b - 1); }
  }

  lemma {:induction false} ShiftGrows(m: int, a: nat, b: nat)
    requires m >= 0 && a <= b
    ensures m <= Shift(m, a) <= Shift(m, b)
    ensures m > 0 && a < b ==> Shift(m, a) < Shift(m, b)
  {
    if a < b {
      ShiftGrows(m, a, b - 1);
    } else if a > 0 {
      ShiftGrows(m, a - 1, a - 1);
    }
  }

  // ----- Decimal digits

  predicate Digit(c: char) {
    '0' <= c <= '9'
  }

  predicate Digits(s: string) {
    forall i :: 0 <= i < |s| ==> Digit(s[i])
  }

  function DigitOf(c: char): (d: nat)
    requires Digit(c)
    ensures d < 10
    ensures d == 0 <==> c == '0'
  {
    c as int - '0' as int
  }

  function Value(s: string): nat
    requires Digits(s)
  {
    if s == "" then 0 else 10 * Value(s[..|s| - 1]) + DigitOf(s[|s| - 1])
  }

  predicate Zeros(s: string) {
    forall i :: 0 <= i < |s| ==> s[i] == '0'
  }

  lemma TenNineteen()
    ensures Ten(18) <= MAX_INT64 < Ten(19)
  {
    assert Ten(10) == 10_000_000_000;
    assert Ten(18) == 1_000_000_000_000_000_000;
  }

  lemma {:induction false} ValueConcat(a: string, b: string)
    requires Digits(a) && Digits(b)
    ensures Digits(a + b) && Value(a + b) == Shift(Value(a), |b|) + Value(b)
  {
    if b == "" {
      assert a + b == a;
    } else {
      assert (a + b)[..|a + b| - 1] == a + b[..|b| - 1];
      ValueConcat(a, b[..|b| - 1]);
    }
  }

  lemma {:induction false} ValueBound(s: string)
    requires Digits(s)
    ensures Value(s) < Ten(|s|)
  {
    if s != "" { ValueBound(s[..|s| - 1]); }
  }

  lemma {:induction false} ValueLeads(s: string)
    requires Digits(s) && s != "" && s[0] != '0'
    ensures Value(s) >= Ten(|s| - 1)
  {
    if |s| > 1 {
      ValueLeads(s[..|s| - 1]);
    } else {
      assert s[..0] == "";
    }
  }

  lemma {:induction false} ValueOfZeros(s: string)
    requires Digits(s)
    ensures Value(s) == 0 <==> Zeros(s)
  {
    if s != "" {
      ValueOfZeros(s[..|s| - 1]);
      assert Zeros(s) <==> Zeros(s[..|s| - 1]) && s[|s| - 1] == '0';
    }
  }

  lemma ValueOfPrefix(s: string, k: nat)
    requires Digits(s) && k <= |s|
    ensures Value(s[..k]) <= Value(s)
  {
    var front, back := s[..k], s[k..];
    assert front + back == s;
    ValueConcat(front, back);
    ShiftGrows(Value(front), 0, |back|);
  }

  // ----- The grammar of a JSON number, section 6 of RFC 8259

  datatype Sign = Unmarked | Plus | Minus

  datatype Exponent = Exponent(mark: char, sign: Sign, digits: string)

  datatype Literal = Literal(negative: bool, whole: string, fraction: Option<string>, exponent: Option<Exponent>)

  predicate WholeOk(whole: string) {
    whole != "" && Digits(whole) && (|whole| > 1 ==> whole[0] != '0')
  }

  predicate FractionOk(fraction: Option<string>) {
    fraction.Some? ==> fraction.value != "" && Digits(fraction.value)
  }

  predicate ExponentOk(e: Exponent) {
    Mark(e.mark) && e.digits != "" && Digits(e.digits)
  }

  predicate WellFormed(n: Literal) {
    && WholeOk(n.whole)
    && FractionOk(n.fraction)
    && (n.exponent.Some? ==> ExponentOk(n.exponent.value))
  }

  function PointPart(fraction: Option<string>): string {
    if fraction.Some? then ['.'] + fraction.value else []
  }

  function Mantissa(n: Literal): string {
    n.whole + PointPart(n.fraction)
  }

  function ExponentText(e: Exponent): string {
    (match e.sign case Unmarked => [] case Plus => ['+'] case Minus => ['-']) + e.digits
  }

  function ExponentPart(e: Option<Exponent>): string {
    if e.Some? then [e.value.mark] + ExponentText(e.value) else []
  }

  function Unsigned(n: Literal): string {
    Mantissa(n) + ExponentPart(n.exponent)
  }

  function Spell(n: Literal): string {
    (if n.negative then ['-'] else []) + Unsigned(n)
  }

  // ----- What a number means

  function FractionDigits(n: Literal): string {
    if n.fraction.Some? then n.fraction.value else ""
  }

  function Magnitude(n: Literal): nat
    requires WellFormed(n)
  {
    Value(n.whole + FractionDigits(n))
  }

  function ExponentValue(e: Exponent): int
    requires ExponentOk(e)
  {
    var v: int := Value(e.digits);
    if e.sign.Minus? then -v else v
  }

  function ExponentOf(n: Literal): int
    requires WellFormed(n)
  {
    if n.exponent.Some? then ExponentValue(n.exponent.value) else 0
  }

  /** v is the signed magnitude times ten to the scale. */
  predicate Denotes(negative: bool, magnitude: int, scale: int, v: int) {
    var m := if negative then -magnitude else magnitude;
    if scale >= 0 then v == Shift(m, scale) else Shift(v, -scale) == m
  }

  /** The number with its exponent replaced by another. */
  predicate MeansAt(n: Literal, exponent: int, v: int)
    requires WellFormed(n)
  {
    Denotes(n.negative, Magnitude(n), exponent - |FractionDigits(n)|, v)
  }

  /** The exact mathematical value of the number is the integer v. */
  predicate Means(n: Literal, v: int)
    requires WellFormed(n)
  {
    MeansAt(n, ExponentOf(n), v)
  }

  function Clamp(e: int): int {
    if e > LIMIT then LIMIT else if e < -LIMIT then -LIMIT else e
  }

  // ----- Reading a number apart

  predicate Mark(c: char) {
    c == 'e' || c == 'E'
  }

  /** strings.IndexAny with e and E: the first position of either from i on, or the length. */
  function FindMark(text: string, i: nat := 0): (k: nat)
    requires i <= |text|
    ensures i <= k <= |text|
    ensures k < |text| ==> Mark(text[k])
    decreases |text| - i
  {
    if i == |text| || Mark(text[i]) then i else FindMark(text, i + 1)
  }

  /** strings.IndexByte with the decimal point. */
  function FindPoint(text: string, i: nat := 0): (k: nat)
    requires i <= |text|
    ensures i <= k <= |text|
    ensures k < |text| ==> text[k] == '.'
    decreases |text| - i
  {
    if i == |text| || text[i] == '.' then i else FindPoint(text, i + 1)
  }

  lemma {:induction false} MarkIsAt(text: string, i: nat, k: nat)
    requires i <= k <= |text| && (k < |text| ==> Mark(text[k])) && forall j :: i <= j < k ==> !Mark(text[j])
    ensures FindMark(text, i) == k
    decreases k - i
  {
    if i < k { MarkIsAt(text, i + 1, k); }
  }

  lemma {:induction false} PointIsAt(text: string, i: nat, k: nat)
    requires i <= k <= |text| && (k < |text| ==> text[k] == '.') && forall j :: i <= j < k ==> text[j] != '.'
    ensures FindPoint(text, i) == k
    decreases k - i
  {
    if i < k { PointIsAt(text, i + 1, k); }
  }

  lemma Halves(a: string, b: string)
    ensures (a + b)[..|a|] == a && (a + b)[|a|..] == b
  {
  }

  lemma Rejoin(text: string, k: nat)
    requires k < |text|
    ensures text[..k] + ([text[k]] + text[k + 1..]) == text
  {
  }

  /** The point parts a mantissa. */
  lemma MantissaSplits(n: Literal, text: string)
    requires WellFormed(n) && Mantissa(n) == text
    ensures var k := FindPoint(text);
            && n.whole == text[..k] && PointPart(n.fraction) == text[k..] && (n.fraction.Some? <==> k < |text|)
            && (n.fraction.Some? ==> n.fraction.value == text[k + 1..])
  {
    PointIsAt(text, 0, |n.whole|);
    Halves(n.whole, PointPart(n.fraction));
    if n.fraction.Some? { Halves(['.'], n.fraction.value); }
  }

  lemma MantissaHasNoMark(n: Literal, i: nat)
    requires WellFormed(n) && i < |Mantissa(n)|
    ensures !Mark(Mantissa(n)[i])
  {
    if i > |n.whole| {
      assert Digit(n.fraction.value[i - |n.whole| - 1]);
    }
  }

  /** The mark parts mantissa and exponent. */
  lemma UnsignedSplits(n: Literal, text: string)
    requires WellFormed(n) && Unsigned(n) == text
    ensures var k := FindMark(text);
            && Mantissa(n) == text[..k] && (n.exponent.Some? <==> k < |text|)
            && (n.exponent.Some? ==>
                n.exponent.value.mark == text[k] && ExponentText(n.exponent.value) == text[k + 1..])
  {
    var mantissa := Mantissa(n);
    forall i | 0 <= i < |mantissa|
      ensures !Mark(text[i])
    {
      MantissaHasNoMark(n, i);
    }
    MarkIsAt(text, 0, |mantissa|);
    Halves(mantissa, ExponentPart(n.exponent));
    if n.exponent.Some? { Halves([n.exponent.value.mark], ExponentText(n.exponent.value)); }
  }

  function SignOf(text: string): Sign {
    if text == "" then Unmarked else if text[0] == '+' then Plus else if text[0] == '-' then Minus else Unmarked
  }

  function AfterSign(text: string): string {
    if SignOf(text).Unmarked? then text else text[1..]
  }

  lemma ExponentSplits(e: Exponent, text: string)
    requires ExponentOk(e) && ExponentText(e) == text
    ensures e.sign == SignOf(text) && e.digits == AfterSign(text)
  {
    if e.sign.Unmarked? {
      assert text == e.digits && Digit(text[0]);
    } else {
      assert text[1..] == e.digits;
    }
  }

  lemma SpellSplits(n: Literal, text: string)
    requires WellFormed(n) && Spell(n) == text
    ensures text != "" && (n.negative <==> text[0] == '-') && Unsigned(n) == if n.negative then text[1..] else text
  {
    assert Unsigned(n)[0] == n.whole[0] && Digit(n.whole[0]);
    if n.negative { Halves(['-'], Unsigned(n)); }
  }

  lemma UniqueMantissa(n: Literal, m: Literal)
    requires WellFormed(n) && WellFormed(m) && Mantissa(n) == Mantissa(m)
    ensures n.whole == m.whole && n.fraction == m.fraction
  {
    var text := Mantissa(n);
    MantissaSplits(n, text);
    MantissaSplits(m, text);
  }

  lemma UniqueExponent(e: Exponent, f: Exponent)
    requires ExponentOk(e) && ExponentOk(f) && e.mark == f.mark && ExponentText(e) == ExponentText(f)
    ensures e == f
  {
    var text := ExponentText(e);
    ExponentSplits(e, text);
    ExponentSplits(f, text);
  }

  /** No text spells two numbers. */
  lemma SpellingIsUnique(n: Literal, m: Literal)
    requires WellFormed(n) && WellFormed(m) && Spell(n) == Spell(m)
    ensures n == m
  {
    hide Spell, Unsigned, Mantissa, ExponentText, FindMark, Digits;
    var text := Spell(n);
    SpellSplits(n, text);
    SpellSplits(m, text);
    var rest := Unsigned(n);
    UnsignedSplits(n, rest);
    UnsignedSplits(m, rest);
    UniqueMantissa(n, m);
    if n.exponent.Some? { UniqueExponent(n.exponent.value, m.exponent.value); }
  }

  // ----- The parser

  /** v is a 64-bit value and the meaning of text as a number whose exponent is clamped. */
  ghost predicate Yields(text: string, v: int) {
    0 <= v <= MAX_INT64 && exists n :: WellFormed(n) && Spell(n) == text && MeansAt(n, Clamp(ExponentOf(n)), v)
  }

  /** decimalDigits. */
  method DecimalDigits(text: string) returns (ok: bool)
    ensures ok <==> Digits(text)
  {
    for index := 0 to |text|
      invariant Digits(text[..index])
    {
      if text[index] < '0' || text[index] > '9' { return false; }
    }
    assert text[..|text|] == text;
    return true;
  }

  /** The digit loop of clampedDecimalExponent: the smaller of the value and the limit, without ever passing it. */
  method ClampedValue(text: string) returns (r: Option<int>)
    ensures r.Some? <==> Digits(text)
    ensures r.Some? ==> r.value == Clamp(Value(text))
  {
    var value := 0;
    for index := 0 to |text|
      invariant Digits(text[..index])
      invariant value == Clamp(Value(text[..index]))
    {
      if text[index] < '0' || text[index] > '9' { return None; }
      var digit := DigitOf(text[index]);
      ghost var before := text[..index];
      assert text[..index + 1][..index] == before;
      assert Value(text[..index + 1]) == 10 * Value(before) + digit;
      if value > (LIMIT - digit) / 10 {
        value := LIMIT;
      } else {
        value := value * 10 + digit;
        if value > LIMIT { value := LIMIT; }
      }
    }
    assert text[..|text|] == text;
    return Some(value);
  }

  /** clampedDecimalExponent. */
  method ClampedDecimalExponent(mark: char, text: string) returns (r: Option<int>, ghost e: Exponent)
    requires Mark(mark)
    ensures r.Some? ==> e.mark == mark && ExponentOk(e) && ExponentText(e) == text && r.value == Clamp(ExponentValue(e))
    ensures r.None? ==> forall e :: ExponentOk(e) ==> ExponentText(e) != text
  {
    forall e | ExponentOk(e) && ExponentText(e) == text
      ensures e.digits == AfterSign(text)
    {
      ExponentSplits(e, text);
    }
    e := Exponent(mark, SignOf(text), AfterSign(text));
    if text == "" { return None, e; }
    var sign, digits := 1, text;
    if text[0] == '+' || text[0] == '-' {
      if text[0] == '-' { sign := -1; }
      digits := text[1..];
      if digits == "" { return None, e; }
    }
    var value := ClampedValue(digits);
    if value.None? { return None, e; }
    return Some(sign * value.value), e;
  }

  // ----- Results

  function Reported(r: Option<Int64>): Option<int> {
    if r.Some? then Some(r.value as int) else None
  }

  /** The result is v for the one 64-bit v the parts denote, and nothing when there is none. */
  ghost predicate Agrees(r: Option<Int64>, negative: bool, magnitude: int, scale: int) {
    && (r.Some? ==> r.value >= 0)
    && forall v: int | 0 <= v <= MAX_INT64 :: Denotes(negative, magnitude, scale, v) <==> Reported(r) == Some(v)
  }

  lemma ZeroMeansZero(negative: bool, scale: int)
    ensures Agrees(Some(0), negative, 0, scale)
  {
    forall v: int | 0 <= v <= MAX_INT64
      ensures Denotes(negative, 0, scale, v) <==> v == 0
    {
      if scale >= 0 {
        ShiftZero(scale);
      } else {
        ShiftZero(-scale);
        ShiftOrder(v, 0, -scale);
      }
    }
  }

  lemma NegativeMeansNothing(magnitude: int, scale: int)
    requires magnitude > 0
    ensures Agrees(None, true, magnitude, scale)
  {
    forall v: int | 0 <= v <= MAX_INT64
      ensures !Denotes(true, magnitude, scale, v)
    {
      if scale >= 0 {
        ShiftZero(scale);
        ShiftOrder(-magnitude, 0, scale);
      } else {
        ShiftGrows(v, 0, -scale);
      }
    }
  }

  /** With a negative scale the digits mean v exactly when those to be dropped are zeros and the others spell v. */
  lemma Dropping(digits: string, cut: nat, v: int)
    requires Digits(digits) && cut < |digits|
    ensures Denotes(false, Value(digits), cut - |digits|, v) <==> Zeros(digits[cut..]) && v == Value(digits[..cut])
  {
    var kept, dropped := digits[..cut], digits[cut..];
    var n := |dropped|;
    assert kept + dropped == digits;
    ValueConcat(kept, dropped);
    ValueBound(dropped);
    ValueOfZeros(dropped);
    ShiftSum(Value(kept), 1, n);
    ShiftOrder(v, Value(kept), n);
    ShiftOrder(v, Value(kept) + 1, n);
  }

  /** Dropping every digit of a nonzero number leaves a proper fraction. */
  lemma DroppingAll(digits: string, scale: int)
    requires Digits(digits) && !Zeros(digits) && |digits| <= -scale
    ensures Agrees(None, false, Value(digits), scale)
  {
    ValueBound(digits);
    ValueOfZeros(digits);
    ShiftGrows(1, |digits|, -scale);
    ShiftZero(-scale);
    forall v: int | 0 <= v <= MAX_INT64
      ensures !Denotes(false, Value(digits), scale, v)
    {
      ShiftOrder(v, 1, -scale);
      ShiftOrder(v, 0, -scale);
    }
  }

  /** Twenty digits are too many for a 64-bit integer. */
  lemma TooLong(digits: string, scale: nat)
    requires Digits(digits) && digits != "" && digits[0] != '0' && |digits| + scale > 19
    ensures Shift(Value(digits), scale) > MAX_INT64
  {
    ValueLeads(digits);
    ShiftOrder(Value(digits), Ten(|digits| - 1), scale);
    ShiftTwice(1, |digits| - 1, scale);
    ShiftGrows(1, 19, |digits| - 1 + scale);
    TenNineteen();
  }

  // ----- The rest of the parser

  method AllZero(digits: string) returns (r: bool)
    ensures r <==> Zeros(digits)
  {
    for index := 0 to |digits|
      invariant Zeros(digits[..index])
    {
      if digits[index] != '0' { return false; }
    }
    assert digits[..|digits|] == digits;
    return true;
  }

  /** The digit loop: the value, unless a 64-bit integer cannot hold it; no step overflows. */
  method ReadDigits(digits: string) returns (r: Option<Int64>)
    requires Digits(digits)
    ensures r.Some? <==> Value(digits) <= MAX_INT64
    ensures r.Some? ==> r.value as int == Value(digits)
  {
    var max: Int64 := 0x7fff_ffff_ffff_ffff;
    var result: Int64 := 0;
    for index := 0 to |digits|
      invariant result as int == Value(digits[..index])
    {
      var digit := DigitOf(digits[index]) as Int64;
      assert digits[..index + 1][..index] == digits[..index];
      if result > (max - digit) / 10 {
        ValueOfPrefix(digits, index + 1);
        return None;
      }
      result := result * 10 + digit;
    }
    assert digits[..|digits|] == digits;
    return Some(result);
  }

  /** The scale loop. */
  method Multiply(start: Int64, scale: nat) returns (r: Option<Int64>)
    requires start >= 0
    ensures r.Some? <==> Shift(start as int, scale) <= MAX_INT64
    ensures r.Some? ==> r.value as int == Shift(start as int, scale)
  {
    var max: Int64 := 0x7fff_ffff_ffff_ffff;
    var result, left := start, scale;
    while left > 0
      invariant 0 <= left <= scale && result >= 0
      invariant Shift(result as int, left) == Shift(start as int, scale)
    {
      ShiftTwice(result as int, 1, left - 1);
      if result > max / 10 {
        ShiftGrows(result as int, 1, left);
        return None;
      }
      result := result * 10;
      left := left - 1;
    }
    return Some(result);
  }

  /** strings.TrimLeft with the digit zero. */
  function TrimZeros(digits: string): (r: string)
    requires Digits(digits)
    ensures Digits(r) && |r| <= |digits| && (r != "" ==> r[0] != '0')
  {
    if digits != "" && digits[0] == '0' then TrimZeros(digits[1..]) else digits
  }

  lemma {:induction false} TrimKeepsValue(digits: string)
    requires Digits(digits)
    ensures Value(TrimZeros(digits)) == Value(digits)
  {
    if digits != "" && digits[0] == '0' {
      TrimKeepsValue(digits[1..]);
      ValueConcat(digits[..1], digits[1..]);
      assert digits[..1] + digits[1..] == digits;
      ValueOfZeros(digits[..1]);
      ShiftZero(|digits| - 1);
    }
  }

  /** The value of the digits times ten to the scale, when it fits. */
  method Accumulate(source: string, scale: nat) returns (r: Option<Int64>)
    requires Digits(source)
    ensures Agrees(r, false, Value(source), scale)
  {
    TrimKeepsValue(source);
    var digits := TrimZeros(source);
    if digits == "" {
      ZeroMeansZero(false, scale);
      return Some(0);
    }
    if scale > 19 || |digits| + scale > 19 {
      TooLong(digits, scale);
      return None;
    }
    r := ReadDigits(digits);
    ShiftGrows(Value(digits), 0, scale);
    if r.None? { return None; }
    r := Multiply(r.value, scale);
  }

  /** The digits shifted by the scale, when that is an integer that fits. */
  method ScaleDigits(digits: string, scale: int) returns (r: Option<Int64>)
    requires Digits(digits) && !Zeros(digits)
    ensures Agrees(r, false, Value(digits), scale)
  {
    if scale < 0 {
      var drop := -scale;
      if drop >= |digits| {
        DroppingAll(digits, scale);
        return None;
      }
      var cut := |digits| - drop;
      forall v: int | 0 <= v <= MAX_INT64
        ensures Denotes(false, Value(digits), scale, v) <==> Zeros(digits[cut..]) && v == Value(digits[..cut])
      {
        Dropping(digits, cut, v);
      }
      for index := cut to |digits|
        invariant forall i :: cut <= i < index ==> digits[i] == '0'
      {
        if digits[index] != '0' {
          assert digits[cut..][index - cut] != '0';
          return None;
        }
      }
      r := Accumulate(digits[..cut], 0);
    } else {
      r := Accumulate(digits, scale);
    }
  }

  method SplitMantissa(mantissa: string) returns (ok: bool, whole: string, fraction: Option<string>)
    ensures ok ==> WholeOk(whole) && FractionOk(fraction) && whole + PointPart(fraction) == mantissa
    ensures !ok ==> forall n :: WellFormed(n) ==> Mantissa(n) != mantissa
  {
    whole, fraction := mantissa, None;
    var point := FindPoint(mantissa);
    if point < |mantissa| {
      whole := mantissa[..point];
      fraction := Some(mantissa[point + 1..]);
    }
    forall n | WellFormed(n) && Mantissa(n) == mantissa
      ensures n.whole == whole && FractionDigits(n) == if fraction.Some? then fraction.value else ""
    {
      MantissaSplits(n, mantissa);
    }
    ok := DecimalDigits(whole);
    if whole == "" || (|whole| > 1 && whole[0] == '0') || !ok {
      return false, whole, fraction;
    }
    if fraction.Some? {
      ok := DecimalDigits(fraction.value);
      ok := ok && fraction.value != "";
    }
  }

  /** The text after the sign, taken apart, with the exponent clamped; n is the number it spells. */
  method SplitUnsigned(text: string, negative: bool) returns (ok: bool, digits: string, scale: int, ghost n: Literal)
    ensures ok ==> WellFormed(n) && n.negative == negative && Unsigned(n) == text
    ensures ok ==> digits == n.whole + FractionDigits(n) && scale == Clamp(ExponentOf(n)) - |FractionDigits(n)|
    ensures !ok ==> forall n :: WellFormed(n) ==> Unsigned(n) != text
  {
    var exponent := 0;
    ghost var e: Option<Exponent> := None;
    var index := FindMark(text);
    n := Literal(negative, "", None, None);
    forall n | WellFormed(n) && Unsigned(n) == text
      ensures Mantissa(n) == text[..index]
              && (index < |text| ==> n.exponent.Some? && ExponentText(n.exponent.value) == text[index + 1..])
    {
      UnsignedSplits(n, text);
    }
    if index < |text| {
      var parsed, written := ClampedDecimalExponent(text[index], text[index + 1..]);
      if parsed.None? { return false, "", 0, n; }
      exponent := parsed.value;
      e := Some(written);
      Rejoin(text, index);
    } else {
      assert text[..index] + [] == text;
    }
    var whole, fraction;
    ok, whole, fraction := SplitMantissa(text[..index]);
    var fractionPart := if fraction.Some? then fraction.value else "";
    n := Literal(negative, whole, fraction, e);
    return ok, whole + fractionPart, exponent - |fractionPart|, n;
  }

  lemma YieldsItsMeaning(text: string, n: Literal, v: int)
    requires WellFormed(n) && Spell(n) == text && 0 <= v <= MAX_INT64
    ensures Yields(text, v) <==> MeansAt(n, Clamp(ExponentOf(n)), v)
  {
    if Yields(text, v) {
      var m :| WellFormed(m) && Spell(m) == text && MeansAt(m, Clamp(ExponentOf(m)), v);
      SpellingIsUnique(n, m);
    }
  }

  /** If the result agrees with a spelling of the text, it is all the text yields. */
  lemma AgreementYields(text: string, n: Literal, r: Option<Int64>, v: int)
    requires WellFormed(n) && Spell(n) == text && 0 <= v <= MAX_INT64
    requires Agrees(r, n.negative, Magnitude(n), Clamp(ExponentOf(n)) - |FractionDigits(n)|)
    ensures Reported(r) == Some(v) <==> Yields(text, v)
  {
    YieldsItsMeaning(text, n, v);
  }

  lemma OnlyItsSplitting(number: string)
    ensures forall n | WellFormed(n) && Spell(n) == number ::
              number != "" && Unsigned(n) == if number[0] == '-' then number[1..] else number
  {
    forall n | WellFormed(n) && Spell(n) == number
      ensures number != "" && Unsigned(n) == if number[0] == '-' then number[1..] else number
    {
      SpellSplits(n, number);
    }
  }

  lemma SpelledWithSign(number: string, n: Literal)
    requires number != "" && n.negative == (number[0] == '-')
    requires Unsigned(n) == if n.negative then number[1..] else number
    ensures Spell(n) == number
  {
    if n.negative { assert number == ['-'] + number[1..]; }
  }

  lemma UnsignedIsNotEmpty(n: Literal)
    requires WellFormed(n)
    ensures Unsigned(n) != ""
  {
  }

  lemma NoSpelling(number: string, text: string)
    requires number != "" && text == if number[0] == '-' then number[1..] else number
    requires forall n | WellFormed(n) :: Unsigned(n) != text
    ensures forall v :: !Yields(number, v)
  {
    OnlyItsSplitting(number);
    hide Spell, Unsigned, WellFormed, MeansAt;
  }

  lemma EmptyYieldsNothing()
    ensures forall v :: !Yields("", v)
  {
    OnlyItsSplitting("");
    hide Spell, Unsigned, WellFormed, MeansAt;
  }

  lemma SignAloneYieldsNothing(number: string)
    requires number != "" && number[0] == '-' && number[1..] == ""
    ensures forall v :: !Yields(number, v)
  {
    forall n | WellFormed(n)
      ensures Unsigned(n) != ""
    {
      UnsignedIsNotEmpty(n);
    }
    NoSpelling(number, "");
  }

  /** The value of split digits: zero, nothing when negative, or the scaled digits. */
  method Evaluate(negative: bool, digits: string, scale: int) returns (r: Option<Int64>)
    requires Digits(digits)
    ensures Agrees(r, negative, Value(digits), scale)
  {
    ValueOfZeros(digits);
    hide Agrees, Value;
    var allZero := AllZero(digits);
    if allZero {
      ZeroMeansZero(negative, scale);
      return Some(0);
    }
    if negative {
      NegativeMeansNothing(Value(digits), scale);
      return None;
    }
    r := ScaleDigits(digits, scale);
  }

  /** nonNegativeInt64: the clamped meaning of every spelling of a number, and nothing for any other text. */
  method NonNegativeInt64(number: string) returns (r: Option<Int64>)
    ensures r.Some? ==> r.value >= 0
    ensures forall v: int | 0 <= v <= MAX_INT64 :: Reported(r) == Some(v) <==> Yields(number, v)
  {
    hide Yields, Unsigned, Spell, Value;
    if number == "" {
      EmptyYieldsNothing();
      return None;
    }
    var negative := number[0] == '-';
    var text := number;
    if negative {
      text := text[1..];
      if text == "" {
        SignAloneYieldsNothing(number);
        return None;
      }
    }
    var ok, digits, scale, n := SplitUnsigned(text, negative);
    if !ok {
      NoSpelling(number, text);
      return None;
    }
    SpelledWithSign(number, n);
    r := Evaluate(negative, digits, scale);
    forall v: int | 0 <= v <= MAX_INT64
      ensures Reported(r) == Some(v) <==> Yields(number, v)
    {
      AgreementYields(number, n, r, v);
    }
  }

  // ----- When the clamp is harmless

  /** The clamped and the true exponent give the number the same 64-bit meaning. */
  ghost predicate Exact(n: Literal)
    requires WellFormed(n)
  {
    forall v: int | 0 <= v <= MAX_INT64 :: MeansAt(n, Clamp(ExponentOf(n)), v) <==> Means(n, v)
  }

  ghost predicate Shaped(n: Literal, whole: nat, fraction: nat) {
    WellFormed(n) && |n.whole| == whole && |FractionDigits(n)| == fraction
  }

  /** How many digits may stand before and after the point. */
  predicate SafeShape(whole: nat, fraction: nat) {
    whole <= LIMIT && (whole >= 2 || fraction <= LIMIT - 19)
  }

  /** A positive number of many digits and a huge exponent fits no 64-bit integer. */
  lemma HugeMeansNothing(n: Literal, exponent: int)
    requires WellFormed(n) && SafeShape(|n.whole|, |FractionDigits(n)|) && Magnitude(n) > 0 && exponent >= LIMIT
    ensures Agrees(None, false, Magnitude(n), exponent - |FractionDigits(n)|)
  {
    var m, f := Magnitude(n), |FractionDigits(n)|;
    var scale := exponent - f;
    TenNineteen();
    if f <= LIMIT - 19 {
      ShiftGrows(1, 19, scale);
      ShiftOrder(m, 1, scale);
    } else {
      var digits := n.whole + FractionDigits(n);
      ValueLeads(digits);
      ShiftGrows(1, 19, |digits| - 1);
      if scale >= 0 {
        ShiftGrows(m, 0, scale);
      } else {
        ShiftTwice(1, 19, -scale);
        ShiftGrows(1, 19 - scale, |digits| - 1);
        forall v: int | 0 <= v <= MAX_INT64
          ensures !Denotes(false, m, scale, v)
        {
          ShiftOrder(v, Ten(19), -scale);
        }
      }
    }
  }

  lemma TinyMeansNothing(n: Literal, exponent: int)
    requires WellFormed(n) && |n.whole| <= LIMIT && Magnitude(n) > 0 && exponent <= -LIMIT
    ensures Agrees(None, false, Magnitude(n), exponent - |FractionDigits(n)|)
  {
    var digits := n.whole + FractionDigits(n);
    ValueOfZeros(digits);
    DroppingAll(digits, exponent - |FractionDigits(n)|);
  }

  /** Within these shapes the clamp changes nothing, whatever the exponent. */
  lemma ClampIsHarmless(n: Literal)
    requires WellFormed(n) && SafeShape(|n.whole|, |FractionDigits(n)|)
    ensures Exact(n)
  {
    var e, m, f := ExponentOf(n), Magnitude(n), |FractionDigits(n)|;
    if m == 0 {
      ZeroMeansZero(n.negative, e - f);
      ZeroMeansZero(n.negative, Clamp(e) - f);
    } else if n.negative {
      NegativeMeansNothing(m, e - f);
      NegativeMeansNothing(m, Clamp(e) - f);
    } else if e > LIMIT {
      HugeMeansNothing(n, e);
      HugeMeansNothing(n, LIMIT);
    } else if e < -LIMIT {
      TinyMeansNothing(n, e);
      TinyMeansNothing(n, -LIMIT);
    }
  }

  function ZeroDigits(n: nat): (r: string)
    ensures |r| == n && Digits(r) && Zeros(r)
  {
    seq(n, _ => '0')
  }

  /** A spelling of k, for writing exponents. */
  function Decimal(k: nat): (r: string)
    ensures r != "" && Digits(r) && Value(r) == k
  {
    var last := ['0' + (k % 10) as char];
    if k < 10 then
      assert last[..0] == "";
      last
    else
      assert (Decimal(k / 10) + last)[..|Decimal(k / 10)|] == Decimal(k / 10);
      Decimal(k / 10) + last
  }

  /** One, then zeros only, then the exponent that the clamp cuts short. */
  function LongWhole(whole: nat, fraction: nat): Literal
    requires whole > LIMIT
  {
    Literal(false, "1" + ZeroDigits(whole - 1), if fraction == 0 then None else Some(ZeroDigits(fraction)),
            Some(Exponent('e', Minus, Decimal(if whole - 1 > LIMIT then whole - 1 else LIMIT + 1))))
  }

  lemma LongWholeValue(whole: nat, fraction: nat)
    requires whole > LIMIT
    ensures Shaped(LongWhole(whole, fraction), whole, fraction)
    ensures Magnitude(LongWhole(whole, fraction)) == Ten(whole - 1 + fraction)
  {
    var n := LongWhole(whole, fraction);
    var tail := ZeroDigits(whole - 1) + FractionDigits(n);
    assert n.whole + FractionDigits(n) == "1" + tail;
    ValueOfZeros(tail);
    ValueConcat("1", tail);
    assert "1"[..0] == "";
  }

  lemma LongWholeIsInexact(whole: nat, fraction: nat)
    requires whole > LIMIT
    ensures Shaped(LongWhole(whole, fraction), whole, fraction) && !Exact(LongWhole(whole, fraction))
  {
    var n := LongWhole(whole, fraction);
    LongWholeValue(whole, fraction);
    ShiftGrows(1, LIMIT + fraction, whole - 1 + fraction);
    ShiftGrows(1, whole - 1 + fraction, whole + fraction);
    assert MeansAt(n, Clamp(ExponentOf(n)), 1) != Means(n, 1);
  }

  /** Nought point nought ... one, then the exponent that the clamp cuts short. */
  function LongFraction(fraction: nat): Literal
    requires fraction > LIMIT - 19
  {
    Literal(false, "0", Some(ZeroDigits(fraction - 1) + "1"),
            Some(Exponent('e', Unmarked, Decimal(if fraction > LIMIT then fraction else LIMIT + 1))))
  }

  lemma LongFractionValue(fraction: nat)
    requires fraction > LIMIT - 19
    ensures Shaped(LongFraction(fraction), 1, fraction) && Magnitude(LongFraction(fraction)) == 1
  {
    var n := LongFraction(fraction);
    var digits := n.whole + FractionDigits(n);
    var zeros := digits[..fraction];
    assert Zeros(zeros) && digits[fraction] == '1';
    ValueOfZeros(zeros);
  }

  lemma LongFractionIsInexact(fraction: nat)
    requires fraction > LIMIT - 19
    ensures Shaped(LongFraction(fraction), 1, fraction) && !Exact(LongFraction(fraction))
  {
    var n := LongFraction(fraction);
    LongFractionValue(fraction);
    if fraction > LIMIT {
      ShiftGrows(1, 0, fraction - LIMIT);
      assert MeansAt(n, Clamp(ExponentOf(n)), 1) != Means(n, 1);
    } else {
      var v := Ten(LIMIT - fraction);
      ShiftGrows(1, LIMIT - fraction, 18);
      ShiftGrows(1, LIMIT - fraction, LIMIT + 1 - fraction);
      TenNineteen();
      assert MeansAt(n, Clamp(ExponentOf(n)), v) != Means(n, v);
    }
  }

  /** The parser is exact on every number of a shape, whatever its digits and exponent, just when the shape is safe. */
  lemma ExactExactlyOnSafeShapes(whole: nat, fraction: nat)
    requires whole >= 1
    ensures SafeShape(whole, fraction) <==> forall n :: Shaped(n, whole, fraction) ==> Exact(n)
  {
    if SafeShape(whole, fraction) {
      forall n | Shaped(n, whole, fraction)
        ensures Exact(n)
      {
        ClampIsHarmless(n);
      }
    } else if whole > LIMIT {
      LongWholeIsInexact(whole, fraction);
    } else {
      LongFractionIsInexact(fraction);
    }
  }

  /** For texts this short, the parser reports v exactly when the exact value of the number is the integer v. */
  lemma ShortTextsAreExact(text: string, v: int)
    requires |text| <= MAX_RAW_BYTES - 19
    ensures Yields(text, v) <==> 0 <= v <= MAX_INT64 && exists n :: WellFormed(n) && Spell(n) == text && Means(n, v)
  {
    forall n | WellFormed(n) && Spell(n) == text
      ensures Exact(n)
    {
      assert |n.whole| + |FractionDigits(n)| <= |text|;
      ClampIsHarmless(n);
    }
  }

  lemma DenotesOnce(negative: bool, magnitude: int, scale: int, v: int, w: int)
    requires Denotes(negative, magnitude, scale, v) && Denotes(negative, magnitude, scale, w)
    ensures v == w
  {
    if scale < 0 { ShiftOrder(v, w, -scale); }
  }

  /** A text yields at most one value. */
  lemma YieldsOnce(text: string, v: int, w: int)
    requires Yields(text, v) && Yields(text, w)
    ensures v == w
  {
    hide WellFormed, Spell, Denotes, Magnitude, ExponentOf, FractionDigits, Clamp;
    var n :| WellFormed(n) && Spell(n) == text && MeansAt(n, Clamp(ExponentOf(n)), v);
    YieldsItsMeaning(text, n, w);
    DenotesOnce(n.negative, Magnitude(n), Clamp(ExponentOf(n)) - |FractionDigits(n)|, v, w);
  }

  lemma {:induction false} DecimalLeads(k: nat)
    ensures WholeOk(Decimal(k)) && (k > 0 ==> Decimal(k)[0] != '0')
  {
    if k >= 10 { DecimalLeads(k / 10); }
  }

  /** Every value is yielded by its decimal spelling. */
  lemma DecimalYields(v: int)
    requires 0 <= v <= MAX_INT64
    ensures Yields(Decimal(v), v)
  {
    DecimalLeads(v);
    var n := Literal(false, Decimal(v), None, None);
    assert n.whole + FractionDigits(n) == n.whole;
    assert Spell(n) == Decimal(v);
  }
}
