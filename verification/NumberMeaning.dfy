/** What the grammar of numbers admits, read character by character, and what its spellings mean. */
module NumberMeaning {
  import opened Wrappers
  import opened Number

  // ----- The grammar as an automaton

  datatype Place =
    | Start
    | Signed
    | LeadingZero
    | InWhole
    | AfterPoint
    | InFraction
    | AfterMark
    | AfterMarkSign
    | InExponent
    | Stuck

  function FirstDigit(c: char): Place {
    if c == '0' then LeadingZero else if '1' <= c <= '9' then InWhole else Stuck
  }

  function OfExponent(c: char): Place {
    if '0' <= c <= '9' then InExponent else Stuck
  }

  function MarkOrStuck(c: char): Place {
    if c == 'e' || c == 'E' then AfterMark else Stuck
  }

  function Move(p: Place, c: char): Place {
    match p
    case Start => if c == '-' then Signed else FirstDigit(c)
    case Signed => FirstDigit(c)
    case LeadingZero => if c == '.' then AfterPoint else MarkOrStuck(c)
    case InWhole => if '0' <= c <= '9' then InWhole else if c == '.' then AfterPoint else MarkOrStuck(c)
    case AfterPoint => if '0' <= c <= '9' then InFraction else Stuck
    case InFraction => if '0' <= c <= '9' then InFraction else MarkOrStuck(c)
    case AfterMark => if c == '+' || c == '-' then AfterMarkSign else OfExponent(c)
    case AfterMarkSign => OfExponent(c)
    case InExponent => OfExponent(c)
    case Stuck => Stuck
  }

  function Reach(p: Place, text: string): Place
    decreases |text|
  {
    if text == "" then p else Reach(Move(p, text[0]), text[1..])
  }

  predicate Complete(p: Place) {
    p.LeadingZero? || p.InWhole? || p.InFraction? || p.InExponent?
  }

  lemma {:induction false} ReachSplits(p: Place, a: string, b: string)
    ensures Reach(p, a + b) == Reach(Reach(p, a), b)
    decreases |a|
  {
    if a == "" {
      assert a + b == b;
    } else {
      assert (a + b)[0] == a[0] && (a + b)[1..] == a[1..] + b;
      ReachSplits(Move(p, a[0]), a[1..], b);
    }
  }

  lemma ReachOne(p: Place, c: char, rest: string)
    ensures Reach(p, [c] + rest) == Reach(Move(p, c), rest)
  {
    assert ([c] + rest)[1..] == rest;
  }

  /** Digits keep the automaton among the digits it is in. */
  lemma {:induction false} DigitsStay(p: Place, digits: string)
    requires (p.InWhole? || p.InFraction? || p.InExponent?) && Digits(digits)
    ensures Reach(p, digits) == p
    decreases |digits|
  {
    if digits != "" { DigitsStay(p, digits[1..]); }
  }

  lemma WholeIsRead(p: Place, whole: string)
    requires (p.Start? || p.Signed?) && WholeOk(whole)
    ensures var q := Reach(p, whole); q.LeadingZero? || q.InWhole?
  {
    ReachOne(p, whole[0], whole[1..]);
    assert whole == [whole[0]] + whole[1..];
    if |whole| > 1 { DigitsStay(InWhole, whole[1..]); }
  }

  lemma FractionIsRead(p: Place, fraction: Option<string>)
    requires (p.LeadingZero? || p.InWhole?) && FractionOk(fraction)
    ensures var q := Reach(p, PointPart(fraction)); if fraction.Some? then q.InFraction? else q == p
  {
    if fraction.Some? {
      var digits := fraction.value;
      ReachOne(p, '.', digits);
      assert Reach(AfterPoint, digits) == Reach(InFraction, digits[1..]);
      DigitsStay(InFraction, digits[1..]);
    }
  }

  lemma ExponentIsRead(p: Place, e: Option<Exponent>)
    requires (p.LeadingZero? || p.InWhole? || p.InFraction?) && (e.Some? ==> ExponentOk(e.value))
    ensures var q := Reach(p, ExponentPart(e)); if e.Some? then q.InExponent? else q == p
  {
    if e.Some? {
      var digits := e.value.digits;
      ReachOne(p, e.value.mark, ExponentText(e.value));
      assert Digit(digits[0]);
      DigitsStay(InExponent, digits[1..]);
      assert Reach(AfterMark, digits) == Reach(AfterMarkSign, digits) == InExponent;
      match e.value.sign {
        case Unmarked => assert ExponentText(e.value) == digits;
        case Plus => ReachOne(AfterMark, '+', digits);
        case Minus => ReachOne(AfterMark, '-', digits);
      }
    }
  }

  lemma SpellingIsRead(n: Literal)
    requires WellFormed(n)
    ensures Complete(Reach(Start, Spell(n)))
  {
    var p := if n.negative then Signed else Start;
    if n.negative {
      ReachOne(Start, '-', Unsigned(n));
    } else {
      assert Spell(n) == Unsigned(n);
    }
    var whole := Reach(p, n.whole);
    WholeIsRead(p, n.whole);
    ReachSplits(p, n.whole, PointPart(n.fraction));
    FractionIsRead(whole, n.fraction);
    ReachSplits(p, Mantissa(n), ExponentPart(n.exponent));
    ExponentIsRead(Reach(whole, PointPart(n.fraction)), n.exponent);
  }

  lemma {:induction false} NothingAfterStuck(text: string)
    ensures Reach(Stuck, text) == Stuck
  {
    if text != "" { NothingAfterStuck(text[1..]); }
  }

  lemma {:induction false} RestOfExponent(p: Place, text: string)
    requires (p.AfterMarkSign? || p.InExponent?) && Complete(Reach(p, text))
    ensures Digits(text) && (p.AfterMarkSign? ==> text != "")
    decreases |text|
  {
    if text != "" {
      NothingAfterStuck(text[1..]);
      RestOfExponent(InExponent, text[1..]);
    }
  }

  lemma RestAfterMark(mark: char, text: string) returns (e: Exponent)
    requires Mark(mark) && Complete(Reach(AfterMark, text))
    ensures ExponentOk(e) && ExponentPart(Some(e)) == [mark] + text
  {
    e := Exponent(mark, SignOf(text), AfterSign(text));
    NothingAfterStuck(text[1..]);
    if text[0] == '+' || text[0] == '-' {
      RestOfExponent(AfterMarkSign, text[1..]);
      assert text == [text[0]] + text[1..];
    } else {
      RestOfExponent(AfterMarkSign, text);
      assert ExponentText(e) == text;
    }
  }

  lemma {:induction false} RestOfFraction(p: Place, text: string) returns (digits: string, e: Option<Exponent>)
    requires (p.AfterPoint? || p.InFraction?) && Complete(Reach(p, text))
    ensures Digits(digits) && (p.AfterPoint? ==> digits != "") && (e.Some? ==> ExponentOk(e.value))
    ensures text == digits + ExponentPart(e)
    decreases |text|
  {
    if text == "" {
      return "", None;
    }
    NothingAfterStuck(text[1..]);
    assert text == [text[0]] + text[1..];
    if '0' <= text[0] <= '9' {
      digits, e := RestOfFraction(InFraction, text[1..]);
      digits := [text[0]] + digits;
    } else {
      var written := RestAfterMark(text[0], text[1..]);
      return "", Some(written);
    }
  }

  lemma RestAfterZero(text: string) returns (fraction: Option<string>, e: Option<Exponent>)
    requires Complete(Reach(LeadingZero, text))
    ensures FractionOk(fraction) && (e.Some? ==> ExponentOk(e.value))
    ensures text == PointPart(fraction) + ExponentPart(e)
  {
    if text == "" {
      return None, None;
    }
    NothingAfterStuck(text[1..]);
    assert text == [text[0]] + text[1..];
    if text[0] == '.' {
      var digits;
      digits, e := RestOfFraction(AfterPoint, text[1..]);
      fraction := Some(digits);
      assert text == PointPart(fraction) + ExponentPart(e);
    } else {
      var written := RestAfterMark(text[0], text[1..]);
      return None, Some(written);
    }
  }

  lemma Prepended(text: string, digits: string, rest: string)
    requires text != "" && text[1..] == digits + rest
    ensures text == ([text[0]] + digits) + rest
  {
    assert text == [text[0]] + text[1..];
  }

  lemma {:induction false} RestOfWhole(text: string)
    returns (digits: string, fraction: Option<string>, e: Option<Exponent>)
    requires Complete(Reach(InWhole, text))
    ensures Digits(digits) && FractionOk(fraction) && (e.Some? ==> ExponentOk(e.value))
    ensures text == digits + (PointPart(fraction) + ExponentPart(e))
  {
    if text != "" && '0' <= text[0] <= '9' {
      digits, fraction, e := RestOfWhole(text[1..]);
      Prepended(text, digits, PointPart(fraction) + ExponentPart(e));
      digits := [text[0]] + digits;
    } else {
      assert text != "" ==> Move(InWhole, text[0]) == Move(LeadingZero, text[0]);
      digits := "";
      fraction, e := RestAfterZero(text);
      hide PointPart, ExponentPart;
    }
  }

  lemma Parts(a: string, b: string, c: string)
    ensures a + (b + c) == (a + b) + c
  {
  }

  lemma RestAfterSign(negative: bool, text: string) returns (n: Literal)
    requires Complete(Reach(Signed, text))
    ensures WellFormed(n) && n.negative == negative && Unsigned(n) == text
  {
    var digits, fraction, e;
    NothingAfterStuck(text[1..]);
    if text[0] == '0' {
      digits := "";
      fraction, e := RestAfterZero(text[1..]);
    } else {
      digits, fraction, e := RestOfWhole(text[1..]);
    }
    n := Literal(negative, [text[0]] + digits, fraction, e);
    Prepended(text, digits, PointPart(fraction) + ExponentPart(e));
    Parts([text[0]] + digits, PointPart(fraction), ExponentPart(e));
  }

  /** The numbers of the grammar are just the texts the automaton reads to a complete place. */
  lemma NumbersExactly(text: string)
    ensures (exists n :: WellFormed(n) && Spell(n) == text) <==> Complete(Reach(Start, text))
  {
    if n :| WellFormed(n) && Spell(n) == text {
      SpellingIsRead(n);
    }
    if Complete(Reach(Start, text)) {
      if text[0] == '-' {
        var n := RestAfterSign(true, text[1..]);
        assert text == ['-'] + text[1..];
        assert WellFormed(n) && Spell(n) == text;
      } else {
        var n := RestAfterSign(false, text);
        assert WellFormed(n) && Spell(n) == text;
      }
    }
  }

  // ----- What spellings mean

  /** A sign leaves nothing but zero. */
  lemma SignedYields(k: nat, v: int)
    ensures Yields("-" + Decimal(k), v) <==> k == 0 && v == 0
  {
    var n := Literal(true, Decimal(k), None, None);
    DecimalLeads(k);
    assert n.whole + FractionDigits(n) == n.whole;
    assert Spell(n) == "-" + Decimal(k);
    if 0 <= v <= MAX_INT64 { YieldsItsMeaning("-" + Decimal(k), n, v); }
  }

  /** A fraction is zeros or makes the number no integer. */
  lemma PointYields(k: nat, fraction: string, v: int)
    requires fraction != "" && Digits(fraction)
    ensures Yields(Decimal(k) + "." + fraction, v) <==> Zeros(fraction) && v == k <= MAX_INT64
  {
    var text := Decimal(k) + "." + fraction;
    var n := Literal(false, Decimal(k), Some(fraction), None);
    DecimalLeads(k);
    assert Spell(n) == text;
    var digits := Decimal(k) + fraction;
    ValueConcat(Decimal(k), fraction);
    assert digits[|Decimal(k)|..] == fraction && digits[..|Decimal(k)|] == Decimal(k);
    if 0 <= v <= MAX_INT64 {
      YieldsItsMeaning(text, n, v);
      Dropping(digits, |Decimal(k)|, v);
    }
  }

  function Scaled(k: nat, e: Exponent): Literal {
    Literal(false, Decimal(k), None, Some(e))
  }

  lemma ScaledText(k: nat, e: Exponent)
    ensures Spell(Scaled(k, e)) == Decimal(k) + ([e.mark] + ExponentText(e))
  {
    hide Decimal, ExponentText;
    assert Mantissa(Scaled(k, e)) == Decimal(k);
  }

  lemma ScaledValue(k: nat, e: Exponent)
    requires ExponentOk(e)
    ensures WellFormed(Scaled(k, e)) && Magnitude(Scaled(k, e)) == k && FractionDigits(Scaled(k, e)) == ""
  {
    DecimalLeads(k);
    hide WholeOk, ExponentOk;
    assert Decimal(k) + "" == Decimal(k);
  }

  lemma ScaledMeaning(k: nat, e: Exponent, v: int)
    requires ExponentOk(e) && 0 <= v <= MAX_INT64
    ensures Yields(Decimal(k) + ([e.mark] + ExponentText(e)), v) <==> Denotes(false, k, Clamp(ExponentValue(e)), v)
  {
    ScaledText(k, e);
    ScaledValue(k, e);
    hide Yields, Decimal, Denotes, Clamp, ExponentText, ExponentOk, WellFormed, Spell, Magnitude, FractionDigits;
    YieldsItsMeaning(Decimal(k) + ([e.mark] + ExponentText(e)), Scaled(k, e), v);
  }

  /** A positive exponent multiplies by a power of ten. */
  lemma ExponentYields(k: nat, j: nat, mark: char, plus: bool, v: int)
    requires Mark(mark) && j <= LIMIT
    ensures Yields(Decimal(k) + ([mark] + ((if plus then ['+'] else []) + Decimal(j))), v) <==>
            v == Shift(k, j) <= MAX_INT64
  {
    var e := Exponent(mark, if plus then Plus else Unmarked, Decimal(j));
    ShiftGrows(k, 0, j);
    if 0 <= v <= MAX_INT64 { ScaledMeaning(k, e, v); }
  }

  /** A negative exponent divides by a power of ten, without remainder. */
  lemma NegativeExponentYields(k: nat, j: nat, mark: char, v: int)
    requires Mark(mark) && j <= LIMIT
    ensures Yields(Decimal(k) + ([mark] + (['-'] + Decimal(j))), v) <==> 0 <= v <= MAX_INT64 && Shift(v, j) == k
  {
    var e := Exponent(mark, Minus, Decimal(j));
    if 0 <= v <= MAX_INT64 { ScaledMeaning(k, e, v); }
  }
}
