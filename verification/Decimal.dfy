/** The numbers of a JSON text as decimals in normal form, and the layout `Number::toString` gives them. */
module Decimal {
  import opened Utf16

  type Digit = d: int | 0 <= d < 10

  /** The number is 0.<digits> times 10^point; zero has no digits. */
  datatype Decimal = Decimal(neg: bool, digits: seq<Digit>, point: int)

  predicate Normal(d: Decimal) {
    if d.digits == [] then d.point == 0
    else d.digits[0] != 0 && d.digits[|d.digits| - 1] != 0
  }

  /** The normal form of 0.<digits> times 10^point. */
  function Normalise(neg: bool, digits: seq<Digit>, point: int): (r: Decimal)
    ensures Normal(r)
    decreases |digits|
  {
    if digits == [] then Decimal(neg, [], 0)
    else if digits[0] == 0 then Normalise(neg, digits[1..], point - 1)
    else if digits[|digits| - 1] == 0 then Normalise(neg, digits[..|digits| - 1], point)
    else Decimal(neg, digits, point)
  }

  function Zeros(n: nat): (r: seq<Digit>)
    ensures |r| == n
    ensures forall k :: 0 <= k < n ==> r[k] == 0
  {
    seq(n, _ => 0)
  }

  function NatOf(digits: seq<Digit>): nat {
    if digits == [] then 0
    else 10 * NatOf(digits[..|digits| - 1]) + digits[|digits| - 1]
  }

  function DigitsOf(n: nat): (r: seq<Digit>)
    ensures r != []
  {
    if n < 10 then [n] else DigitsOf(n / 10) + [n % 10]
  }

  lemma {:induction false} DigitsReadBack(n: nat)
    ensures NatOf(DigitsOf(n)) == n
  {
    if n < 10 {
      assert DigitsOf(n)[..0] == [];
    } else {
      DigitsReadBack(n / 10);
      assert DigitsOf(n)[..|DigitsOf(n)| - 1] == DigitsOf(n / 10);
    }
  }

  function Power(w: nat): (r: nat)
    ensures r > 0
  {
    if w == 0 then 1 else 10 * Power(w - 1)
  }

  lemma {:induction false} DigitsFit(n: nat, w: nat)
    requires n < Power(w) && w > 0
    ensures |DigitsOf(n)| <= w
  {
    if n >= 10 {
      DigitsFit(n / 10, w - 1);
    }
  }

  // ---- what a decimal is worth ----

  function Pow10(e: int): real
    decreases if e < 0 then -e else e
  {
    if e == 0 then 1.0
    else if e > 0 then 10.0 * Pow10(e - 1)
    else Pow10(e + 1) / 10.0
  }

  lemma Pow10Next(e: int)
    ensures Pow10(e + 1) == 10.0 * Pow10(e)
  {
  }

  function Magnitude(digits: seq<Digit>, point: int): real {
    NatOf(digits) as real * Pow10(point - |digits|)
  }

  function Worth(neg: bool, digits: seq<Digit>, point: int): real {
    if neg then -Magnitude(digits, point) else Magnitude(digits, point)
  }

  lemma {:induction false} LeadingZero(digits: seq<Digit>)
    requires digits != [] && digits[0] == 0
    ensures NatOf(digits) == NatOf(digits[1..])
  {
    if |digits| == 1 {
      assert digits[..0] == [];
    } else {
      var body := digits[..|digits| - 1];
      LeadingZero(body);
      assert body[1..] == digits[1..][..|digits| - 2];
    }
  }

  lemma LeadingZeroMagnitude(digits: seq<Digit>, point: int)
    requires digits != [] && digits[0] == 0
    ensures Magnitude(digits, point) == Magnitude(digits[1..], point - 1)
  {
    LeadingZero(digits);
  }

  lemma TrailingZero(digits: seq<Digit>, point: int)
    requires digits != [] && digits[|digits| - 1] == 0
    ensures Magnitude(digits, point) == Magnitude(digits[..|digits| - 1], point)
  {
    var n := NatOf(digits[..|digits| - 1]);
    var p := Pow10(point - |digits|);
    Pow10Next(point - |digits|);
    assert NatOf(digits) == 10 * n;
    assert (10 * n) as real == 10.0 * n as real;
    assert (10.0 * n as real) * p == n as real * (10.0 * p);
  }

  lemma {:induction false} NormaliseKeepsMagnitude(neg: bool, digits: seq<Digit>, point: int)
    ensures var r := Normalise(neg, digits, point);
            r.neg == neg && Magnitude(digits, point) == Magnitude(r.digits, r.point)
    decreases |digits|
  {
    if digits == [] {
      assert NatOf(digits) == 0;
    } else if digits[0] == 0 {
      LeadingZeroMagnitude(digits, point);
      NormaliseKeepsMagnitude(neg, digits[1..], point - 1);
    } else if digits[|digits| - 1] == 0 {
      TrailingZero(digits, point);
      NormaliseKeepsMagnitude(neg, digits[..|digits| - 1], point);
    }
  }

  /** The normal form is worth what the digits it was made from are worth. */
  lemma NormaliseKeepsWorth(neg: bool, digits: seq<Digit>, point: int)
    ensures var r := Normalise(neg, digits, point);
            Worth(neg, digits, point) == Worth(r.neg, r.digits, r.point)
  {
    NormaliseKeepsMagnitude(neg, digits, point);
  }

  // ---- the number literals of a JSON text ----

  datatype Exponent = NoExponent | Exponent(mark: Unit, sign: seq<Unit>, digits: seq<Digit>)

  /** A number literal; no fraction is an empty one. */
  datatype Literal = Literal(neg: bool, whole: seq<Digit>, fraction: seq<Digit>, exponent: Exponent)

  const MINUS: Unit := 0x2D
  const PLUS: Unit := 0x2B
  const DOT: Unit := 0x2E
  const LOWER_E: Unit := 0x65
  const UPPER_E: Unit := 0x45
  const ZERO: Unit := 0x30

  predicate ValidLiteral(l: Literal) {
    && l.whole != []
    && (l.whole[0] == 0 ==> |l.whole| == 1)
    && (l.exponent.Exponent? ==>
          && l.exponent.mark in {LOWER_E, UPPER_E}
          && l.exponent.sign in {[], [PLUS], [MINUS]}
          && l.exponent.digits != [])
  }

  function DigitText(digits: seq<Digit>): (r: Text)
    ensures |r| == |digits|
  {
    seq(|digits|, k requires 0 <= k < |digits| => ZERO + digits[k])
  }

  function SignText(neg: bool): Text {
    if neg then [MINUS] else []
  }

  function FractionText(fraction: seq<Digit>): Text {
    if fraction == [] then [] else [DOT] + DigitText(fraction)
  }

  function ExponentText(e: Exponent): Text {
    match e
    case NoExponent => []
    case Exponent(mark, sign, digits) => [mark] + sign + DigitText(digits)
  }

  function LiteralText(l: Literal): Text {
    SignText(l.neg) + DigitText(l.whole) + FractionText(l.fraction) + ExponentText(l.exponent)
  }

  function ExponentOf(e: Exponent): int {
    match e
    case NoExponent => 0
    case Exponent(_, sign, digits) => (if sign == [MINUS] then -1 else 1) * NatOf(digits)
  }

  /** The number a literal stands for. */
  function ValueOf(l: Literal): (r: Decimal)
    ensures Normal(r)
  {
    Normalise(l.neg, l.whole + l.fraction, |l.whole| + ExponentOf(l.exponent))
  }

  // ---- the layout ----

  /** `number_text` of a finite number: plain up to 21 digits and down to 1e-6, an exponent with a sign beyond, and a zero without its sign. */
  function NumberText(d: Decimal): Text {
    if d.digits == [] then [ZERO]
    else SignText(d.neg) + Layout(d.digits, d.point)
  }

  function Layout(digits: seq<Digit>, point: int): Text
    requires digits != []
  {
    var k := |digits|;
    var cut := if point < 0 then 0 else if point > k then k else point;
    var head, tail := digits[..cut], digits[cut..];
    if k <= point <= 21 then DigitText(digits) + DigitText(Zeros(point - k))
    else if 0 < point <= 21 then DigitText(head) + [DOT] + DigitText(tail)
    else if -6 < point <= 0 then [ZERO, DOT] + DigitText(Zeros(-point)) + DigitText(digits)
    else
      var power := point - 1;
      var rest := digits[1..];
      [ZERO + digits[0]] + (if rest == [] then [] else [DOT] + DigitText(rest))
        + [LOWER_E] + (if power < 0 then [MINUS] else [PLUS])
        + DigitText(DigitsOf(if power < 0 then -power else power))
  }

  /** The literal the layout writes. */
  function LiteralOf(neg: bool, digits: seq<Digit>, point: int): (l: Literal)
    requires digits != []
    requires digits[0] != 0
    ensures ValidLiteral(l)
  {
    var k := |digits|;
    if k <= point <= 21 then Literal(neg, digits + Zeros(point - k), [], NoExponent)
    else if 0 < point <= 21 then Literal(neg, digits[..point], digits[point..], NoExponent)
    else if -6 < point <= 0 then Literal(neg, [0], Zeros(-point) + digits, NoExponent)
    else
      var power := point - 1;
      Literal(neg, [digits[0]], digits[1..],
              Exponent(LOWER_E, if power < 0 then [MINUS] else [PLUS], DigitsOf(if power < 0 then -power else power)))
  }

  function LayoutOf(d: Decimal): (l: Literal)
    requires Normal(d)
    ensures ValidLiteral(l)
  {
    if d.digits == [] then Literal(false, [0], [], NoExponent)
    else LiteralOf(d.neg, d.digits, d.point)
  }

  lemma DigitTextConcat(a: seq<Digit>, b: seq<Digit>)
    ensures DigitText(a + b) == DigitText(a) + DigitText(b)
  {
  }

  lemma PlainIsLiteral(digits: seq<Digit>, point: int)
    requires digits != [] && digits[0] != 0
    requires 0 < point <= 21
    ensures var l := LiteralOf(false, digits, point);
            Layout(digits, point) == DigitText(l.whole) + FractionText(l.fraction) && l.exponent == NoExponent
  {
    if |digits| <= point {
      DigitTextConcat(digits, Zeros(point - |digits|));
    }
  }

  lemma SmallIsLiteral(digits: seq<Digit>, point: int)
    requires digits != [] && digits[0] != 0
    requires -6 < point <= 0
    ensures var l := LiteralOf(false, digits, point);
            Layout(digits, point) == DigitText(l.whole) + FractionText(l.fraction) && l.exponent == NoExponent
  {
    DigitTextConcat(Zeros(-point), digits);
    assert DigitText([0]) == [ZERO];
    Regroup(ZERO, DOT, DigitText(Zeros(-point)), DigitText(digits));
  }

  lemma Regroup(a: Unit, b: Unit, s: Text, t: Text)
    ensures [a, b] + s + t == [a] + ([b] + (s + t))
  {
  }

  lemma ScientificIsLiteral(digits: seq<Digit>, point: int)
    requires digits != [] && digits[0] != 0
    requires point <= -6 || 21 < point
    ensures var l := LiteralOf(false, digits, point);
            Layout(digits, point) == DigitText(l.whole) + FractionText(l.fraction) + ExponentText(l.exponent)
  {
    assert DigitText([digits[0]]) == [ZERO + digits[0]];
  }

  lemma LayoutIsLiteral(neg: bool, digits: seq<Digit>, point: int)
    requires digits != [] && digits[0] != 0
    ensures SignText(neg) + Layout(digits, point) == LiteralText(LiteralOf(neg, digits, point))
  {
    var l := LiteralOf(false, digits, point);
    assert LiteralOf(neg, digits, point) == l.(neg := neg);
    var whole, fraction, exponent := DigitText(l.whole), FractionText(l.fraction), ExponentText(l.exponent);
    assert Layout(digits, point) == whole + fraction + exponent by {
      if 0 < point <= 21 {
        PlainIsLiteral(digits, point);
      } else if -6 < point <= 0 {
        SmallIsLiteral(digits, point);
      } else {
        ScientificIsLiteral(digits, point);
      }
    }
    SignInFront(SignText(neg), whole, fraction, exponent);
  }

  lemma SignInFront(sign: Text, whole: Text, fraction: Text, exponent: Text)
    ensures sign + (whole + fraction + exponent) == sign + whole + fraction + exponent
  {
  }

  lemma NumberTextIsLiteral(d: Decimal)
    requires Normal(d)
    ensures NumberText(d) == LiteralText(LayoutOf(d))
  {
    if d.digits == [] {
      assert DigitText([0]) == [ZERO];
    } else {
      LayoutIsLiteral(d.neg, d.digits, d.point);
    }
  }

  lemma {:induction false} StripTrailing(neg: bool, digits: seq<Digit>, n: nat, point: int)
    requires digits != [] && digits[0] != 0
    ensures Normalise(neg, digits + Zeros(n), point) == Normalise(neg, digits, point)
    decreases n
  {
    var s := digits + Zeros(n);
    if n > 0 {
      assert s[..|s| - 1] == digits + Zeros(n - 1);
      StripTrailing(neg, digits, n - 1, point);
    } else {
      assert s == digits;
    }
  }

  lemma {:induction false} StripLeading(neg: bool, n: nat, digits: seq<Digit>, point: int)
    ensures Normalise(neg, Zeros(n) + digits, point) == Normalise(neg, digits, point - n)
    decreases n
  {
    var s := Zeros(n) + digits;
    if n > 0 {
      assert s[1..] == Zeros(n - 1) + digits;
      StripLeading(neg, n - 1, digits, point - 1);
    } else {
      assert s == digits;
    }
  }

  /** A negative zero is printed without its sign, so it is not read back. */
  function Unsigned(d: Decimal): (r: Decimal)
    ensures Normal(d) ==> Normal(r)
  {
    if d.digits == [] then d.(neg := false) else d
  }

  lemma WholeReadsBack(neg: bool, digits: seq<Digit>, point: int)
    requires digits != [] && digits[0] != 0
    requires |digits| <= point <= 21
    ensures ValueOf(LiteralOf(neg, digits, point)) == Normalise(neg, digits, point)
  {
    var l := LiteralOf(neg, digits, point);
    assert l.whole + l.fraction == digits + Zeros(point - |digits|);
    StripTrailing(neg, digits, point - |digits|, point);
  }

  lemma FractionReadsBack(neg: bool, digits: seq<Digit>, point: int)
    requires digits != [] && digits[0] != 0
    requires 0 < point <= 21 && point < |digits|
    ensures ValueOf(LiteralOf(neg, digits, point)) == Normalise(neg, digits, point)
  {
    var l := LiteralOf(neg, digits, point);
    assert l.whole + l.fraction == digits;
  }

  lemma SmallReadsBack(neg: bool, digits: seq<Digit>, point: int)
    requires digits != [] && digits[0] != 0
    requires -6 < point <= 0
    ensures ValueOf(LiteralOf(neg, digits, point)) == Normalise(neg, digits, point)
  {
    var l := LiteralOf(neg, digits, point);
    assert l.whole + l.fraction == Zeros(1 - point) + digits;
    StripLeading(neg, 1 - point, digits, 1);
  }

  lemma ScientificReadsBack(neg: bool, digits: seq<Digit>, point: int)
    requires digits != [] && digits[0] != 0
    requires point <= -6 || 21 < point
    ensures ValueOf(LiteralOf(neg, digits, point)) == Normalise(neg, digits, point)
  {
    var l := LiteralOf(neg, digits, point);
    DigitsReadBack(if point - 1 < 0 then 1 - point else point - 1);
    assert l.whole + l.fraction == digits;
    assert ExponentOf(l.exponent) == point - 1;
  }

  /** A number that is printed reads back as itself, up to the sign of a zero. */
  lemma LayoutReadsBack(d: Decimal)
    requires Normal(d)
    ensures ValueOf(LayoutOf(d)) == Unsigned(d)
  {
    if d.digits == [] {
      var l := LayoutOf(d);
      assert l.whole + l.fraction == [0];
      assert [0][1..] == [];
    } else {
      if |d.digits| <= d.point <= 21 {
        WholeReadsBack(d.neg, d.digits, d.point);
      } else if 0 < d.point <= 21 {
        FractionReadsBack(d.neg, d.digits, d.point);
      } else if -6 < d.point <= 0 {
        SmallReadsBack(d.neg, d.digits, d.point);
      } else {
        ScientificReadsBack(d.neg, d.digits, d.point);
      }
    }
  }
}
