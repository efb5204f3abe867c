/** JavaScript's numbers, as far as natural numbers go: how one is read from its digits, counted up by one, and printed. */
module JsNumber {
  import opened Utf16
  import D = Decimal

  /** 2^53: up to there every natural number is a double. */
  const EXACT: nat := 0x20_0000_0000_0000

  /** How far apart the doubles are that lie around a number: one, and twice as much from each power of two on. */
  function Spacing(n: nat): (s: nat)
    ensures s >= 1
  {
    if n < EXACT then 1 else 2 * Spacing(n / 2)
  }

  /** The greatest multiple of a number that is not above another. */
  function Floor(x: nat, unit: nat): (r: nat)
    requires unit >= 1
    ensures r <= x < r + unit
  {
    if x < unit then 0 else unit + Floor(x - unit, unit)
  }

  /** The double that a number is read as: the nearest, and of two the even one. */
  function Nearest(n: nat): nat {
    var s := Spacing(n);
    var below := Floor(n, s);
    if 2 * (n - below) < s || (2 * (n - below) == s && below == Floor(n, 2 * s)) then below else below + s
  }

  predicate IsDouble(x: nat) {
    Nearest(x) == x
  }

  function PlusOne(x: nat): nat {
    Nearest(x + 1)
  }

  // ---- what is printed ----

  /** The nearer of two multiples of a power of ten that stand for a double. */
  function Nearer(x: nat, below: nat, unit: nat): nat
    requires below <= x && unit >= 1
  {
    var above := below + unit;
    if x - below < above - x || (x - below == above - x && below == Floor(x, 2 * unit)) then below else above
  }

  /** The number of fewest digits, at most so many zeros behind them, that is read as this double, and of those the nearest. */
  function Shortest(x: nat, zeros: nat): nat {
    if zeros == 0 then x
    else
      var unit := D.Power(zeros);
      var below := Floor(x, unit);
      if Nearest(below) == x && Nearest(below + unit) == x then Nearer(x, below, unit)
      else if Nearest(below) == x then below
      else if Nearest(below + unit) == x then below + unit
      else Shortest(x, zeros - 1)
  }

  /** The digits that a double is printed with. */
  function Shown(x: nat): nat {
    if x <= EXACT then x else Shortest(x, |D.DigitsOf(x)|)
  }

  function DecimalOf(n: nat): D.Decimal {
    D.Normalise(false, D.DigitsOf(n), |D.DigitsOf(n)|)
  }

  /** How many binary digits a number has: with more than 1024 it is read as Infinity. */
  function Bits(x: nat): nat {
    if x == 0 then 0 else 1 + Bits(x / 2)
  }

  const MAX_BITS: nat := 1024

  /** The text "Infinity". */
  const INFINITY: Utf16.Text := [0x49, 0x6E, 0x66, 0x69, 0x6E, 0x69, 0x74, 0x79]

  /** `String(x)`. */
  function TextOf(x: nat): Utf16.Text {
    if Bits(x) > MAX_BITS then INFINITY else D.NumberText(DecimalOf(Shown(x)))
  }

  // ---- doubles ----

  function Pow2(e: nat): (r: nat)
    ensures r >= 1
  {
    if e == 0 then 1 else 2 * Pow2(e - 1)
  }

  lemma {:induction false} SpacingIs(n: nat, e: nat)
    requires e >= 1 && EXACT / 2 * Pow2(e) <= n < EXACT * Pow2(e)
    ensures Spacing(n) == Pow2(e)
    decreases e
  {
    if e == 1 {
      assert Pow2(0) == 1 && n / 2 < EXACT;
    } else {
      SpacingIs(n / 2, e - 1);
    }
  }

  lemma {:induction false} HasSpacing(n: nat) returns (e: nat)
    requires n >= EXACT
    ensures e >= 1 && Spacing(n) == Pow2(e) && EXACT / 2 * Pow2(e) <= n < EXACT * Pow2(e)
    decreases n
  {
    if n / 2 < EXACT {
      e := 1;
      assert Pow2(0) == 1;
    } else {
      var d := HasSpacing(n / 2);
      e := d + 1;
    }
  }

  lemma Apart(k: int, s: nat)
    requires k != 0
    ensures k * s >= s || k * s + s <= 0
  {
  }

  lemma {:induction false} FloorIs(n: nat, s: nat, q: nat, r: nat)
    requires r < s && n == q * s + r
    ensures Floor(n, s) == q * s
    decreases q
  {
    if q > 0 {
      assert n - s == (q - 1) * s + r;
      FloorIs(n - s, s, q - 1, r);
    }
  }

  lemma Doubled(h: nat, s: nat)
    ensures h * (2 * s) == 2 * h * s
    ensures (2 * h + 1) * s == 2 * h * s + s
  {
  }

  /** The multiple below is one of twice the unit as well exactly when it is an even one. */
  lemma FloorTwice(n: nat, s: nat, h: nat, odd: bool, r: nat)
    requires r < s && n == 2 * h * s + (if odd then s else 0) + r
    ensures Floor(n, 2 * s) == 2 * h * s
  {
    Doubled(h, s);
    FloorIs(n, 2 * s, h, if odd then s + r else r);
  }

  /** A number between two multiples of the spacing: which of them it is read as. */
  lemma Between(n: nat, q: nat, r: nat)
    requires r < Spacing(n) && n == q * Spacing(n) + r
    ensures var s := Spacing(n); Nearest(n) == if 2 * r < s || (2 * r == s && q % 2 == 0) then q * s else (q + 1) * s
  {
    FloorIs(n, Spacing(n), q, r);
    var h, odd := q / 2, q % 2 == 1;
    assert q == if odd then 2 * h + 1 else 2 * h;
    Doubled(h, Spacing(n));
    FloorTwice(n, Spacing(n), h, odd, r);
  }

  /** A multiple of its spacing is a double. */
  lemma OnTheGrid(x: nat, q: nat)
    requires x == q * Spacing(x)
    ensures IsDouble(x)
  {
    Between(x, q, 0);
  }

  lemma SmallIsDouble(n: nat)
    requires n <= EXACT
    ensures IsDouble(n)
  {
    OnTheGrid(n, if n < EXACT then n else n / 2);
  }

  lemma Quotient(n: nat, s: nat, least: nat, most: nat) returns (q: nat, r: nat)
    requires s >= 1 && least * s <= n < most * s
    ensures n == q * s + r && r < s && least <= q < most
  {
    q, r := n / s, n % s;
    assert n == q * s + r;
    assert (least - q) * s == least * s - q * s && (q - most) * s == q * s - most * s;
    if q < least {
      Apart(least - q, s);
    }
    if q > most {
      Apart(q - most, s);
    }
  }

  lemma NearestIsDouble(n: nat)
    ensures IsDouble(Nearest(n))
  {
    if n < EXACT {
      SmallIsDouble(n);
    } else {
      var e := HasSpacing(n);
      var s := Spacing(n);
      var q, r := Quotient(n, s, EXACT / 2, EXACT);
      Between(n, q, r);
      GridIsDouble(q, e);
      GridIsDouble(q + 1, e);
    }
  }

  lemma GridIsDouble(q: nat, e: nat)
    requires e >= 1 && EXACT / 2 <= q <= EXACT
    ensures IsDouble(q * Pow2(e))
  {
    if q < EXACT {
      Scaled(EXACT / 2, q, EXACT, Pow2(e));
      SpacingIs(q * Pow2(e), e);
      OnTheGrid(q * Pow2(e), q);
    } else {
      NextPowerIsDouble(e);
    }
  }

  lemma NextPowerIsDouble(e: nat)
    ensures IsDouble(EXACT * Pow2(e))
  {
    var s := Pow2(e);
    assert Pow2(e + 1) == 2 * s;
    SpacingIs(EXACT * s, e + 1);
    OnTheGrid(EXACT * s, EXACT / 2);
  }

  lemma Scaled(a: nat, q: nat, b: nat, s: nat)
    requires a <= q < b && s >= 1
    ensures a * s <= q * s < b * s
  {
    assert q * s - a * s == (q - a) * s;
    assert b * s - q * s == (b - q) * s;
    Apart(b - q, s);
  }

  // ---- counting up ----

  /** Whether one more than a double is a greater double. */
  predicate Grows(x: nat) {
    x < EXACT || (x < 2 * EXACT && x % 4 == 2)
  }

  lemma OnWhichGrid(x: nat) returns (q: nat, e: nat)
    requires IsDouble(x) && x >= EXACT
    ensures e >= 1 && EXACT / 2 <= q < EXACT && x == q * Pow2(e) && x + 1 < EXACT * Pow2(e)
  {
    e := HasSpacing(x);
    var s, r := Spacing(x), 0;
    q, r := Quotient(x, s, EXACT / 2, EXACT);
    Between(x, q, r);
    Multiple(x, q, r, s);
    assert (EXACT - q) * s == EXACT * s - q * s;
    Apart(EXACT - q, s);
  }

  lemma OneAbove(x: nat, q: nat, e: nat)
    requires e >= 1 && EXACT / 2 <= q < EXACT && x == q * Pow2(e) && x + 1 < EXACT * Pow2(e)
    ensures Nearest(x + 1) == if e == 1 && q % 2 == 1 then x + 2 else x
  {
    Scaled(EXACT / 2, q, EXACT, Pow2(e));
    SpacingIs(x + 1, e);
    OneOfTwo(x, q, e, Pow2(e));
    assert 1 < Spacing(x + 1);
    Between(x + 1, q, 1);
  }

  lemma Parity(x: nat, q: nat)
    requires x == 2 * q
    ensures x % 4 == 2 <==> q % 2 == 1
  {
    assert q == q / 2 * 2 + q % 2;
  }

  lemma LargeGrows(x: nat, q: nat, e: nat, up: nat)
    requires e >= 1 && EXACT / 2 <= q < EXACT && x == q * Pow2(e) && up == if e == 1 && q % 2 == 1 then x + 2 else x
    ensures up >= x && x >= EXACT
    ensures up > x <==> Grows(x)
  {
    OneOfTwo(x, q, e, Pow2(e));
    if e == 1 {
      Parity(x, q);
    }
  }

  /** It is below 2^53, and from there to 2^54 for every second double; beyond it never is. */
  lemma PlusOneGrows(x: nat)
    requires IsDouble(x)
    ensures PlusOne(x) >= x
    ensures PlusOne(x) > x <==> Grows(x)
  {
    if x < EXACT {
      SmallIsDouble(x + 1);
    } else {
      var q, e := OnWhichGrid(x);
      OneAbove(x, q, e);
      LargeGrows(x, q, e, PlusOne(x));
    }
  }

  lemma Multiple(x: nat, q: nat, r: nat, s: nat)
    requires x == q * s + r && r < s && (x == q * s || x == (q + 1) * s)
    ensures r == 0
  {
  }

  lemma OneOfTwo(x: nat, q: nat, e: nat, s: nat)
    requires e >= 1 && s == Pow2(e) && x == q * s && EXACT / 2 <= q < EXACT
    ensures if e == 1 then s == 2 && x == 2 * q && x < 2 * EXACT else s >= 4 && x >= 2 * EXACT
  {
    assert Pow2(e) == 2 * Pow2(e - 1);
    if e > 1 {
      assert Pow2(e - 1) == 2 * Pow2(e - 2);
      Scaled(EXACT / 2, q, EXACT, s);
    }
  }

  // ---- printing ----

  lemma {:induction false} ShortestIsRead(x: nat, zeros: nat)
    requires IsDouble(x)
    ensures Nearest(Shortest(x, zeros)) == x
  {
    if zeros > 0 {
      ShortestIsRead(x, zeros - 1);
      ShortestIs(x, zeros);
    }
  }

  lemma ShortestIs(x: nat, zeros: nat)
    requires zeros > 0
    ensures Shortest(x, zeros) == Shortest(x, zeros - 1) || Nearest(Shortest(x, zeros)) == x
  {
  }

  /** What is shown of a double is read as that double. */
  lemma ShownIsRead(x: nat)
    requires IsDouble(x)
    ensures Nearest(Shown(x)) == x
  {
    ShortestIsRead(x, |D.DigitsOf(x)|);
  }

  /** Dropping the zeros at the end leaves where the number ends. */
  lemma {:induction false} Stripped(ds: seq<D.Digit>, point: int)
    requires ds != [] && ds[0] != 0
    ensures var d := D.Normalise(false, ds, point);
            && d.digits != [] && d.point == point && !d.neg && |d.digits| <= |ds|
            && ds == d.digits + D.Zeros(|ds| - |d.digits|)
  {
    var n := |ds| - 1;
    if ds[n] == 0 {
      Stripped(ds[..n], point);
      var d := D.Normalise(false, ds, point);
      assert ds == ds[..n] + [0];
      assert D.Zeros(n - |d.digits|) + [0] == D.Zeros(n + 1 - |d.digits|);
      assert d.digits + D.Zeros(n - |d.digits|) + [0] == d.digits + (D.Zeros(n - |d.digits|) + [0]);
    } else {
      assert ds + D.Zeros(0) == ds;
    }
  }

  lemma {:induction false} LeadingDigit(n: nat)
    requires n > 0
    ensures D.DigitsOf(n)[0] != 0
  {
    if n >= 10 {
      LeadingDigit(n / 10);
    }
  }

  lemma {:induction false} DigitsExceed(n: nat, w: nat)
    requires n >= D.Power(w)
    ensures |D.DigitsOf(n)| > w
  {
    if w > 0 {
      DigitsExceed(n / 10, w - 1);
    }
  }

  const PLAIN_DIGITS: nat := 21

  /** Whether a double is printed as digits alone. */
  predicate Plain(x: nat) {
    Bits(x) <= MAX_BITS && Shown(x) < D.Power(PLAIN_DIGITS)
  }

  /** Up to 21 digits a number is printed in full. */
  lemma TextIsDigits(n: nat)
    requires n < D.Power(PLAIN_DIGITS)
    ensures D.NumberText(DecimalOf(n)) == D.DigitText(D.DigitsOf(n))
  {
    var ds := D.DigitsOf(n);
    if n == 0 {
      assert ds[1..] == [];
    } else {
      LeadingDigit(n);
      D.DigitsFit(n, PLAIN_DIGITS);
      Stripped(ds, |ds|);
      var d := DecimalOf(n);
      D.DigitTextConcat(d.digits, D.Zeros(|ds| - |d.digits|));
      assert [] + D.DigitText(ds) == D.DigitText(ds);
    }
  }

  /** A longer one with an exponent. */
  lemma TextHasExponent(n: nat)
    requires n >= D.Power(PLAIN_DIGITS)
    ensures D.LOWER_E in D.NumberText(DecimalOf(n))
  {
    var ds := D.DigitsOf(n);
    assert n > 0;
    LeadingDigit(n);
    DigitsExceed(n, PLAIN_DIGITS);
    Stripped(ds, |ds|);
    ScientificHasExponent(DecimalOf(n).digits, |ds|);
  }

  lemma ScientificHasExponent(digits: seq<D.Digit>, point: int)
    requires digits != [] && point > PLAIN_DIGITS
    ensures D.LOWER_E in D.SignText(false) + D.Layout(digits, point)
  {
    var rest := digits[1..];
    var head := [D.ZERO + digits[0]] + (if rest == [] then [] else [D.DOT] + D.DigitText(rest));
    var text := D.Layout(digits, point);
    assert point > |digits| || point > 21;
    assert text[|head|] == D.LOWER_E;
  }

  lemma {:induction false} BitsFit(x: nat, e: nat)
    requires x < Pow2(e)
    ensures Bits(x) <= e
    decreases e
  {
    if x > 0 {
      BitsFit(x / 2, e - 1);
    }
  }

  lemma {:induction false} BinaryExceeds(e: nat, d: nat)
    ensures Pow2(e + d) == Pow2(e) * Pow2(d)
    decreases d
  {
    if d > 0 {
      BinaryExceeds(e, d - 1);
      assert Pow2(e + d) == 2 * Pow2(e + d - 1);
    }
  }

  lemma ExactFits()
    ensures EXACT < Pow2(54)
    ensures EXACT < D.Power(PLAIN_DIGITS)
  {
    assert Pow2(9) == 512;
    BinaryExceeds(9, 9);
    BinaryExceeds(18, 9);
    BinaryExceeds(27, 27);
    assert D.Power(7) == 10000000;
    DecimalExceeds(7, 7);
    DecimalExceeds(14, 7);
  }

  lemma {:induction false} DecimalExceeds(e: nat, d: nat)
    ensures D.Power(e + d) == D.Power(e) * D.Power(d)
    decreases d
  {
    if d > 0 {
      DecimalExceeds(e, d - 1);
      assert D.Power(e + d) == 10 * D.Power(e + d - 1);
    }
  }

  /** Up to 2^53 a number is read, printed and read again as it is. */
  lemma ExactIsPlain(n: nat)
    requires n <= EXACT
    ensures IsDouble(n) && Shown(n) == n && Plain(n)
  {
    SmallIsDouble(n);
    ExactFits();
    BitsFit(n, 54);
  }

  /** And counted up, until it is 2^53. */
  lemma ExactCounts(n: nat)
    requires n <= EXACT
    ensures PlusOne(n) == if n < EXACT then n + 1 else n
  {
    if n < EXACT {
      SmallIsDouble(n + 1);
    } else {
      EndCounts(n, EXACT / 4);
    }
  }

  lemma EndCounts(n: nat, h: nat)
    requires n == 4 * h && EXACT <= n < 2 * EXACT
    ensures PlusOne(n) == n
  {
    assert Pow2(1) == 2;
    SpacingIs(n, 1);
    OnTheGrid(n, 2 * h);
    PlusOneGrows(n);
  }

  /** The double of the number above 2^53 is 2^53. */
  lemma FirstInexact(n: nat)
    requires n == EXACT + 1
    ensures Nearest(n) == EXACT
  {
    ExactCounts(n - 1);
  }

  predicate IsDigit(u: Unit) {
    D.ZERO <= u <= D.ZERO + 9
  }

  lemma {:induction false} OnlyDigits(ds: seq<D.Digit>)
    ensures forall k :: 0 <= k < |ds| ==> IsDigit(D.DigitText(ds)[k])
  {
  }

  /** A double is printed as digits alone, those of what is shown of it, or with a unit in it that no version has. */
  lemma TextIs(x: nat)
    ensures Plain(x) ==> TextOf(x) == D.DigitText(D.DigitsOf(Shown(x)))
    ensures !Plain(x) ==> exists k :: 0 <= k < |TextOf(x)| && !IsDigit(TextOf(x)[k]) && TextOf(x)[k] != D.DOT
  {
    if Plain(x) {
      TextIsDigits(Shown(x));
    } else if Bits(x) > MAX_BITS {
      assert TextOf(x)[0] == 0x49;
    } else {
      TextHasExponent(Shown(x));
      var k :| 0 <= k < |TextOf(x)| && TextOf(x)[k] == D.LOWER_E;
    }
  }
}
