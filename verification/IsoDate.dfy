/** `iso`: the text of a millisecond timestamp, and a reading of it. */
module IsoDate {
  import opened Date
  import D = Decimal

  /** The fields of a timestamp in the order of its text. */
  datatype Fields = Fields(date: Civil, hour: nat, minute: nat, second: nat, milli: nat)

  function FieldsOf(ms: int): Fields {
    var inDay := ms % MS_PER_DAY;
    Fields(CivilFromDays(ms / MS_PER_DAY), inDay / 3600000, inDay / 60000 % 60, inDay / 1000 % 60, inDay % 1000)
  }

  function Timestamp(f: Fields): int {
    DaysFromCivil(f.date) * MS_PER_DAY + f.hour * 3600000 + f.minute * 60000 + f.second * 1000 + f.milli
  }

  lemma TimeOfDay(inDay: nat)
    requires inDay < MS_PER_DAY
    ensures inDay / 3600000 < 24
    ensures inDay / 3600000 * 3600000 + inDay / 60000 % 60 * 60000 + inDay / 1000 % 60 * 1000 + inDay % 1000 == inDay
  {
    var h := inDay / 3600000;
    var m := inDay / 60000;
    var s := inDay / 1000;
    assert m / 60 == h;
    assert s / 60 == m;
  }

  /** The fields are those of a clock and a calendar, and they make up the timestamp again. */
  lemma FieldsRecompose(ms: int)
    ensures var f := FieldsOf(ms);
            Valid(f.date) && f.hour < 24 && f.minute < 60 && f.second < 60 && f.milli < 1000 && Timestamp(f) == ms
  {
    DaysAreDates(ms / MS_PER_DAY);
    TimeOfDay(ms % MS_PER_DAY);
  }

  // ---- the text ----

  function DigitChar(n: nat): char
    requires n < 10
  {
    "0123456789"[n]
  }

  predicate IsDigit(c: char) {
    '0' <= c <= '9'
  }

  predicate AllDigits(t: string) {
    forall k :: 0 <= k < |t| ==> IsDigit(t[k])
  }

  function Chars(ds: seq<D.Digit>): (r: string)
    ensures |r| == |ds| && AllDigits(r)
  {
    if ds == [] then [] else Chars(ds[..|ds| - 1]) + [DigitChar(ds[|ds| - 1])]
  }

  function DigitsText(n: nat): (r: string)
    ensures r != [] && AllDigits(r)
  {
    Chars(D.DigitsOf(n))
  }

  function Zeros(n: nat): (r: string)
    ensures |r| == n && AllDigits(r)
  {
    if n == 0 then [] else ['0'] + Zeros(n - 1)
  }

  function Widened(digits: string, width: nat): string {
    if |digits| < width then Zeros(width - |digits|) + digits else digits
  }

  /** A number with zeros in front, at least so wide. */
  function Pad(n: nat, width: nat): (r: string)
    ensures AllDigits(r) && |r| >= width && r != []
  {
    Widened(DigitsText(n), width)
  }

  function DigitValue(c: char): nat
    requires IsDigit(c)
  {
    (c as int - '0' as int) as nat
  }

  function Number(t: string): nat
    requires AllDigits(t)
  {
    if t == [] then 0 else 10 * Number(t[..|t| - 1]) + DigitValue(t[|t| - 1])
  }

  lemma DigitStands(d: nat)
    requires d < 10
    ensures DigitValue(DigitChar(d)) == d
  {
  }

  lemma NumberSnoc(t: string, c: char)
    requires AllDigits(t) && IsDigit(c)
    ensures Number(t + [c]) == 10 * Number(t) + DigitValue(c)
  {
    assert (t + [c])[..|t|] == t;
  }

  lemma {:induction false} CharsAreNumber(ds: seq<D.Digit>)
    ensures Number(Chars(ds)) == D.NatOf(ds)
  {
    if ds != [] {
      CharsAreNumber(ds[..|ds| - 1]);
      DigitStands(ds[|ds| - 1]);
      NumberSnoc(Chars(ds[..|ds| - 1]), DigitChar(ds[|ds| - 1]));
    }
  }

  lemma {:induction false} ZerosDoNotCount(n: nat, t: string)
    requires AllDigits(t)
    ensures Number(Zeros(n) + t) == Number(t)
    decreases |t|, n
  {
    if t == [] {
      assert Zeros(n) + t == Zeros(n);
      ZerosAreNothing(n);
    } else {
      var init := t[..|t| - 1];
      ZerosDoNotCount(n, init);
      assert (Zeros(n) + t)[..|Zeros(n) + t| - 1] == Zeros(n) + init;
    }
  }

  lemma {:induction false} ZerosAreNothing(n: nat)
    ensures Number(Zeros(n)) == 0
    ensures n > 0 ==> Zeros(n) == Zeros(n - 1) + ['0']
  {
    if n > 0 {
      ZerosAreNothing(n - 1);
      if n > 1 {
        assert Zeros(n) == ['0'] + (Zeros(n - 2) + ['0']);
        assert Zeros(n) == (['0'] + Zeros(n - 2)) + ['0'];
      }
      assert Zeros(n)[..n - 1] == Zeros(n - 1);
    }
  }

  lemma WideningDoesNotCount(digits: string, width: nat)
    requires AllDigits(digits)
    ensures AllDigits(Widened(digits, width)) && Number(Widened(digits, width)) == Number(digits)
  {
    if |digits| < width {
      ZerosDoNotCount(width - |digits|, digits);
    }
  }

  lemma PadReadsBack(n: nat, width: nat)
    ensures Number(Pad(n, width)) == n
  {
    WideningDoesNotCount(DigitsText(n), width);
    CharsAreNumber(D.DigitsOf(n));
    D.DigitsReadBack(n);
  }

  lemma PadFits(n: nat, w: nat)
    requires n < D.Power(w) && w > 0
    ensures |Pad(n, w)| == w
  {
    D.DigitsFit(n, w);
  }

  function YearText(year: int): string {
    if 0 <= year <= 9999 then Pad(year, 4) else if year > 0 then "+" + Pad(year, 6) else "-" + Pad(-year, 6)
  }

  /** What stands behind the year, always so long. */
  const BEHIND: nat := 20

  function Part(t: string, separator: char, n: int, width: nat): string {
    t + [separator] + Pad(if n < 0 then 0 else n, width)
  }

  function DateText(date: Civil): string {
    Part(Part(YearText(date.year), '-', date.month, 2), '-', date.day, 2)
  }

  function TimeText(t: string, f: Fields): string {
    Part(Part(Part(Part(t, 'T', f.hour, 2), ':', f.minute, 2), ':', f.second, 2), '.', f.milli, 3) + "Z"
  }

  function Iso(ms: int): string {
    TimeText(DateText(FieldsOf(ms).date), FieldsOf(ms))
  }

  /** A sign and digits, or digits. */
  function ReadYear(t: string): int
    requires t != [] && AllDigits(t[1..]) && (IsDigit(t[0]) || t[0] == '+' || t[0] == '-')
  {
    if t[0] == '+' then Number(t[1..])
    else if t[0] == '-' then -(Number(t[1..]) as int)
    else
      assert AllDigits(t) by { assert forall k :: 1 <= k < |t| ==> t[k] == t[1..][k - 1]; }
      Number(t)
  }

  lemma YearReadsBack(year: int)
    ensures var t := YearText(year);
            t != [] && AllDigits(t[1..]) && (IsDigit(t[0]) || t[0] == '+' || t[0] == '-') && ReadYear(t) == year
  {
    if 0 <= year <= 9999 {
      PadReadsBack(year, 4);
    } else if year > 0 {
      PadReadsBack(year, 6);
      assert YearText(year)[1..] == Pad(year, 6);
    } else {
      PadReadsBack(-year, 6);
      assert YearText(year)[1..] == Pad(-year, 6);
    }
  }

  /** The digits at a place of the text. */
  predicate FieldAt(t: string, at: nat, width: nat, n: nat) {
    at + width <= |t| && AllDigits(t[at..at + width]) && Number(t[at..at + width]) == n
  }

  lemma FieldStays(t: string, more: string, at: nat, width: nat, n: nat)
    requires FieldAt(t, at, width, n)
    ensures FieldAt(t + more, at, width, n)
  {
    assert (t + more)[at..at + width] == t[at..at + width];
  }

  lemma PartStands(t: string, separator: char, digits: string)
    ensures var more := t + [separator] + digits;
            |more| == |t| + 1 + |digits| && t <= more && more[|t| + 1..|t| + 1 + |digits|] == digits
  {
  }

  lemma PartReads(t: string, separator: char, n: nat, width: nat)
    requires n < D.Power(width) && width > 0
    ensures var more := Part(t, separator, n, width);
            && |more| == |t| + 1 + width && t <= more
            && FieldAt(more, |t| + 1, width, n)
  {
    PadFits(n, width);
    PadReadsBack(n, width);
    PartStands(t, separator, Pad(n, width));
  }

  lemma FieldKept(t: string, longer: string, at: nat, width: nat, n: nat)
    requires FieldAt(t, at, width, n) && t <= longer
    ensures FieldAt(longer, at, width, n)
  {
    assert longer == t + longer[|t|..];
    FieldStays(t, longer[|t|..], at, width, n);
  }

  /** What a text of that form says. */
  predicate Says(t: string, f: Fields) {
    && |t| > BEHIND
    && var at := |t| - BEHIND;
    && AllDigits(t[1..at]) && (IsDigit(t[0]) || t[0] == '+' || t[0] == '-') && ReadYear(t[..at]) == f.date.year
    && f.date.month >= 0 && f.date.day >= 0
    && FieldAt(t, at + 1, 2, f.date.month) && FieldAt(t, at + 4, 2, f.date.day)
    && FieldAt(t, at + 7, 2, f.hour) && FieldAt(t, at + 10, 2, f.minute) && FieldAt(t, at + 13, 2, f.second)
    && FieldAt(t, at + 16, 3, f.milli)
  }

  lemma DateSays(date: Civil)
    requires 0 <= date.month < 100 && 0 <= date.day < 100
    ensures var year := YearText(date.year);
            var t := DateText(date);
            |t| == |year| + 6 && year <= t && FieldAt(t, |year| + 1, 2, date.month) && FieldAt(t, |year| + 4, 2, date.day)
  {
    assert D.Power(2) == 100;
    var month := Part(YearText(date.year), '-', date.month, 2);
    PartReads(YearText(date.year), '-', date.month, 2);
    PartReads(month, '-', date.day, 2);
    FieldKept(month, DateText(date), |YearText(date.year)| + 1, 2, date.month);
  }

  lemma ClockSays(t: string, f: Fields)
    requires f.hour < 100 && f.minute < 100
    ensures var u := Part(Part(t, 'T', f.hour, 2), ':', f.minute, 2);
            |u| == |t| + 6 && t <= u && FieldAt(u, |t| + 1, 2, f.hour) && FieldAt(u, |t| + 4, 2, f.minute)
  {
    assert D.Power(2) == 100;
    var hour := Part(t, 'T', f.hour, 2);
    PartReads(t, 'T', f.hour, 2);
    PartReads(hour, ':', f.minute, 2);
    FieldKept(hour, Part(hour, ':', f.minute, 2), |t| + 1, 2, f.hour);
  }

  lemma SecondsSay(t: string, f: Fields)
    requires f.second < 100 && f.milli < 1000
    ensures var u := Part(Part(t, ':', f.second, 2), '.', f.milli, 3) + "Z";
            |u| == |t| + 8 && t <= u && FieldAt(u, |t| + 1, 2, f.second) && FieldAt(u, |t| + 4, 3, f.milli)
  {
    assert D.Power(2) == 100 && D.Power(3) == 1000;
    var second := Part(t, ':', f.second, 2);
    var milli := Part(second, '.', f.milli, 3);
    PartReads(t, ':', f.second, 2);
    PartReads(second, '.', f.milli, 3);
    FieldKept(second, milli + "Z", |t| + 1, 2, f.second);
    FieldKept(milli, milli + "Z", |t| + 4, 3, f.milli);
  }

  lemma PrefixChain(a: string, b: string, c: string)
    requires a <= b <= c
    ensures a <= c
  {
  }

  /** The text says the fields. */
  lemma IsoSays(ms: int)
    ensures Says(Iso(ms), FieldsOf(ms))
  {
    var f := FieldsOf(ms);
    FieldsRecompose(ms);
    FieldsSay(f);
  }

  lemma FieldsSay(f: Fields)
    requires 0 <= f.date.month < 100 && 0 <= f.date.day < 100 && f.hour < 100 && f.minute < 100 && f.second < 100 && f.milli < 1000
    ensures Says(TimeText(DateText(f.date), f), f)
  {
    var year, date := YearText(f.date.year), DateText(f.date);
    var clock := Part(Part(date, 'T', f.hour, 2), ':', f.minute, 2);
    var t := TimeText(date, f);
    DateSays(f.date);
    ClockSays(date, f);
    SecondsSay(clock, f);
    YearReadsBack(f.date.year);
    AllSay(f, year, date, clock, t);
  }

  lemma AllSay(f: Fields, year: string, date: string, clock: string, t: string)
    requires year <= date <= clock <= t && |date| == |year| + 6 && |clock| == |date| + 6 && |t| == |clock| + 8
    requires year != [] && AllDigits(year[1..]) && (IsDigit(year[0]) || year[0] == '+' || year[0] == '-') && ReadYear(year) == f.date.year
    requires f.date.month >= 0 && f.date.day >= 0
    requires FieldAt(date, |year| + 1, 2, f.date.month) && FieldAt(date, |year| + 4, 2, f.date.day)
    requires FieldAt(clock, |date| + 1, 2, f.hour) && FieldAt(clock, |date| + 4, 2, f.minute)
    requires FieldAt(t, |clock| + 1, 2, f.second) && FieldAt(t, |clock| + 4, 3, f.milli)
    ensures Says(t, f)
  {
    PrefixChain(date, clock, t);
    PrefixChain(year, date, t);
    FieldKept(date, t, |year| + 1, 2, f.date.month);
    FieldKept(date, t, |year| + 4, 2, f.date.day);
    FieldKept(clock, t, |date| + 1, 2, f.hour);
    FieldKept(clock, t, |date| + 4, 2, f.minute);
    assert t[..|year|] == year;
    assert t[1..|year|] == year[1..] && t[0] == year[0];
  }

  /** A text says one thing only. */
  lemma SaysOneThing(t: string, f: Fields, g: Fields)
    requires Says(t, f) && Says(t, g)
    ensures f == g
  {
  }

  /** Whoever reads the text has the timestamp back. */
  lemma IsoReadsBack(ms: int, f: Fields)
    requires Says(Iso(ms), f)
    ensures Timestamp(f) == ms
  {
    IsoSays(ms);
    SaysOneThing(Iso(ms), f, FieldsOf(ms));
    FieldsRecompose(ms);
  }
}
