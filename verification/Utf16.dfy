/** Strings as JavaScript holds them: sequences of 16-bit code units, in which a surrogate half may stand alone. */
module Utf16 {

  type Unit = u: int | 0 <= u < 0x10000

  type Text = seq<Unit>

  const REPLACEMENT: Unit := 0xFFFD

  predicate IsHigh(u: Unit) {
    0xD800 <= u < 0xDC00
  }

  predicate IsLow(u: Unit) {
    0xDC00 <= u < 0xE000
  }

  predicate IsHalf(u: Unit) {
    0xD800 <= u < 0xE000
  }

  /** Whether position k holds a surrogate half with no partner. */
  predicate LoneAt(s: Text, k: nat)
    requires k < |s|
  {
    || (IsHigh(s[k]) && !(k + 1 < |s| && IsLow(s[k + 1])))
    || (IsLow(s[k]) && !(0 < k && IsHigh(s[k - 1])))
  }

  /** The strings a Rust `String` can hold. */
  predicate WellFormed(s: Text) {
    forall k :: 0 <= k < |s| ==> !LoneAt(s, k)
  }

  /** `String::from_utf16_lossy`: every half with no partner reads as U+FFFD. */
  function Lossy(s: Text): (r: Text)
    ensures |r| == |s|
  {
    LossyTo(s, |s|)
  }

  function LossyTo(s: Text, n: nat): (r: Text)
    requires n <= |s|
    ensures |r| == n
  {
    if n == 0 then [] else LossyTo(s, n - 1) + [if LoneAt(s, n - 1) then REPLACEMENT else s[n - 1]]
  }

  lemma {:induction false} LossyToAt(s: Text, n: nat, k: nat)
    requires k < n <= |s|
    ensures LossyTo(s, n)[k] == if LoneAt(s, k) then REPLACEMENT else s[k]
  {
    if k < n - 1 {
      LossyToAt(s, n - 1, k);
    }
  }

  lemma LossyAt(s: Text)
    ensures forall k :: 0 <= k < |s| ==> Lossy(s)[k] == if LoneAt(s, k) then REPLACEMENT else s[k]
  {
    forall k | 0 <= k < |s|
      ensures Lossy(s)[k] == if LoneAt(s, k) then REPLACEMENT else s[k]
    {
      LossyToAt(s, |s|, k);
    }
  }

  /** No pair is cut in two between a and b. */
  predicate Splits(a: Text, b: Text) {
    a == [] || b == [] || !IsHigh(a[|a| - 1]) || !IsLow(b[0])
  }

  lemma LoneInConcat(a: Text, b: Text, k: nat)
    requires Splits(a, b)
    requires k < |a| + |b|
    ensures LoneAt(a + b, k) == if k < |a| then LoneAt(a, k) else LoneAt(b, k - |a|)
  {
    var s := a + b;
    if k < |a| {
      assert s[k] == a[k];
      if k + 1 < |a| {
        assert s[k + 1] == a[k + 1];
      }
      if 0 < k {
        assert s[k - 1] == a[k - 1];
      }
    } else {
      assert s[k] == b[k - |a|];
      if k + 1 < |s| {
        assert s[k + 1] == b[k + 1 - |a|];
      }
      if |a| < k {
        assert s[k - 1] == b[k - 1 - |a|];
      }
    }
  }

  /** A cut that splits no pair splits well-formedness and the lossy reading. */
  lemma ConcatReads(a: Text, b: Text)
    requires Splits(a, b)
    ensures WellFormed(a + b) <==> WellFormed(a) && WellFormed(b)
    ensures Lossy(a + b) == Lossy(a) + Lossy(b)
  {
    forall k: nat | k < |a| + |b|
      ensures LoneAt(a + b, k) == if k < |a| then LoneAt(a, k) else LoneAt(b, k - |a|)
    {
      LoneInConcat(a, b, k);
    }
    assert Lossy(a + b) == Lossy(a) + Lossy(b) by {
      LossyAt(a);
      LossyAt(b);
      LossyAt(a + b);
    }
    if WellFormed(a + b) {
      forall k | 0 <= k < |a| ensures !LoneAt(a, k) {
        assert !LoneAt(a + b, k);
      }
      forall k | 0 <= k < |b| ensures !LoneAt(b, k) {
        assert !LoneAt(a + b, k + |a|);
      }
    }
  }

  /** Reading lossily leaves a well-formed string, which reads as itself. */
  lemma LossyIsWellFormed(s: Text)
    ensures WellFormed(Lossy(s))
    ensures WellFormed(s) ==> Lossy(s) == s
    ensures Lossy(Lossy(s)) == Lossy(s)
  {
    var r := Lossy(s);
    forall k | 0 <= k < |r|
      ensures !LoneAt(r, k)
    {
      ReadIsWhole(s, k);
    }
    ReadsAsItself(s);
    ReadsAsItself(r);
  }

  lemma ReadIsWhole(s: Text, k: nat)
    requires k < |s|
    ensures !LoneAt(Lossy(s), k)
  {
    LossyToAt(s, |s|, k);
    if IsHigh(s[k]) && !LoneAt(s, k) {
      LossyToAt(s, |s|, k + 1);
    }
    if IsLow(s[k]) && !LoneAt(s, k) {
      LossyToAt(s, |s|, k - 1);
    }
  }

  lemma ReadsAsItself(s: Text)
    ensures WellFormed(s) ==> Lossy(s) == s
  {
    if WellFormed(s) {
      forall k | 0 <= k < |s|
        ensures Lossy(s)[k] == s[k]
      {
        LossyToAt(s, |s|, k);
        assert !LoneAt(s, k);
      }
    }
  }

  /** A piece of a well-formed string that starts at a character and ends before one is well-formed. */
  lemma SliceIsWellFormed(s: Text, lo: nat, hi: nat)
    requires WellFormed(s)
    requires lo <= hi <= |s|
    requires lo == hi || !IsLow(s[lo])
    requires hi == |s| || !IsLow(s[hi])
    ensures WellFormed(s[lo..hi])
  {
    var r := s[lo..hi];
    forall k | 0 <= k < |r|
      ensures !LoneAt(r, k)
    {
      assert !LoneAt(s, lo + k);
    }
  }

  lemma AsciiIsWellFormed(s: Text)
    requires forall k :: 0 <= k < |s| ==> !IsHalf(s[k])
    ensures WellFormed(s)
  {
  }
}
