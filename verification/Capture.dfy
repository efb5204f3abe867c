/** `Capture`: the first bytes of a child's stream, and where its text ends when the cap fell inside a character. */
module Capture {

  type Octet = b: int | 0 <= b < 256

  type Octets = seq<Octet>

  function Held(stream: Octets, cap: nat): Octets {
    if |stream| <= cap then stream else stream[..cap]
  }

  // ---- UTF-8, section 4 of RFC 3629 ----

  predicate IsTail(b: Octet) {
    0x80 <= b <= 0xBF
  }

  /** One character. */
  predicate IsChar(c: Octets) {
    match |c|
    case 1 => c[0] <= 0x7F
    case 2 => 0xC2 <= c[0] <= 0xDF && IsTail(c[1])
    case 3 =>
      && IsTail(c[1]) && IsTail(c[2])
      && ((c[0] == 0xE0 && 0xA0 <= c[1]) || 0xE1 <= c[0] <= 0xEC || (c[0] == 0xED && c[1] <= 0x9F) || 0xEE <= c[0] <= 0xEF)
    case 4 =>
      && IsTail(c[1]) && IsTail(c[2]) && IsTail(c[3])
      && ((c[0] == 0xF0 && 0x90 <= c[1]) || 0xF1 <= c[0] <= 0xF3 || (c[0] == 0xF4 && c[1] <= 0x8F))
    case _ => false
  }

  predicate AreChars(cs: seq<Octets>) {
    forall k :: 0 <= k < |cs| ==> IsChar(cs[k])
  }

  function Encoded(cs: seq<Octets>): Octets {
    if cs == [] then [] else Encoded(cs[..|cs| - 1]) + cs[|cs| - 1]
  }

  /** How many of the characters fit whole. */
  function Fitting(cs: seq<Octets>, cap: nat): (n: nat)
    ensures n <= |cs|
    ensures |Encoded(cs[..n])| <= cap
  {
    if |Encoded(cs)| <= cap then
      assert cs[..|cs|] == cs;
      |cs|
    else
      var n := Fitting(cs[..|cs| - 1], cap);
      assert cs[..|cs| - 1][..n] == cs[..n];
      n
  }

  // ---- the end of the last whole character ----

  /** The place the walk back from `at` comes to: it passes tails, and no more than the last four bytes. */
  function Lead(bytes: Octets, at: nat): (r: nat)
    requires at < |bytes|
    ensures r <= at
  {
    if at > 0 && |bytes| - at < 4 && IsTail(bytes[at]) then Lead(bytes, at - 1) else at
  }

  function LengthOf(lead: Octet): nat {
    if lead >= 0xF0 then 4 else if lead >= 0xE0 then 3 else if lead >= 0xC0 then 2 else 1
  }

  function CompleteEndOf(bytes: Octets): (r: nat)
    ensures r <= |bytes|
  {
    if bytes == [] then 0
    else
      var lead := Lead(bytes, |bytes| - 1);
      if lead + LengthOf(bytes[lead]) > |bytes| then lead else |bytes|
  }

  lemma CharShape(c: Octets)
    requires IsChar(c)
    ensures 1 <= |c| <= 4 && |c| == LengthOf(c[0]) && !IsTail(c[0])
    ensures forall k :: 1 <= k < |c| ==> IsTail(c[k])
  {
  }

  /** The walk back over the tails of a character that stands, whole or begun, at the end. */
  lemma {:induction false} LeadOfPart(before: Octets, part: Octets, at: nat)
    requires 1 <= |part| <= 4 && !IsTail(part[0]) && forall k :: 1 <= k < |part| ==> IsTail(part[k])
    requires |before| <= at < |before| + |part|
    ensures Lead(before + part, at) == |before|
    decreases at
  {
    if at > |before| {
      assert (before + part)[at] == part[at - |before|];
      LeadOfPart(before, part, at - 1);
    } else {
      assert (before + part)[at] == part[0];
    }
  }

  /** Whole characters and the beginning of one more: the end is before that one, and it is the whole when nothing was begun. */
  lemma EndIsWhole(cs: seq<Octets>, c: Octets, p: nat)
    requires AreChars(cs) && IsChar(c) && p < |c|
    ensures CompleteEndOf(Encoded(cs) + c[..p]) == |Encoded(cs)|
  {
    CharShape(c);
    if p > 0 {
      LeadOfPart(Encoded(cs), c[..p], |Encoded(cs)| + p - 1);
    } else {
      assert Encoded(cs) + c[..0] == Encoded(cs);
      if cs != [] {
        var last := cs[|cs| - 1];
        CharShape(last);
        LeadOfPart(Encoded(cs[..|cs| - 1]), last, |Encoded(cs)| - 1);
      }
    }
  }

  lemma InitOfConcat<T>(a: seq<T>, b: seq<T>)
    requires b != []
    ensures a + b != [] && (a + b)[..|a + b| - 1] == a + b[..|b| - 1] && (a + b)[|a + b| - 1] == b[|b| - 1]
  {
  }

  lemma Associative<T>(a: seq<T>, b: seq<T>, c: seq<T>)
    ensures a + b + c == a + (b + c)
  {
  }

  lemma {:induction false} EncodedConcat(a: seq<Octets>, b: seq<Octets>)
    ensures Encoded(a + b) == Encoded(a) + Encoded(b)
    decreases |b|
  {
    if b == [] {
      assert a + b == a;
    } else {
      var init, last := b[..|b| - 1], b[|b| - 1];
      InitOfConcat(a, b);
      EncodedConcat(a, init);
      Associative(Encoded(a), Encoded(init), last);
    }
  }

  lemma OneEncoded(c: Octets)
    ensures Encoded([c]) == c
  {
    var one: seq<Octets> := [c];
    assert one[..0] == [];
    assert Encoded(one[..0]) + c == c;
  }

  lemma TheNextDoesNotFit(cs: seq<Octets>, cap: nat)
    requires |Encoded(cs)| > cap
    ensures Fitting(cs, cap) < |cs| && |Encoded(cs[..Fitting(cs, cap) + 1])| > cap
  {
    var init := cs[..|cs| - 1];
    var n := Fitting(init, cap);
    if |Encoded(init)| <= cap {
      assert n == |init|;
      assert cs[..n + 1] == cs;
    } else {
      TheNextDoesNotFit(init, cap);
      assert init[..n + 1] == cs[..n + 1];
    }
  }

  lemma HeldInside(a: Octets, b: Octets, c: Octets, cap: nat)
    requires |a| <= cap < |a| + |b|
    ensures Held(a + b + c, cap) == a + b[..cap - |a|]
  {
  }

  /** On UTF-8 the text kept of a stream that was cut is the longest run of whole characters within the cap. */
  lemma KeepsWholeCharacters(cs: seq<Octets>, cap: nat)
    requires AreChars(cs) && |Encoded(cs)| > cap
    ensures var bytes := Held(Encoded(cs), cap);
            bytes[..CompleteEndOf(bytes)] == Encoded(cs[..Fitting(cs, cap)])
  {
    TheNextDoesNotFit(cs, cap);
    var n := Fitting(cs, cap);
    var whole, c := cs[..n], cs[n];
    assert cs[..n + 1] == whole + [c];
    EncodedConcat(whole, [c]);
    EncodedConcat(cs[..n + 1], cs[n + 1..]);
    assert cs == cs[..n + 1] + cs[n + 1..];
    OneEncoded(c);
    var p := cap - |Encoded(whole)|;
    HeldInside(Encoded(whole), c, Encoded(cs[n + 1..]), cap);
    EndIsWhole(whole, c, p);
  }

  /** Whatever the bytes, no more than a character's worth is dropped. */
  lemma {:induction false} LeadIsNear(bytes: Octets, at: nat)
    requires at < |bytes| && |bytes| - at <= 4
    ensures |bytes| - Lead(bytes, at) <= 4
    decreases at
  {
    if at > 0 && |bytes| - at < 4 && IsTail(bytes[at]) {
      LeadIsNear(bytes, at - 1);
    }
  }

  lemma DropsAtMostFour(bytes: Octets)
    ensures |bytes| - CompleteEndOf(bytes) <= 4
  {
    if bytes != [] {
      LeadIsNear(bytes, |bytes| - 1);
    }
  }

  /** `complete_end`. */
  method CompleteEnd(bytes: Octets) returns (end: nat)
    ensures end == CompleteEndOf(bytes)
  {
    if |bytes| == 0 {
      return 0;
    }
    var lead: nat := |bytes| - 1;
    while lead > 0 && |bytes| - lead < 4 && 0x80 <= bytes[lead] < 0xC0
      invariant lead < |bytes|
      invariant Lead(bytes, |bytes| - 1) == Lead(bytes, lead)
    {
      lead := lead - 1;
    }
    var length := if bytes[lead] >= 0xF0 then 4 else if bytes[lead] >= 0xE0 then 3 else if bytes[lead] >= 0xC0 then 2 else 1;
    end := if lead + length > |bytes| then lead else |bytes|;
  }

  class Captured {
    const cap: nat
    var bytes: Octets
    var cut: bool

    /** What it holds of everything it was given. */
    ghost predicate Holds(stream: Octets)
      reads this
    {
      bytes == Held(stream, cap) && (cut <==> |stream| > cap)
    }

    constructor (cap: nat)
      ensures this.cap == cap && Holds([])
    {
      this.cap, bytes, cut := cap, [], false;
    }

    /** `push`: a stream is cut when it is longer than the cap, not when it reaches it. */
    method Push(chunk: Octets, ghost stream: Octets)
      requires Holds(stream)
      modifies this
      ensures Holds(stream + chunk)
    {
      var room := cap - |bytes|;
      if |chunk| <= room {
        bytes := bytes + chunk;
        return;
      }
      bytes := bytes + chunk[..room];
      cut := true;
    }

    /** The part of the bytes that `text` decodes. */
    method Kept() returns (kept: Octets)
      ensures kept == if cut then bytes[..CompleteEndOf(bytes)] else bytes
    {
      if !cut {
        return bytes;
      }
      var end := CompleteEnd(bytes);
      kept := bytes[..end];
    }
  }

  function Joined(chunks: seq<Octets>): Octets {
    if chunks == [] then [] else Joined(chunks[..|chunks| - 1]) + chunks[|chunks| - 1]
  }

  /** However a stream of characters is chunked, what is decoded of it is all of it, or the longest run of whole characters within the cap. */
  method ReadStream(chunks: seq<Octets>, cap: nat, ghost cs: seq<Octets>) returns (kept: Octets, cut: bool)
    requires AreChars(cs) && Joined(chunks) == Encoded(cs)
    ensures cut <==> |Encoded(cs)| > cap
    ensures kept == Encoded(cs[..Fitting(cs, cap)])
  {
    var capture := new Captured(cap);
    for k := 0 to |chunks|
      invariant capture.cap == cap && capture.Holds(Joined(chunks[..k]))
    {
      assert chunks[..k + 1][..k] == chunks[..k];
      capture.Push(chunks[k], Joined(chunks[..k]));
    }
    assert chunks[..|chunks|] == chunks;
    kept := capture.Kept();
    cut := capture.cut;
    if cut {
      KeepsWholeCharacters(cs, cap);
    } else {
      assert cs[..|cs|] == cs;
    }
  }
}
