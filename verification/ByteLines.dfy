/** Lines of a byte stream that arrives in pieces. */
module ByteLines {

  /** A byte of a file, or a 16-bit unit of a text decoded from one. */
  type Byte = b: int | 0 <= b < 0x10000

  type Bytes = seq<Byte>

  const NEWLINE: Byte := 0x0A

  /** The complete lines: everything that a newline ends. */
  function Lines(b: Bytes): seq<Bytes> {
    if b == [] then []
    else
      var n := |b| - 1;
      if b[n] == NEWLINE then Lines(b[..n]) + [Tail(b[..n])] else Lines(b[..n])
  }

  /** What follows the last newline. */
  function Tail(b: Bytes): Bytes {
    if b == [] then []
    else
      var n := |b| - 1;
      if b[n] == NEWLINE then [] else Tail(b[..n]) + [b[n]]
  }

  /** `split('\n')`: the lines, and what stands after the last newline. */
  function Split(b: Bytes): seq<Bytes> {
    Lines(b) + [Tail(b)]
  }

  lemma FeedByte(b: Bytes, x: Byte)
    ensures Lines(b + [x]) == if x == NEWLINE then Lines(b) + [Tail(b)] else Lines(b)
    ensures Tail(b + [x]) == if x == NEWLINE then [] else Tail(b) + [x]
  {
    assert (b + [x])[..|b|] == b;
  }

  lemma {:induction false} TailHasNoNewline(b: Bytes)
    ensures NEWLINE !in Tail(b)
    ensures Lines(Tail(b)) == [] && Tail(Tail(b)) == Tail(b)
  {
    if b != [] {
      var n := |b| - 1;
      TailHasNoNewline(b[..n]);
      if b[n] != NEWLINE {
        FeedByte(Tail(b[..n]), b[n]);
      }
    }
  }

  lemma SnocOfConcat(a: Bytes, b: Bytes)
    requires b != []
    ensures a + b == a + b[..|b| - 1] + [b[|b| - 1]]
  {
  }

  lemma JoinLines(a: seq<Bytes>, b: seq<Bytes>, c: Bytes)
    ensures a + b + [c] == a + (b + [c])
  {
  }

  /** Reading in two pieces gives the lines of the whole: the rest of the first piece stands before the second. */
  lemma {:induction false} LinesOfConcat(a: Bytes, b: Bytes)
    ensures Lines(a + b) == Lines(a) + Lines(Tail(a) + b)
    ensures Tail(a + b) == Tail(Tail(a) + b)
    decreases |b|
  {
    if b == [] {
      assert a + b == a && Tail(a) + b == Tail(a);
      TailHasNoNewline(a);
    } else {
      var init, x := b[..|b| - 1], b[|b| - 1];
      LinesOfConcat(a, init);
      SnocOfConcat(a, b);
      SnocOfConcat(Tail(a), b);
      FeedByte(a + init, x);
      FeedByte(Tail(a) + init, x);
      JoinLines(Lines(a), Lines(Tail(a) + init), Tail(a + init));
    }
  }

  lemma {:induction false} NoNewline(b: Bytes)
    requires forall k :: 0 <= k < |b| ==> b[k] != NEWLINE
    ensures Lines(b) == [] && Tail(b) == b
  {
    if b != [] {
      NoNewline(b[..|b| - 1]);
    }
  }

  lemma LineAndRest(line: Bytes, rest: Bytes)
    requires forall k :: 0 <= k < |rest| ==> rest[k] != NEWLINE
    ensures Lines(line + [NEWLINE] + rest) == Split(line) && Tail(line + [NEWLINE] + rest) == rest
  {
    FeedByte(line, NEWLINE);
    NoNewline(rest);
    LinesOfConcat(line + [NEWLINE], rest);
    assert [] + rest == rest;
    assert Split(line) + [] == Split(line);
  }

  /** Up to the last newline, the pieces of the split are the complete lines, and what is behind it is the rest. */
  lemma SplitAtLast(b: Bytes, last: nat)
    requires last < |b| && b[last] == NEWLINE
    requires forall k :: last < k < |b| ==> b[k] != NEWLINE
    ensures Lines(b) == Split(b[..last])
    ensures Tail(b) == b[last + 1..]
  {
    CutAtByte(b, last);
    LineAndRest(b[..last], b[last + 1..]);
  }

  lemma CutAtByte(b: Bytes, at: nat)
    requires at < |b|
    ensures b == b[..at] + [b[at]] + b[at + 1..]
  {
  }

  /** The place of the last newline. */
  method LastNewline(b: Bytes) returns (found: bool, last: nat)
    ensures found ==> last < |b| && b[last] == NEWLINE && forall k :: last < k < |b| ==> b[k] != NEWLINE
    ensures !found ==> forall k :: 0 <= k < |b| ==> b[k] != NEWLINE
  {
    var i: nat := |b|;
    while i > 0
      invariant i <= |b|
      invariant forall k :: i <= k < |b| ==> b[k] != NEWLINE
    {
      i := i - 1;
      if b[i] == NEWLINE {
        return true, i;
      }
    }
    return false, 0;
  }

  /** Up to the last newline, split, and what is behind it. */
  method CutLines(b: Bytes) returns (found: bool, lines: seq<Bytes>, rest: Bytes)
    ensures rest == Tail(b)
    ensures if found then lines == Lines(b) else Lines(b) == []
  {
    var last;
    found, last := LastNewline(b);
    if found {
      SplitAtLast(b, last);
      lines, rest := Split(b[..last]), b[last + 1..];
    } else {
      NoNewline(b);
      lines, rest := [], b;
    }
  }
}
