/** `StreamReader`: one object a line, arriving in chunks that are cut anywhere. */
module Stream {
  import opened ByteLines

  function Joined(chunks: seq<Bytes>): Bytes {
    if chunks == [] then [] else Joined(chunks[..|chunks| - 1]) + chunks[|chunks| - 1]
  }

  /** The lines that the whole stream holds: the last may have no newline behind it. */
  function Whole(stream: Bytes): seq<Bytes> {
    Lines(stream) + (if Tail(stream) == [] then [] else [Tail(stream)])
  }

  lemma UpTo(b: Bytes, nl: nat)
    requires nl < |b| && b[nl] == NEWLINE && forall k :: 0 <= k < nl ==> b[k] != NEWLINE
    ensures Lines(b[..nl + 1]) == [b[..nl]] && Tail(b[..nl + 1]) == []
  {
    assert b[..nl + 1] == b[..nl] + [NEWLINE];
    NoNewline(b[..nl]);
    FeedByte(b[..nl], NEWLINE);
  }

  lemma FirstLine(b: Bytes, nl: nat)
    requires nl < |b| && b[nl] == NEWLINE && forall k :: 0 <= k < nl ==> b[k] != NEWLINE
    ensures Lines(b) == [b[..nl]] + Lines(b[nl + 1..])
    ensures Tail(b) == Tail(b[nl + 1..])
  {
    UpTo(b, nl);
    LinesOfConcat(b[..nl + 1], b[nl + 1..]);
    assert b == b[..nl + 1] + b[nl + 1..];
    assert [] + b[nl + 1..] == b[nl + 1..];
  }

  lemma Regroup<T>(a: seq<T>, b: seq<T>, c: seq<T>)
    ensures a + (b + c) == a + b + c
  {
  }

  class StreamReader {
    var pending: Bytes
    /** The lines handed to `line`, which is all that the reader's results are made of. */
    var seen: seq<Bytes>

    constructor ()
      ensures pending == [] && seen == []
    {
      pending, seen := [], [];
    }

    method IndexOfNewline() returns (nl: int)
      ensures nl < 0 ==> forall k :: 0 <= k < |pending| ==> pending[k] != NEWLINE
      ensures nl >= 0 ==> nl < |pending| && pending[nl] == NEWLINE && forall k :: 0 <= k < nl ==> pending[k] != NEWLINE
    {
      for k := 0 to |pending|
        invariant forall j :: 0 <= j < k ==> pending[j] != NEWLINE
      {
        if pending[k] == NEWLINE {
          return k;
        }
      }
      nl := -1;
    }

    /** Every line that the chunk completes, in order. */
    method Push(chunk: Bytes)
      modifies this
      ensures seen == old(seen) + Lines(old(pending) + chunk)
      ensures pending == Tail(old(pending) + chunk)
    {
      pending := pending + chunk;
      ghost var all := pending;
      assert seen + [] == seen;
      ghost var done: seq<Bytes> := [];
      var nl := IndexOfNewline();
      while nl >= 0
        invariant seen == old(seen) + done
        invariant Lines(all) == done + Lines(pending) && Tail(all) == Tail(pending)
        invariant nl < 0 ==> forall k :: 0 <= k < |pending| ==> pending[k] != NEWLINE
        invariant nl >= 0 ==> nl < |pending| && pending[nl] == NEWLINE && forall k :: 0 <= k < nl ==> pending[k] != NEWLINE
        decreases |pending|
      {
        FirstLine(pending, nl);
        Regroup(done, [pending[..nl]], Lines(pending[nl + 1..]));
        Regroup(old(seen), done, [pending[..nl]]);
        seen, done := seen + [pending[..nl]], done + [pending[..nl]];
        pending := pending[nl + 1..];
        nl := IndexOfNewline();
      }
      NoNewline(pending);
      assert done + [] == done;
    }

    /** The last line may have no newline behind it. */
    method End()
      modifies this
      ensures seen == old(seen) + (if old(pending) == [] then [] else [old(pending)])
      ensures pending == []
    {
      if pending != [] {
        seen := seen + [pending];
      } else {
        assert seen + [] == seen;
      }
      pending := [];
    }
  }

  /** However the stream is cut, the lines seen are those of the whole, and no other. */
  method ReadAll(chunks: seq<Bytes>) returns (seen: seq<Bytes>)
    ensures seen == Whole(Joined(chunks))
  {
    var reader := new StreamReader();
    for k := 0 to |chunks|
      invariant reader.seen == Lines(Joined(chunks[..k])) && reader.pending == Tail(Joined(chunks[..k]))
    {
      assert chunks[..k + 1][..k] == chunks[..k];
      LinesOfConcat(Joined(chunks[..k]), chunks[k]);
      reader.Push(chunks[k]);
    }
    assert chunks[..|chunks|] == chunks;
    reader.End();
    seen := reader.seen;
  }
}
