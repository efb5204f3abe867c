/** `splitMessage`: a text in pieces that a message can hold, cut at a paragraph, a line or a word where one is near. */
module SplitMessage {
  import opened Utf16

  /** What `trim` takes for white space. */
  predicate IsSpace(u: Unit) {
    || 0x09 <= u <= 0x0D || u == 0x20 || u == 0xA0 || u == 0x1680 || 0x2000 <= u <= 0x200A
    || u == 0x2028 || u == 0x2029 || u == 0x202F || u == 0x205F || u == 0x3000 || u == 0xFEFF
  }

  predicate SpaceBetween(t: Text, from: nat, to: nat)
    requires to <= |t|
  {
    forall k :: from <= k < to ==> IsSpace(t[k])
  }

  /** No white space at either end. */
  predicate Trimmed(t: Text) {
    t != [] ==> !IsSpace(t[0]) && !IsSpace(t[|t| - 1])
  }

  /** Where what is not white space begins, or the end. */
  function StartAt(t: Text, from: nat): (r: nat)
    requires from <= |t|
    ensures from <= r <= |t| && SpaceBetween(t, from, r) && (r < |t| ==> !IsSpace(t[r]))
    decreases |t| - from
  {
    if from < |t| && IsSpace(t[from]) then StartAt(t, from + 1) else from
  }

  /** Where what is not white space ends, or the beginning. */
  function EndAt(t: Text, to: nat): (r: nat)
    requires to <= |t|
    ensures r <= to && SpaceBetween(t, r, to) && (r > 0 ==> !IsSpace(t[r - 1]))
  {
    if to > 0 && IsSpace(t[to - 1]) then EndAt(t, to - 1) else to
  }

  function TrimStart(t: Text): Text {
    t[StartAt(t, 0)..]
  }

  function TrimEnd(t: Text): Text {
    t[..EndAt(t, |t|)]
  }

  const PARAGRAPH: Text := [0x0A, 0x0A]
  const LINE: Text := [0x0A]
  const SPACE: Text := [0x20]

  predicate Occurs(s: Text, separator: Text, at: nat) {
    at + |separator| <= |s| && s[at..at + |separator|] == separator
  }

  /** `lastIndexOf`: the last place up to there where the separator begins, or -1. */
  function LastIndexOf(s: Text, separator: Text, from: nat): (r: int)
    ensures -1 <= r <= from
    ensures r >= 0 ==> Occurs(s, separator, r)
    ensures forall k :: r < k <= from ==> !Occurs(s, separator, k)
  {
    if Occurs(s, separator, from) then from else if from == 0 then -1 else LastIndexOf(s, separator, from - 1)
  }

  /** A place in the first half of the window is worse than none. */
  predicate TooEarly(cut: int, limit: nat) {
    2 * cut < limit
  }

  function CutAt(rest: Text, limit: nat): (cut: nat)
    requires 1 <= limit < |rest|
    ensures 1 <= cut <= limit <= 2 * cut
  {
    var paragraph := LastIndexOf(rest, PARAGRAPH, limit);
    if !TooEarly(paragraph, limit) then paragraph else
      var line := LastIndexOf(rest, LINE, limit);
      if !TooEarly(line, limit) then line else
        var space := LastIndexOf(rest, SPACE, limit);
        if !TooEarly(space, limit) then space else limit
  }

  /** Inside a word it is cut only when the second half of the window has no white space to cut at, and at a word only when it has no line. */
  lemma CutsWhereItCan(rest: Text, limit: nat, k: nat)
    requires 1 <= limit < |rest| && limit <= 2 * k && k <= limit
    ensures var cut := CutAt(rest, limit);
            && (Occurs(rest, PARAGRAPH, k) ==> Occurs(rest, PARAGRAPH, cut) && k <= cut)
            && (Occurs(rest, LINE, k) && !Occurs(rest, PARAGRAPH, cut) ==> Occurs(rest, LINE, cut) && k <= cut)
            && (Occurs(rest, SPACE, k) && !Occurs(rest, PARAGRAPH, cut) && !Occurs(rest, LINE, cut) ==> Occurs(rest, SPACE, cut) && k <= cut)
  {
  }

  predicate Fits(chunk: Text, limit: nat) {
    chunk != [] && Trimmed(chunk) && |chunk| <= limit
  }

  predicate AllFit(chunks: seq<Text>, limit: nat) {
    forall k :: 0 <= k < |chunks| ==> Fits(chunks[k], limit)
  }

  /** Where a piece stands in the text. */
  datatype Span = Span(lo: nat, hi: nat)

  function EndOf(spans: seq<Span>): nat {
    if spans == [] then 0 else spans[|spans| - 1].hi
  }

  /** The pieces stand in the text one after the other, with nothing but white space in front of each and between them. */
  predicate Pieces(text: Text, chunks: seq<Text>, spans: seq<Span>)
    decreases |chunks|
  {
    && |spans| == |chunks|
    && (chunks != [] ==>
          var n := |chunks| - 1;
          && Pieces(text, chunks[..n], spans[..n])
          && EndOf(spans[..n]) <= spans[n].lo < spans[n].hi <= |text|
          && chunks[n] == text[spans[n].lo..spans[n].hi]
          && SpaceBetween(text, EndOf(spans[..n]), spans[n].lo))
  }

  lemma OneMorePiece(text: Text, chunks: seq<Text>, spans: seq<Span>, lo: nat, hi: nat)
    requires Pieces(text, chunks, spans) && EndOf(spans) <= lo < hi <= |text| && SpaceBetween(text, EndOf(spans), lo)
    ensures Pieces(text, chunks + [text[lo..hi]], spans + [Span(lo, hi)]) && EndOf(spans + [Span(lo, hi)]) == hi
  {
    assert (chunks + [text[lo..hi]])[..|chunks|] == chunks && (spans + [Span(lo, hi)])[..|spans|] == spans;
  }

  /** Up to a cut: the piece, and white space behind it. */
  lemma HeadEnds(text: Text, lo: nat, hi: nat, cut: nat) returns (end: nat)
    requires lo < hi <= |text| && Trimmed(text[lo..hi]) && 1 <= cut < hi - lo
    ensures lo < end <= lo + cut && SpaceBetween(text, end, lo + cut)
    ensures TrimEnd(text[lo..hi][..cut]) == text[lo..end] && !IsSpace(text[end - 1])
  {
    var head := text[lo..hi][..cut];
    assert head == text[lo..lo + cut];
    assert head[0] == text[lo..hi][0];
    end := lo + EndAt(head, cut);
    forall k | end <= k < lo + cut
      ensures IsSpace(text[k])
    {
      assert head[k - lo] == text[k];
    }
  }

  /** Behind a cut: white space, and where the next piece begins. */
  lemma TailStarts(text: Text, lo: nat, hi: nat, cut: nat) returns (next: nat)
    requires lo < hi <= |text| && Trimmed(text[lo..hi]) && 1 <= cut < hi - lo
    ensures lo + cut <= next < hi && SpaceBetween(text, lo + cut, next)
    ensures TrimStart(text[lo..hi][cut..]) == text[next..hi] && !IsSpace(text[next])
  {
    var tail := text[lo..hi][cut..];
    assert tail == text[lo + cut..hi];
    assert tail[|tail| - 1] == text[lo..hi][hi - lo - 1];
    next := lo + cut + StartAt(tail, 0);
    forall k | lo + cut <= k < next
      ensures IsSpace(text[k])
    {
      assert tail[k - lo - cut] == text[k];
    }
  }

  /** One cut of the part of a text that is left: the piece, and where the next begins. */
  lemma CutApart(text: Text, lo: nat, hi: nat, cut: nat) returns (end: nat, next: nat)
    requires lo < hi <= |text| && Trimmed(text[lo..hi]) && 1 <= cut < hi - lo
    ensures lo < end <= lo + cut <= next < hi && SpaceBetween(text, end, next)
    ensures TrimEnd(text[lo..hi][..cut]) == text[lo..end] && !IsSpace(text[end - 1])
    ensures TrimStart(text[lo..hi][cut..]) == text[next..hi] && !IsSpace(text[next])
  {
    end := HeadEnds(text, lo, hi, cut);
    next := TailStarts(text, lo, hi, cut);
  }

  lemma TrimmedBoth(text: Text) returns (lo: nat, hi: nat)
    ensures lo <= hi <= |text| && TrimEnd(TrimStart(text)) == text[lo..hi]
    ensures SpaceBetween(text, 0, lo) && SpaceBetween(text, hi, |text|) && Trimmed(text[lo..hi])
  {
    var start := TrimStart(text);
    lo := StartAt(text, 0);
    hi := lo + EndAt(start, |start|);
    assert forall k :: 0 <= k < |start| ==> start[k] == text[lo + k];
    forall k | hi <= k < |text|
      ensures IsSpace(text[k])
    {
      assert start[k - lo] == text[k];
    }
    if lo < hi {
      assert text[hi - 1] == start[hi - lo - 1];
    }
  }

  lemma PartIsTrimmed(text: Text, lo: nat, hi: nat)
    requires lo < hi <= |text| && !IsSpace(text[lo]) && !IsSpace(text[hi - 1])
    ensures Trimmed(text[lo..hi])
  {
  }

  /** The pieces so far, and the part of the text that is left. */
  predicate Going(text: Text, limit: nat, out: seq<Text>, spans: seq<Span>, lo: nat, hi: nat) {
    && lo <= hi <= |text| && Trimmed(text[lo..hi]) && SpaceBetween(text, hi, |text|)
    && AllFit(out, limit) && Pieces(text, out, spans) && EndOf(spans) <= lo && SpaceBetween(text, EndOf(spans), lo)
    && |out| * limit <= 2 * lo
  }

  lemma CutStep(text: Text, limit: nat, out: seq<Text>, spans: seq<Span>, lo: nat, hi: nat) returns (end: nat, next: nat)
    requires Going(text, limit, out, spans, lo, hi) && 1 <= limit < hi - lo
    ensures var rest := text[lo..hi];
            var chunk := TrimEnd(rest[..CutAt(rest, limit)]);
            && lo < next <= hi && TrimStart(rest[CutAt(rest, limit)..]) == text[next..hi]
            && Going(text, limit, out + [chunk], spans + [Span(lo, end)], next, hi)
  {
    var rest := text[lo..hi];
    var cut := CutAt(rest, limit);
    end, next := CutApart(text, lo, hi, cut);
    assert rest[0] == text[lo] && rest[hi - lo - 1] == text[hi - 1];
    OneMoreFits(text, limit, out, lo, end);
    OneMorePiece(text, out, spans, lo, end);
    PartIsTrimmed(text, next, hi);
    Counted(|out|, limit, lo, cut, next);
  }

  lemma OneMoreFits(text: Text, limit: nat, out: seq<Text>, lo: nat, end: nat)
    requires AllFit(out, limit) && lo < end <= |text| && end - lo <= limit && !IsSpace(text[lo]) && !IsSpace(text[end - 1])
    ensures AllFit(out + [text[lo..end]], limit)
  {
    PartIsTrimmed(text, lo, end);
  }

  lemma LastPiece(text: Text, limit: nat, out: seq<Text>, spans: seq<Span>, lo: nat, hi: nat)
    requires Going(text, limit, out, spans, lo, hi) && 0 < hi - lo <= limit
    ensures AllFit(out + [text[lo..hi]], limit) && Pieces(text, out + [text[lo..hi]], spans + [Span(lo, hi)])
    ensures EndOf(spans + [Span(lo, hi)]) == hi
  {
    OneMorePiece(text, out, spans, lo, hi);
  }

  /**
   For any limit of at least 1: every piece is not empty, trimmed and within the limit; the pieces are the text in order with nothing but white space
   in front of, between and behind them; and there are at most twice as many as whole limits in the text, and one.
   */
  method Split(text: Text, limit: nat) returns (out: seq<Text>, ghost spans: seq<Span>)
    requires limit >= 1
    ensures AllFit(out, limit) && Pieces(text, out, spans) && EndOf(spans) <= |text| && SpaceBetween(text, EndOf(spans), |text|)
    ensures |out| > 0 ==> (|out| - 1) * limit <= 2 * |text|
  {
    var rest := TrimEnd(TrimStart(text));
    ghost var lo: nat, hi: nat;
    lo, hi := TrimmedBoth(text);
    out, spans := [], [];
    while |rest| > limit
      invariant Going(text, limit, out, spans, lo, hi) && rest == text[lo..hi]
      decreases |rest|
    {
      ghost var end, next := CutStep(text, limit, out, spans, lo, hi);
      var cut := CutAt(rest, limit);
      out, spans := out + [TrimEnd(rest[..cut])], spans + [Span(lo, end)];
      rest, lo := TrimStart(rest[cut..]), next;
    }
    if rest != [] {
      LastPiece(text, limit, out, spans, lo, hi);
      out, spans := out + [rest], spans + [Span(lo, hi)];
      Counting(|out| - 1, limit, lo, |text|);
    } else {
      Counting(|out|, limit, lo, |text|);
      GapToTheEnd(text, EndOf(spans), lo, hi);
    }
  }

  lemma Counting(n: nat, limit: nat, lo: nat, all: nat)
    requires n * limit <= 2 * lo && lo <= all
    ensures n * limit <= 2 * all && (n > 0 ==> (n - 1) * limit <= 2 * all)
  {
    assert n > 0 ==> (n - 1) * limit == n * limit - limit;
  }

  lemma GapToTheEnd(text: Text, from: nat, lo: nat, hi: nat)
    requires from <= lo == hi <= |text| && SpaceBetween(text, from, lo) && SpaceBetween(text, hi, |text|)
    ensures SpaceBetween(text, from, |text|)
  {
  }

  lemma Counted(n: nat, limit: nat, lo: nat, cut: nat, next: nat)
    requires n * limit <= 2 * lo && limit <= 2 * cut && lo + cut <= next
    ensures (n + 1) * limit <= 2 * next
  {
    assert (n + 1) * limit == n * limit + limit;
  }

  /** A text that has pieces is not only white space. */
  lemma PiecesAreText(text: Text, chunks: seq<Text>, spans: seq<Span>, limit: nat)
    requires AllFit(chunks, limit) && Pieces(text, chunks, spans) && chunks != []
    ensures !SpaceBetween(text, 0, |text|)
  {
    var n := |chunks| - 1;
    assert Fits(chunks[n], limit) && chunks[n][0] == text[spans[n].lo];
  }
}
