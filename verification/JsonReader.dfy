/** The parser of `json.rs`: one pass with a stack of open containers, in its three variants. */
module JsonReader {
  import opened Common
  import opened Utf16
  import opened Decimal
  import opened JsonValue
  import G = JsonGrammar
  import U = JsonUnambiguous

  // ---- what a parse means ----

  /** The value of a text that is a JSON document, read in one of the three ways. */
  function Parsed(t: Text, mode: Mode): Option<Value> {
    var r := G.ScanDocument(t);
    U.DocumentSound(t);
    if r.Found? then Some(Read(r.value.value, mode)) else None
  }

  function TreeOf(t: Text): G.Scan<G.Syntax> {
    match G.ScanDocument(t)
    case Fail => G.Fail
    case Found(d, end) => G.Found(d.value, end)
  }

  // ---- string literals ----

  /** A string literal while it is read: characters, and code units from the first lone half on. */
  datatype StringRead = Chars(text: Text) | Halves(units: Text)

  function PushStr(l: StringRead, s: Text): StringRead {
    match l
    case Chars(c) => Chars(c + s)
    case Halves(u) => Halves(u + s)
  }

  function PushLone(l: StringRead, half: Unit): StringRead {
    match l
    case Chars(c) => Halves(c + [half])
    case Halves(u) => Halves(u + [half])
  }

  function IntoUnits(l: StringRead): Text {
    match l
    case Chars(c) => c
    case Halves(u) => u
  }

  function IntoValue(l: StringRead): Value {
    match l
    case Chars(c) => String(c)
    case Halves(u) => Units(u)
  }

  /** What the reader holds for the string u. */
  function StringReadOf(u: Text, exact: bool): StringRead {
    if !exact then Chars(Lossy(u)) else if WellFormed(u) then Chars(u) else Halves(u)
  }

  /** What the reader holds for a key: text, unless lone halves in keys are kept. */
  function KeyReadOf(u: Text, mode: Mode): StringRead {
    if mode.Whole? && !WellFormed(u) then Halves(u) else Chars(Lossy(u))
  }

  lemma PushStrReads(u: Text, s: Text, exact: bool)
    requires WellFormed(s) && Splits(u, s)
    ensures PushStr(StringReadOf(u, exact), s) == StringReadOf(u + s, exact)
  {
    ConcatReads(u, s);
    LossyIsWellFormed(s);
  }

  lemma PushHalfReads(u: Text, half: Unit, exact: bool)
    requires IsHalf(half) && Splits(u, [half])
    ensures (if exact then PushLone(StringReadOf(u, exact), half) else PushStr(StringReadOf(u, exact), [REPLACEMENT]))
         == StringReadOf(u + [half], exact)
  {
    ConcatReads(u, [half]);
    assert LoneAt([half], 0);
    assert Lossy([half]) == [REPLACEMENT];
  }

  function CodeUnit(t: Text, at: nat): Option<Unit> {
    if G.HexAt(t, at) then Some(PieceUnit(HexPiece(t, at))) else None
  }

  function HexPiece(t: Text, at: nat): (p: G.Piece)
    requires G.HexAt(t, at)
    ensures G.ValidPiece(p)
  {
    G.Hex(t[at + 2], t[at + 3], t[at + 4], t[at + 5])
  }

  /** An escape as read: the units of its character, or none for a half that stands alone, and the length it takes. */
  datatype EscapeRead = EscapeRead(chars: Option<Text>, len: nat)

  /** `unicode_escape`. */
  function UnicodeEscape(t: Text, at: nat): Option<EscapeRead> {
    match CodeUnit(t, at)
    case None => None
    case Some(first) =>
      var second := CodeUnit(t, at + 6);
      if IsHigh(first) && second.Some? && IsLow(second.value) then Some(EscapeRead(Some([first, second.value]), 12))
      else if IsHalf(first) then Some(EscapeRead(None, 6))
      else Some(EscapeRead(Some([first]), 6))
  }

  function Prepend(ps: seq<G.Piece>, r: G.Scan<seq<G.Piece>>): G.Scan<seq<G.Piece>> {
    match r
    case Fail => G.Fail
    case Found(rest, end) => G.Found(ps + rest, end)
  }

  lemma PrependTwice(a: seq<G.Piece>, b: seq<G.Piece>, r: G.Scan<seq<G.Piece>>)
    ensures Prepend(a, Prepend(b, r)) == Prepend(a + b, r)
  {
    if r.Found? {
      assert a + (b + r.value) == a + b + r.value;
    }
  }

  function RawRun(t: Text, i: nat, j: nat): seq<G.Piece>
    requires i <= j <= |t|
  {
    seq(j - i, k requires 0 <= k < j - i => G.Raw(t[i + k]))
  }

  lemma {:induction false} RunScans(t: Text, i: nat, j: nat)
    requires i <= j <= |t|
    requires forall k :: i <= k < j ==> G.IsPlain(t[k])
    ensures G.ScanPieces(t, i) == Prepend(RawRun(t, i, j), G.ScanPieces(t, j))
    decreases j - i
  {
    if i < j {
      RunScans(t, i + 1, j);
      assert RawRun(t, i, j) == [G.Raw(t[i])] + RawRun(t, i + 1, j);
      PrependTwice([G.Raw(t[i])], RawRun(t, i + 1, j), G.ScanPieces(t, j));
    } else {
      PrependTwice([], [], G.ScanPieces(t, j));
      assert RawRun(t, i, j) == [];
      var r := G.ScanPieces(t, j);
      assert r.Found? ==> [] + r.value == r.value;
    }
  }

  lemma RunUnits(t: Text, i: nat, j: nat)
    requires i <= j <= |t|
    requires forall k :: i <= k < j ==> G.IsPlain(t[k])
    ensures G.ValidPieces(RawRun(t, i, j)) && UnitsOf(RawRun(t, i, j)) == t[i..j]
  {
  }

  lemma UnitsConcat(a: seq<G.Piece>, b: seq<G.Piece>)
    requires G.ValidPieces(a) && G.ValidPieces(b)
    ensures G.ValidPieces(a + b) && UnitsOf(a + b) == UnitsOf(a) + UnitsOf(b)
  {
  }

  predicate EndsHigh(u: Text) {
    u != [] && IsHigh(u[|u| - 1])
  }

  /** What stands at i is a low half, plain or escaped. */
  predicate LowNext(t: Text, i: nat) {
    i < |t| && (IsLow(t[i]) || (G.HexAt(t, i) && IsLow(CodeUnit(t, i).value)))
  }

  /** The state between two steps of the string loop. */
  ghost predicate StringState(t: Text, start: nat, i: nat, pieces: seq<G.Piece>, out: StringRead, exact: bool) {
    && start < i <= |t| && !IsHalf(t[i - 1])
    && G.ValidPieces(pieces)
    && G.ScanPieces(t, start + 1) == Prepend(pieces, G.ScanPieces(t, i))
    && out == StringReadOf(UnitsOf(pieces), exact)
    && (EndsHigh(UnitsOf(pieces)) ==> !LowNext(t, i))
  }

  lemma StringStateStart(t: Text, start: nat, exact: bool)
    requires start < |t| && t[start] == G.QUOTE
    ensures StringState(t, start, start + 1, [], Chars([]), exact)
  {
    var r := G.ScanPieces(t, start + 1);
    assert r.Found? ==> [] + r.value == r.value;
    assert UnitsOf([]) == [] && Lossy([]) == [];
  }

  lemma NoLowAfterChar(t: Text, i: nat)
    requires WellFormed(t) && 0 < i <= |t| && !IsHalf(t[i - 1])
    ensures i < |t| ==> !IsLow(t[i])
  {
    if i < |t| {
      assert !LoneAt(t, i);
    }
  }

  /** A run of plain characters: its pieces are read, and it does not end within a pair. */
  lemma RunStep(t: Text, start: nat, i: nat, j: nat, pieces: seq<G.Piece>, out: StringRead, exact: bool)
    requires WellFormed(t) && StringState(t, start, i, pieces, out, exact)
    requires i <= j < |t| && !G.IsPlain(t[j])
    requires forall k :: i <= k < j ==> G.IsPlain(t[k])
    ensures var all := pieces + RawRun(t, i, j);
            && G.ValidPieces(all)
            && G.ScanPieces(t, start + 1) == Prepend(all, G.ScanPieces(t, j))
            && PushStr(out, t[i..j]) == StringReadOf(UnitsOf(all), exact)
            && (EndsHigh(UnitsOf(all)) ==> i == j && !LowNext(t, j))
  {
    var run := t[i..j];
    var u := UnitsOf(pieces);
    RunScans(t, i, j);
    PrependTwice(pieces, RawRun(t, i, j), G.ScanPieces(t, j));
    RunUnits(t, i, j);
    UnitsConcat(pieces, RawRun(t, i, j));
    NoLowAfterChar(t, i);
    SliceIsWellFormed(t, i, j);
    PushStrReads(u, run, exact);
    if i < j {
      assert !LoneAt(run, j - i - 1);
      assert (u + run)[|u + run| - 1] == run[j - i - 1];
    } else {
      assert u + run == u;
    }
  }

  /** One more piece that is a character of its own. */
  lemma CharStep(t: Text, start: nat, j: nat, pieces: seq<G.Piece>, out: StringRead, exact: bool, p: G.Piece, end: nat)
    requires G.ValidPieces(pieces) && start < j <= |t|
    requires G.ScanPieces(t, start + 1) == Prepend(pieces, G.ScanPieces(t, j))
    requires out == StringReadOf(UnitsOf(pieces), exact)
    requires G.ScanPiece(t, j) == G.Found(p, end) && t[j] != G.QUOTE && G.ValidPiece(p)
    requires !IsHalf(PieceUnit(p)) && start < end <= |t| && !IsHalf(t[end - 1])
    ensures StringState(t, start, end, pieces + [p], PushStr(out, [PieceUnit(p)]), exact)
  {
    PieceStep(t, start, j, pieces, p, end);
    AsciiIsWellFormed([PieceUnit(p)]);
    PushStrReads(UnitsOf(pieces), [PieceUnit(p)], exact);
  }

  lemma PieceStep(t: Text, start: nat, j: nat, pieces: seq<G.Piece>, p: G.Piece, end: nat)
    requires G.ValidPieces(pieces) && start < j <= |t|
    requires G.ScanPieces(t, start + 1) == Prepend(pieces, G.ScanPieces(t, j))
    requires G.ScanPiece(t, j) == G.Found(p, end) && t[j] != G.QUOTE && G.ValidPiece(p)
    ensures G.ValidPieces(pieces + [p])
    ensures G.ScanPieces(t, start + 1) == Prepend(pieces + [p], G.ScanPieces(t, end))
    ensures UnitsOf(pieces + [p]) == UnitsOf(pieces) + [PieceUnit(p)]
  {
    UnitsConcat(pieces, [p]);
    assert UnitsOf([p]) == [PieceUnit(p)];
    PrependTwice(pieces, [p], G.ScanPieces(t, end));
  }

  /** A half with no partner: neither what was read before it nor what stands behind it joins it. */
  lemma HalfStep(t: Text, start: nat, j: nat, pieces: seq<G.Piece>, out: StringRead, exact: bool)
    requires WellFormed(t) && G.ValidPieces(pieces) && start < j < |t|
    requires G.ScanPieces(t, start + 1) == Prepend(pieces, G.ScanPieces(t, j))
    requires out == StringReadOf(UnitsOf(pieces), exact)
    requires EndsHigh(UnitsOf(pieces)) ==> !LowNext(t, j)
    requires UnicodeEscape(t, j) == Some(EscapeRead(None, 6))
    ensures var half := CodeUnit(t, j).value;
            StringState(t, start, j + 6, pieces + [HexPiece(t, j)],
                        if exact then PushLone(out, half) else PushStr(out, [REPLACEMENT]), exact)
  {
    var half := CodeUnit(t, j).value;
    PieceStep(t, start, j, pieces, HexPiece(t, j), j + 6);
    PushHalfReads(UnitsOf(pieces), half, exact);
    NoLowAfterChar(t, j + 6);
  }

  lemma PairIsWellFormed(high: Unit, low: Unit)
    requires IsHigh(high) && IsLow(low)
    ensures WellFormed([high, low])
  {
  }

  lemma TwoUnits(u: Text, pair: Text)
    requires |pair| == 2
    ensures u + [pair[0]] + [pair[1]] == u + pair
  {
  }

  /** Two escapes that are the halves of one character. */
  lemma PairStep(t: Text, start: nat, j: nat, pieces: seq<G.Piece>, out: StringRead, exact: bool, chars: Text)
    requires G.ValidPieces(pieces) && start < j < |t|
    requires G.ScanPieces(t, start + 1) == Prepend(pieces, G.ScanPieces(t, j))
    requires out == StringReadOf(UnitsOf(pieces), exact)
    requires UnicodeEscape(t, j) == Some(EscapeRead(Some(chars), 12))
    ensures StringState(t, start, j + 12, pieces + [HexPiece(t, j)] + [HexPiece(t, j + 6)], PushStr(out, chars), exact)
  {
    var u := UnitsOf(pieces);
    PieceStep(t, start, j, pieces, HexPiece(t, j), j + 6);
    PieceStep(t, start, j + 6, pieces + [HexPiece(t, j)], HexPiece(t, j + 6), j + 12);
    PairIsWellFormed(chars[0], chars[1]);
    PushStrReads(u, chars, exact);
    TwoUnits(u, chars);
  }

  // ---- the container stack ----

  /** A container that is being read, with the key of its next member. */
  datatype Open =
    | OpenArray(items: seq<Value>)
    | OpenObject(members: seq<Member>, key: Text)
    | OpenKeyed(members: seq<Member>, key: Text)

  /** `Open::object`: a key with a lone half turns the object into a keyed one. */
  function OpenWith(members: seq<Member>, key: StringRead): Open {
    match key
    case Chars(k) => OpenObject(members, k)
    case Halves(k) => OpenKeyed(members, k)
  }

  /** An open container as a part of the tree: what of it has been read, and the head of what comes next. */
  datatype Frame = ArrayFrame(items: seq<G.Item>, before: Text) | ObjectFrame(members: seq<G.Member>, head: G.Member)

  predicate ValidHead(m: G.Member) {
    G.Space(m.before) && G.ValidPieces(m.key) && G.Space(m.ahead) && G.Space(m.behind)
  }

  predicate ValidFrame(f: Frame) {
    match f
    case ArrayFrame(items, before) => G.ValidItems(items) && G.Space(before)
    case ObjectFrame(members, head) => G.ValidMembers(members) && ValidHead(head)
  }

  function OpenOf(f: Frame, mode: Mode): Open
    requires ValidFrame(f)
  {
    match f
    case ArrayFrame(items, _) => OpenArray(ReadItems(items, mode))
    case ObjectFrame(members, head) =>
      var ms, key := ReadMembers(members, mode), ReadKey(head.key, mode);
      if TextKeys(ms) && WellFormed(key) then OpenObject(ms, key) else OpenKeyed(ms, key)
  }

  predicate LoneFrame(f: Frame)
    requires ValidFrame(f)
  {
    match f
    case ArrayFrame(items, _) => LoneKeyInItems(items)
    case ObjectFrame(members, head) => LoneKeyInMembers(members) || !WellFormed(UnitsOf(head.key))
  }

  predicate ValidFrames(frames: seq<Frame>) {
    forall k :: 0 <= k < |frames| ==> ValidFrame(frames[k])
  }

  predicate LoneFrames(frames: seq<Frame>)
    requires ValidFrames(frames)
  {
    exists k :: 0 <= k < |frames| && LoneFrame(frames[k])
  }

  /** The document, once the value c has been read up to k inside the given containers. */
  function Finish(t: Text, k: nat, frames: seq<Frame>, c: G.Syntax): G.Scan<G.Syntax>
    requires k <= |t|
    decreases |frames|
  {
    var m := G.Skip(t, k);
    if frames == [] then
      if m == |t| then G.Found(c, m) else G.Fail
    else
      var below := frames[..|frames| - 1];
      match frames[|frames| - 1]
      case ArrayFrame(items, before) =>
        var rest := G.ScanItemsTail(t, m);
        if rest.Fail? then G.Fail
        else Finish(t, rest.end, below, G.Array([], items + [G.Item(before, c, t[k..m])] + rest.value))
      case ObjectFrame(members, head) =>
        var rest := G.ScanMembersTail(t, m);
        if rest.Fail? then G.Fail
        else Finish(t, rest.end, below, G.Object([], members + [head.(value := c, after := t[k..m])] + rest.value))
  }

  /** The document, when a value starts at j inside the given containers. */
  function Start(t: Text, j: nat, frames: seq<Frame>): G.Scan<G.Syntax>
    requires j <= |t|
  {
    var value := G.ScanValue(t, j);
    if value.Fail? then G.Fail else Finish(t, value.end, frames, value.value)
  }

  lemma FinishTop(t: Text, k: nat, below: seq<Frame>, f: Frame, c: G.Syntax)
    requires k <= |t|
    ensures (below + [f])[..|below|] == below
    ensures (below + [f])[|below|] == f
  {
  }

  lemma RegroupItems(before: seq<G.Item>, item: G.Item, rest: G.Scan<seq<G.Item>>)
    ensures rest.Found? ==> before + ([item] + rest.value) == before + [item] + rest.value
    ensures rest.Found? ==> [] + [item] + rest.value == [item] + rest.value
  {
  }

  lemma RegroupMembers(before: seq<G.Member>, m: G.Member, rest: G.Scan<seq<G.Member>>)
    ensures rest.Found? ==> before + ([m] + rest.value) == before + [m] + rest.value
    ensures rest.Found? ==> [] + [m] + rest.value == [m] + rest.value
  {
  }

  lemma ArrayFinishes(t: Text, k: nat, below: seq<Frame>, f: Frame, c: G.Syntax)
    requires k <= |t| && f.ArrayFrame?
    ensures (var m := G.Skip(t, k);
             var rest := G.ScanItemsTail(t, m);
             Finish(t, k, below + [f], c)
               == if rest.Fail? then G.Fail
                  else Finish(t, rest.end, below, G.Array([], f.items + [G.Item(f.before, c, t[k..m])] + rest.value)))
  {
    FinishTop(t, k, below, f, c);
  }

  lemma ObjectFinishes(t: Text, k: nat, below: seq<Frame>, f: Frame, c: G.Syntax)
    requires k <= |t| && f.ObjectFrame?
    ensures (var m := G.Skip(t, k);
             var rest := G.ScanMembersTail(t, m);
             Finish(t, k, below + [f], c)
               == if rest.Fail? then G.Fail
                  else Finish(t, rest.end, below, G.Object([], f.members + [f.head.(value := c, after := t[k..m])] + rest.value)))
  {
    FinishTop(t, k, below, f, c);
  }

  /** A value that starts inside an array, and what follows it there. */
  lemma StartInArray(t: Text, j: nat, below: seq<Frame>, f: Frame)
    requires j <= |t| && f.ArrayFrame? && G.Skip(t, j) == j
    ensures (var all := ItemsFrom(t, j, f.before);
             Start(t, j, below + [f])
               == if all.Fail? then G.Fail else Finish(t, all.end, below, G.Array([], f.items + all.value)))
  {
    var value := G.ScanValue(t, j);
    if value.Found? {
      var m := G.Skip(t, value.end);
      ArrayFinishes(t, value.end, below, f, value.value);
      RegroupItems(f.items, G.Item(f.before, value.value, t[value.end..m]), G.ScanItemsTail(t, m));
    }
  }

  /** The items from the value at j on, where `before` is the white space in front of it. */
  function ItemsFrom(t: Text, j: nat, before: Text): (r: G.Scan<seq<G.Item>>)
    requires j <= |t|
    ensures r.Found? ==> r.end <= |t|
  {
    var value := G.ScanValue(t, j);
    if value.Fail? then G.Fail else
    var m := G.Skip(t, value.end);
    var rest := G.ScanItemsTail(t, m);
    if rest.Fail? then G.Fail
    else G.Found([G.Item(before, value.value, t[value.end..m])] + rest.value, rest.end)
  }

  lemma ItemsFromSkip(t: Text, i: nat)
    requires i <= |t|
    ensures G.ScanItems(t, i) == ItemsFrom(t, G.Skip(t, i), t[i..G.Skip(t, i)])
  {
  }

  lemma SkipTwice(t: Text, i: nat)
    requires i <= |t|
    ensures G.Skip(t, G.Skip(t, i)) == G.Skip(t, i)
  {
  }

  lemma ArrayOpens(t: Text, i: nat, frames: seq<Frame>)
    requires i < |t| && t[i] == G.OPEN_ARRAY
    requires G.Skip(t, i + 1) < |t| ==> t[G.Skip(t, i + 1)] != G.CLOSE_ARRAY
    ensures var j := G.Skip(t, i + 1);
            Start(t, i, frames) == Start(t, j, frames + [ArrayFrame([], t[i + 1..j])])
  {
    var j := G.Skip(t, i + 1);
    var items := G.ScanItems(t, i + 1);
    assert G.ScanValue(t, i) == if items.Fail? then G.Fail else G.Found(G.Array([], items.value), items.end);
    SkipTwice(t, i + 1);
    ItemsFromSkip(t, i + 1);
    StartInArray(t, j, frames, ArrayFrame([], t[i + 1..j]));
    assert items.Found? ==> [] + items.value == items.value;
  }

  lemma ItemsAfterComma(t: Text, m: nat)
    requires m < |t| && t[m] == G.COMMA
    ensures var j := G.Skip(t, m + 1);
            G.Skip(t, j) == j && G.ScanItemsTail(t, m) == ItemsFrom(t, j, t[m + 1..j])
  {
    SkipTwice(t, m + 1);
    ItemsFromSkip(t, m + 1);
  }

  lemma ArrayContinues(t: Text, k: nat, below: seq<Frame>, f: Frame, c: G.Syntax)
    requires k <= |t| && f.ArrayFrame?
    requires G.Skip(t, k) < |t| && t[G.Skip(t, k)] == G.COMMA
    ensures var m := G.Skip(t, k);
            var j := G.Skip(t, m + 1);
            var item := G.Item(f.before, c, t[k..m]);
            Finish(t, k, below + [f], c) == Start(t, j, below + [ArrayFrame(f.items + [item], t[m + 1..j])])
  {
    var m := G.Skip(t, k);
    var j := G.Skip(t, m + 1);
    var item := G.Item(f.before, c, t[k..m]);
    ArrayFinishes(t, k, below, f, c);
    ItemsAfterComma(t, m);
    StartInArray(t, j, below, ArrayFrame(f.items + [item], t[m + 1..j]));
  }

  lemma ArrayCloses(t: Text, k: nat, below: seq<Frame>, f: Frame, c: G.Syntax)
    requires k <= |t| && f.ArrayFrame?
    requires G.Skip(t, k) < |t| && t[G.Skip(t, k)] == G.CLOSE_ARRAY
    ensures (var m := G.Skip(t, k);
             Finish(t, k, below + [f], c)
               == Finish(t, m + 1, below, G.Array([], f.items + [G.Item(f.before, c, t[k..m])])))
  {
    var m := G.Skip(t, k);
    var items := f.items + [G.Item(f.before, c, t[k..m])];
    ArrayFinishes(t, k, below, f, c);
    assert items + [] == items;
  }

  /** The members from the one with the given head on, whose value starts at j. */
  function MembersFrom(t: Text, j: nat, head: G.Member): (r: G.Scan<seq<G.Member>>)
    requires j <= |t|
    ensures r.Found? ==> r.end <= |t|
  {
    var value := G.ScanValue(t, j);
    if value.Fail? then G.Fail else
    var m := G.Skip(t, value.end);
    var rest := G.ScanMembersTail(t, m);
    if rest.Fail? then G.Fail
    else G.Found([head.(value := value.value, after := t[value.end..m])] + rest.value, rest.end)
  }

  lemma MembersFromKey(t: Text, i: nat)
    requires i <= |t|
    ensures var key := G.ScanKey(t, i);
            G.ScanMembers(t, i) == if key.Fail? then G.Fail else MembersFrom(t, key.end, key.value)
  {
  }

  lemma StartInObject(t: Text, j: nat, below: seq<Frame>, f: Frame)
    requires j <= |t| && f.ObjectFrame?
    ensures (var all := MembersFrom(t, j, f.head);
             Start(t, j, below + [f])
               == if all.Fail? then G.Fail else Finish(t, all.end, below, G.Object([], f.members + all.value)))
  {
    var value := G.ScanValue(t, j);
    if value.Found? {
      var m := G.Skip(t, value.end);
      ObjectFinishes(t, value.end, below, f, value.value);
      RegroupMembers(f.members, f.head.(value := value.value, after := t[value.end..m]), G.ScanMembersTail(t, m));
    }
  }

  lemma ObjectOpens(t: Text, i: nat, frames: seq<Frame>)
    requires i < |t| && t[i] == G.OPEN_OBJECT
    requires G.Skip(t, i + 1) < |t| ==> t[G.Skip(t, i + 1)] != G.CLOSE_OBJECT
    ensures var key := G.ScanKey(t, i + 1);
            Start(t, i, frames) == if key.Fail? then G.Fail else Start(t, key.end, frames + [ObjectFrame([], key.value)])
  {
    var key := G.ScanKey(t, i + 1);
    var members := G.ScanMembers(t, i + 1);
    assert G.ScanValue(t, i) == if members.Fail? then G.Fail else G.Found(G.Object([], members.value), members.end);
    MembersFromKey(t, i + 1);
    if key.Found? {
      StartInObject(t, key.end, frames, ObjectFrame([], key.value));
      assert members.Found? ==> [] + members.value == members.value;
    }
  }

  lemma MembersAfterComma(t: Text, m: nat)
    requires m < |t| && t[m] == G.COMMA
    ensures var key := G.ScanKey(t, m + 1);
            && G.ScanMembersTail(t, m) == (if key.Fail? then G.Fail else MembersFrom(t, key.end, key.value))
            && (key.Found? ==> G.Skip(t, key.end) == key.end)
  {
    MembersFromKey(t, m + 1);
  }

  lemma ObjectContinues(t: Text, k: nat, below: seq<Frame>, f: Frame, c: G.Syntax)
    requires k <= |t| && f.ObjectFrame?
    requires G.Skip(t, k) < |t| && t[G.Skip(t, k)] == G.COMMA
    ensures (var m := G.Skip(t, k);
             var key := G.ScanKey(t, m + 1);
             var member := f.head.(value := c, after := t[k..m]);
             Finish(t, k, below + [f], c)
               == if key.Fail? then G.Fail else Start(t, key.end, below + [ObjectFrame(f.members + [member], key.value)]))
  {
    var m := G.Skip(t, k);
    var member := f.head.(value := c, after := t[k..m]);
    var key := G.ScanKey(t, m + 1);
    ObjectFinishes(t, k, below, f, c);
    MembersAfterComma(t, m);
    if key.Found? {
      StartInObject(t, key.end, below, ObjectFrame(f.members + [member], key.value));
    }
  }

  lemma ObjectCloses(t: Text, k: nat, below: seq<Frame>, f: Frame, c: G.Syntax)
    requires k <= |t| && f.ObjectFrame?
    requires G.Skip(t, k) < |t| && t[G.Skip(t, k)] == G.CLOSE_OBJECT
    ensures (var m := G.Skip(t, k);
             Finish(t, k, below + [f], c)
               == Finish(t, m + 1, below, G.Object([], f.members + [f.head.(value := c, after := t[k..m])])))
  {
    var m := G.Skip(t, k);
    var members := f.members + [f.head.(value := c, after := t[k..m])];
    ObjectFinishes(t, k, below, f, c);
    assert members + [] == members;
  }

  lemma {:induction false} ItemsSnoc(items: seq<G.Item>, item: G.Item, mode: Mode)
    requires G.ValidItems(items) && G.Space(item.before) && G.Valid(item.value) && G.Space(item.after)
    ensures G.ValidItems(items + [item])
    ensures ReadItems(items + [item], mode) == ReadItems(items, mode) + [Read(item.value, mode)]
    ensures LoneKeyInItems(items + [item]) <==> LoneKeyInItems(items) || LoneKey(item.value)
  {
    var all := items + [item];
    if items == [] {
      assert all[0] == item && all[1..] == [];
    } else {
      ItemsSnoc(items[1..], item, mode);
      assert all[0] == items[0] && all[1..] == items[1..] + [item];
    }
  }

  lemma {:induction false} MembersSnoc(members: seq<G.Member>, m: G.Member, mode: Mode)
    requires G.ValidMembers(members) && ValidHead(m) && G.Valid(m.value) && G.Space(m.after)
    ensures G.ValidMembers(members + [m])
    ensures ReadMembers(members + [m], mode) == ReadMembers(members, mode) + [JsonValue.Member(ReadKey(m.key, mode), Read(m.value, mode))]
    ensures LoneKeyInMembers(members + [m]) <==> LoneKeyInMembers(members) || !WellFormed(UnitsOf(m.key)) || LoneKey(m.value)
  {
    var all := members + [m];
    if members == [] {
      assert all[0] == m && all[1..] == [];
    } else {
      MembersSnoc(members[1..], m, mode);
      assert all[0] == members[0] && all[1..] == members[1..] + [m];
    }
  }

  lemma KeyReads(ps: seq<G.Piece>, mode: Mode)
    requires G.ValidPieces(ps)
    ensures var key := KeyReadOf(UnitsOf(ps), mode);
            IntoUnits(key) == ReadKey(ps, mode) && (key.Chars? <==> WellFormed(ReadKey(ps, mode)))
  {
    LossyIsWellFormed(UnitsOf(ps));
  }

  lemma TextKeysSnoc(members: seq<Member>, m: Member)
    ensures TextKeys(members + [m]) <==> TextKeys(members) && WellFormed(m.key)
  {
    var all := members + [m];
    assert all[|members|] == m;
    assert forall k :: 0 <= k < |members| ==> all[k] == members[k];
  }

  /** The members of an object with the one that has just been read. */
  function WithMember(o: Open, done: Value): seq<Member>
    requires !o.OpenArray?
  {
    o.members + [JsonValue.Member(o.key, done)]
  }

  /** The object with the key of its next member; once it is keyed it stays so. */
  function NextOpen(o: Open, done: Value, key: StringRead): Open
    requires !o.OpenArray?
  {
    if o.OpenKeyed? then OpenKeyed(WithMember(o, done), IntoUnits(key)) else OpenWith(WithMember(o, done), key)
  }

  function Closed(o: Open, done: Value): Value {
    match o
    case OpenArray(items) => Value.Array(items + [done])
    case OpenObject(_, _) => Value.Object(WithMember(o, done))
    case OpenKeyed(_, _) => Value.Keyed(WithMember(o, done))
  }

  /** The syntax of a container that closes after the value c. */
  function ClosedSyntax(f: Frame, c: G.Syntax, after: Text): G.Syntax {
    match f
    case ArrayFrame(items, before) => G.Array([], items + [G.Item(before, c, after)])
    case ObjectFrame(members, head) => G.Object([], members + [head.(value := c, after := after)])
  }

  lemma ClosedReads(f: Frame, c: G.Syntax, after: Text, mode: Mode)
    requires ValidFrame(f) && G.Valid(c) && G.Space(after)
    ensures G.Valid(ClosedSyntax(f, c, after))
    ensures Read(ClosedSyntax(f, c, after), mode) == Closed(OpenOf(f, mode), Read(c, mode))
    ensures LoneKey(ClosedSyntax(f, c, after)) <==> LoneFrame(f) || LoneKey(c)
  {
    match f
    case ArrayFrame(items, before) => ItemsSnoc(items, G.Item(before, c, after), mode);
    case ObjectFrame(members, head) =>
      MembersSnoc(members, head.(value := c, after := after), mode);
      TextKeysSnoc(ReadMembers(members, mode), JsonValue.Member(ReadKey(head.key, mode), Read(c, mode)));
  }

  lemma NextObjectReads(f: Frame, c: G.Syntax, after: Text, head: G.Member, mode: Mode)
    requires ValidFrame(f) && f.ObjectFrame? && G.Valid(c) && G.Space(after) && ValidHead(head)
    ensures var next := ObjectFrame(f.members + [f.head.(value := c, after := after)], head);
            && ValidFrame(next)
            && OpenOf(next, mode) == NextOpen(OpenOf(f, mode), Read(c, mode), KeyReadOf(UnitsOf(head.key), mode))
            && (LoneFrame(next) <==> LoneFrame(f) || LoneKey(c) || !WellFormed(UnitsOf(head.key)))
  {
    MembersSnoc(f.members, f.head.(value := c, after := after), mode);
    TextKeysSnoc(ReadMembers(f.members, mode), JsonValue.Member(ReadKey(f.head.key, mode), Read(c, mode)));
    KeyReads(head.key, mode);
  }

  lemma NextArrayReads(f: Frame, c: G.Syntax, after: Text, before: Text, mode: Mode)
    requires ValidFrame(f) && f.ArrayFrame? && G.Valid(c) && G.Space(after) && G.Space(before)
    ensures var next := ArrayFrame(f.items + [G.Item(f.before, c, after)], before);
            && ValidFrame(next)
            && OpenOf(next, mode) == OpenArray(OpenOf(f, mode).items + [Read(c, mode)])
            && (LoneFrame(next) <==> LoneFrame(f) || LoneKey(c))
  {
    ItemsSnoc(f.items, G.Item(f.before, c, after), mode);
  }

  lemma FirstObjectReads(head: G.Member, mode: Mode)
    requires ValidHead(head)
    ensures var f := ObjectFrame([], head);
            && ValidFrame(f)
            && OpenOf(f, mode) == OpenWith([], KeyReadOf(UnitsOf(head.key), mode))
            && (LoneFrame(f) <==> !WellFormed(UnitsOf(head.key)))
  {
    KeyReads(head.key, mode);
  }

  lemma LoneFramesSnoc(below: seq<Frame>, f: Frame)
    requires ValidFrames(below) && ValidFrame(f)
    ensures ValidFrames(below + [f])
    ensures LoneFrames(below + [f]) <==> LoneFrames(below) || LoneFrame(f)
  {
    var all := below + [f];
    assert all[|below|] == f;
    assert forall k :: 0 <= k < |below| ==> all[k] == below[k];
    if LoneFrames(below) {
      var k :| 0 <= k < |below| && LoneFrame(below[k]);
      assert LoneFrame(all[k]);
    }
  }

  /** The stack holds what the frames read as. */
  ghost predicate StackReads(stack: seq<Open>, frames: seq<Frame>, mode: Mode) {
    && ValidFrames(frames)
    && |stack| == |frames|
    && forall k :: 0 <= k < |frames| ==> stack[k] == OpenOf(frames[k], mode)
  }

  /** After a value inside a container there is a comma or the end of the container. */
  lemma FinishesNoLater(t: Text, k: nat, below: seq<Frame>, f: Frame, c: G.Syntax)
    requires k <= |t|
    requires var m := G.Skip(t, k);
             m < |t| ==> t[m] != G.COMMA && t[m] != (if f.ArrayFrame? then G.CLOSE_ARRAY else G.CLOSE_OBJECT)
    ensures Finish(t, k, below + [f], c) == G.Fail
  {
    if f.ArrayFrame? {
      ArrayFinishes(t, k, below, f, c);
    } else {
      ObjectFinishes(t, k, below, f, c);
    }
  }

  /** Whether a key of some object of the document holds a half with no partner. */
  predicate LoneIn(t: Text) {
    var r := G.ScanDocument(t);
    U.DocumentSound(t);
    r.Found? && LoneKey(r.value.value)
  }

  lemma ParsedIsTree(t: Text, mode: Mode)
    ensures TreeOf(t).Fail? ==> Parsed(t, mode) == None
    ensures TreeOf(t).Found? ==>
              && G.Valid(TreeOf(t).value)
              && Parsed(t, mode) == Some(Read(TreeOf(t).value, mode))
              && (LoneIn(t) <==> LoneKey(TreeOf(t).value))
    ensures TreeOf(t) == Start(t, G.Skip(t, 0), [])
  {
    U.DocumentSound(t);
  }

  lemma KeyIsValid(t: Text, from: nat)
    requires from <= |t|
    ensures G.ScanKey(t, from).Found? ==> ValidHead(G.ScanKey(t, from).value)
  {
    U.KeySound(t, from);
  }

  /** The reader is about to read a value inside the frames. */
  ghost predicate AtValue(t: Text, mode: Mode, i: nat, stack: seq<Open>, frames: seq<Frame>, lone: bool)
    requires i <= |t|
  {
    && StackReads(stack, frames, mode)
    && TreeOf(t) == Start(t, G.Skip(t, i), frames)
    && (lone <==> mode == Exact && LoneFrames(frames))
  }

  /** The reader has read the value c inside the frames. */
  ghost predicate AtEnd(t: Text, mode: Mode, i: nat, stack: seq<Open>, frames: seq<Frame>, lone: bool, c: G.Syntax, done: Value)
    requires i <= |t|
  {
    && StackReads(stack, frames, mode)
    && G.Valid(c) && done == Read(c, mode)
    && TreeOf(t) == Finish(t, i, frames, c)
    && (lone <==> mode == Exact && (LoneFrames(frames) || LoneKey(c)))
  }

  lemma SplitLast(frames: seq<Frame>)
    requires frames != []
    ensures frames == frames[..|frames| - 1] + [frames[|frames| - 1]]
  {
  }

  lemma PopReads(stack: seq<Open>, frames: seq<Frame>, mode: Mode)
    requires StackReads(stack, frames, mode) && stack != []
    ensures var n := |frames| - 1;
            && frames == frames[..n] + [frames[n]]
            && StackReads(stack[..n], frames[..n], mode)
            && stack[n] == OpenOf(frames[n], mode)
            && (LoneFrames(frames) <==> LoneFrames(frames[..n]) || LoneFrame(frames[n]))
  {
    var n := |frames| - 1;
    SplitLast(frames);
    assert ValidFrames(frames[..n]);
    LoneFramesSnoc(frames[..n], frames[n]);
  }

  lemma PushReads(stack: seq<Open>, frames: seq<Frame>, mode: Mode, f: Frame)
    requires StackReads(stack, frames, mode) && ValidFrame(f)
    ensures StackReads(stack + [OpenOf(f, mode)], frames + [f], mode)
    ensures LoneFrames(frames + [f]) <==> LoneFrames(frames) || LoneFrame(f)
  {
    LoneFramesSnoc(frames, f);
  }
}
