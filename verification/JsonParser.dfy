/** `Parser` of `json.rs`: a cursor into the text, moved by loops, with a stack of open containers in place of recursion. */
module JsonParser {
  import opened Common
  import opened Utf16
  import opened Decimal
  import opened JsonValue
  import opened JsonReader
  import G = JsonGrammar
  import U = JsonUnambiguous

  /** What the reader does next: nothing, hand on a value that is complete, or read on inside a container. */
  datatype Step = Refused | Complete(value: Value) | Opened(open: Open)

  /** What comes of handing a complete value on: a text that is no document, the document, or a container that goes on. */
  datatype Settled = Failed | Entire(value: Value) | Inside(stack: seq<Open>)

  /** What a step says about the value that starts at j inside the frames, once the cursor is at i. */
  ghost predicate Began(t: Text, mode: Mode, j: nat, frames: seq<Frame>, r: Step, c: G.Syntax, f: Frame, i: nat)
    requires j <= |t| && i <= |t|
  {
    match r
    case Refused => Start(t, j, frames) == G.Fail
    case Complete(v) =>
      && i > j && G.Valid(c) && v == Read(c, mode) && !LoneKey(c)
      && Start(t, j, frames) == Finish(t, i, frames, c)
    case Opened(o) =>
      && i > j && ValidFrame(f) && o == OpenOf(f, mode)
      && Start(t, j, frames) == Start(t, G.Skip(t, i), frames + [f])
  }

  /** What a step says about the container f of the value c, which ended at k, once the cursor is at i. */
  ghost predicate Handed(t: Text, mode: Mode, k: nat, below: seq<Frame>, f: Frame, c: G.Syntax,
                         r: Step, outer: G.Syntax, next: Frame, lone: bool, i: nat)
    requires k <= |t| && i <= |t| && ValidFrame(f) && G.Valid(c)
  {
    match r
    case Refused => Finish(t, k, below + [f], c) == G.Fail
    case Complete(v) =>
      && G.Valid(outer) && v == Read(outer, mode) && !lone
      && (LoneKey(outer) <==> LoneFrame(f) || LoneKey(c))
      && Finish(t, k, below + [f], c) == Finish(t, i, below, outer)
    case Opened(o) =>
      && ValidFrame(next) && o == OpenOf(next, mode)
      && (LoneFrame(next) <==> LoneFrame(f) || LoneKey(c) || lone)
      && Finish(t, k, below + [f], c) == Start(t, G.Skip(t, i), below + [next])
  }

  lemma CloseHands(t: Text, mode: Mode, k: nat, below: seq<Frame>, f: Frame, c: G.Syntax)
    requires k <= |t| && ValidFrame(f) && G.Valid(c) && G.Skip(t, k) < |t|
    requires t[G.Skip(t, k)] == if f.ArrayFrame? then G.CLOSE_ARRAY else G.CLOSE_OBJECT
    ensures var m := G.Skip(t, k);
            Handed(t, mode, k, below, f, c, Complete(Closed(OpenOf(f, mode), Read(c, mode))),
                   ClosedSyntax(f, c, t[k..m]), f, false, m + 1)
  {
    var m := G.Skip(t, k);
    G.SkipsSpace(t, k);
    ClosedReads(f, c, t[k..m], mode);
    if f.ArrayFrame? {
      ArrayCloses(t, k, below, f, c);
    } else {
      ObjectCloses(t, k, below, f, c);
    }
  }

  lemma ItemHands(t: Text, mode: Mode, k: nat, below: seq<Frame>, f: Frame, c: G.Syntax)
    requires k <= |t| && ValidFrame(f) && f.ArrayFrame? && G.Valid(c)
    requires G.Skip(t, k) < |t| && t[G.Skip(t, k)] == G.COMMA
    ensures var m := G.Skip(t, k);
            var next := ArrayFrame(f.items + [G.Item(f.before, c, t[k..m])], t[m + 1..G.Skip(t, m + 1)]);
            Handed(t, mode, k, below, f, c, Opened(OpenArray(OpenOf(f, mode).items + [Read(c, mode)])), c, next, false, m + 1)
  {
    var m := G.Skip(t, k);
    G.SkipsSpace(t, k);
    G.SkipsSpace(t, m + 1);
    NextArrayReads(f, c, t[k..m], t[m + 1..G.Skip(t, m + 1)], mode);
    ArrayContinues(t, k, below, f, c);
  }

  lemma MemberHands(t: Text, mode: Mode, k: nat, below: seq<Frame>, f: Frame, c: G.Syntax, i: nat)
    requires k <= |t| && ValidFrame(f) && f.ObjectFrame? && G.Valid(c)
    requires G.Skip(t, k) < |t| && t[G.Skip(t, k)] == G.COMMA
    requires var key := G.ScanKey(t, G.Skip(t, k) + 1); key.Found? && ValidHead(key.value) && i <= |t| && G.Skip(t, i) == key.end
    ensures var m := G.Skip(t, k);
            var head := G.ScanKey(t, m + 1).value;
            var next := ObjectFrame(f.members + [f.head.(value := c, after := t[k..m])], head);
            Handed(t, mode, k, below, f, c,
                   Opened(NextOpen(OpenOf(f, mode), Read(c, mode), KeyReadOf(UnitsOf(head.key), mode))),
                   c, next, !WellFormed(UnitsOf(head.key)), i)
  {
    var m := G.Skip(t, k);
    G.SkipsSpace(t, k);
    NextObjectReads(f, c, t[k..m], G.ScanKey(t, m + 1).value, mode);
    ObjectContinues(t, k, below, f, c);
  }

  /** What the container makes of a complete value, with the cursor at m, past the white space behind it. */
  function Taken(t: Text, mode: Mode, open: Open, done: Value, m: nat): Step
    requires m <= |t|
  {
    if m == |t| then Refused
    else if t[m] == G.COMMA then
      if open.OpenArray? then Opened(OpenArray(open.items + [done]))
      else
        KeyIsValid(t, m + 1);
        var key := G.ScanKey(t, m + 1);
        if key.Fail? then Refused else Opened(NextOpen(open, done, KeyReadOf(UnitsOf(key.value.key), mode)))
    else if t[m] == (if open.OpenArray? then G.CLOSE_ARRAY else G.CLOSE_OBJECT) then Complete(Closed(open, done))
    else Refused
  }

  /** The key behind the comma at m holds a half with no partner. */
  predicate TakesLoneKey(t: Text, open: Open, m: nat) {
    !open.OpenArray? && m < |t| && t[m] == G.COMMA && G.ScanKey(t, m + 1).Found? &&
    (KeyIsValid(t, m + 1); !WellFormed(UnitsOf(G.ScanKey(t, m + 1).value.key)))
  }

  /** The cursor is where the reading goes on: past the bracket, or at the white space before the next value. */
  predicate TakenTo(t: Text, open: Open, r: Step, m: nat, i: nat)
    requires m <= |t|
  {
    match r
    case Refused => i <= |t|
    case Complete(_) => i == m + 1 <= |t|
    case Opened(_) =>
      && m < i <= |t|
      && (if open.OpenArray? then i == m + 1 else G.ScanKey(t, m + 1).Found? && G.Skip(t, i) == G.ScanKey(t, m + 1).end)
  }

  /** The part of the tree that is open after the value c. */
  function NextFrame(t: Text, f: Frame, c: G.Syntax, k: nat, m: nat): Frame
    requires k <= m < |t|
  {
    match f
    case ArrayFrame(items, before) => ArrayFrame(items + [G.Item(before, c, t[k..m])], t[m + 1..G.Skip(t, m + 1)])
    case ObjectFrame(members, head) =>
      var key := G.ScanKey(t, m + 1);
      if key.Fail? then f else ObjectFrame(members + [head.(value := c, after := t[k..m])], key.value)
  }

  /** A complete value c inside the frame f, and the cursor where the container leaves it. */
  ghost predicate Handing(t: Text, mode: Mode, k: nat, f: Frame, c: G.Syntax, i: nat) {
    && k <= |t| && ValidFrame(f) && G.Valid(c)
    && var m := G.Skip(t, k);
       TakenTo(t, OpenOf(f, mode), Taken(t, mode, OpenOf(f, mode), Read(c, mode), m), m, i)
  }

  /** What the container makes of it is what the grammar does. */
  ghost predicate Agrees(t: Text, mode: Mode, k: nat, below: seq<Frame>, f: Frame, c: G.Syntax, i: nat)
    requires Handing(t, mode, k, f, c, i)
  {
    var m := G.Skip(t, k);
    var r := Taken(t, mode, OpenOf(f, mode), Read(c, mode), m);
    Handed(t, mode, k, below, f, c, r, ClosedSyntax(f, c, t[k..m]), if r.Opened? then NextFrame(t, f, c, k, m) else f,
           TakesLoneKey(t, OpenOf(f, mode), m), i)
  }

  lemma CommaIsTaken(t: Text, mode: Mode, f: Frame, c: G.Syntax, k: nat, m: nat)
    requires k <= m < |t| && t[m] == G.COMMA && ValidFrame(f) && f.ArrayFrame? && G.Valid(c)
    ensures Taken(t, mode, OpenOf(f, mode), Read(c, mode), m) == Opened(OpenArray(OpenOf(f, mode).items + [Read(c, mode)]))
    ensures NextFrame(t, f, c, k, m) == ArrayFrame(f.items + [G.Item(f.before, c, t[k..m])], t[m + 1..G.Skip(t, m + 1)])
    ensures !TakesLoneKey(t, OpenOf(f, mode), m)
  {
  }

  lemma ItemTaken(t: Text, mode: Mode, k: nat, below: seq<Frame>, f: Frame, c: G.Syntax, i: nat)
    requires Handing(t, mode, k, f, c, i)
    requires f.ArrayFrame? && G.Skip(t, k) < |t| && t[G.Skip(t, k)] == G.COMMA
    ensures Agrees(t, mode, k, below, f, c, i)
  {
    CommaIsTaken(t, mode, f, c, k, G.Skip(t, k));
    ItemHands(t, mode, k, below, f, c);
  }

  lemma NoKeyTaken(t: Text, mode: Mode, k: nat, below: seq<Frame>, f: Frame, c: G.Syntax, i: nat)
    requires Handing(t, mode, k, f, c, i)
    requires f.ObjectFrame? && G.Skip(t, k) < |t| && t[G.Skip(t, k)] == G.COMMA && G.ScanKey(t, G.Skip(t, k) + 1).Fail?
    ensures Agrees(t, mode, k, below, f, c, i)
  {
    ObjectContinues(t, k, below, f, c);
  }

  lemma KeyTaken(t: Text, mode: Mode, k: nat, below: seq<Frame>, f: Frame, c: G.Syntax, i: nat)
    requires Handing(t, mode, k, f, c, i)
    requires f.ObjectFrame? && G.Skip(t, k) < |t| && t[G.Skip(t, k)] == G.COMMA && G.ScanKey(t, G.Skip(t, k) + 1).Found?
    ensures Agrees(t, mode, k, below, f, c, i)
  {
    KeyIsValid(t, G.Skip(t, k) + 1);
    MemberHands(t, mode, k, below, f, c, i);
  }

  lemma CloseTaken(t: Text, mode: Mode, k: nat, below: seq<Frame>, f: Frame, c: G.Syntax, i: nat)
    requires Handing(t, mode, k, f, c, i)
    requires G.Skip(t, k) < |t| ==> t[G.Skip(t, k)] != G.COMMA
    ensures Agrees(t, mode, k, below, f, c, i)
  {
    var m := G.Skip(t, k);
    if m < |t| && t[m] == if f.ArrayFrame? then G.CLOSE_ARRAY else G.CLOSE_OBJECT {
      CloseHands(t, mode, k, below, f, c);
    } else {
      FinishesNoLater(t, k, below, f, c);
    }
  }

  lemma TakenHands(t: Text, mode: Mode, k: nat, below: seq<Frame>, f: Frame, c: G.Syntax, i: nat)
    requires Handing(t, mode, k, f, c, i)
    ensures Agrees(t, mode, k, below, f, c, i)
  {
    var m := G.Skip(t, k);
    if m == |t| || t[m] != G.COMMA {
      CloseTaken(t, mode, k, below, f, c, i);
    } else if f.ArrayFrame? {
      ItemTaken(t, mode, k, below, f, c, i);
    } else if G.ScanKey(t, m + 1).Fail? {
      NoKeyTaken(t, mode, k, below, f, c, i);
    } else {
      KeyTaken(t, mode, k, below, f, c, i);
    }
  }

  lemma EmptyObjectBegins(t: Text, mode: Mode, j: nat, frames: seq<Frame>)
    requires j < |t| && t[j] == G.OPEN_OBJECT && G.Skip(t, j + 1) < |t| && t[G.Skip(t, j + 1)] == G.CLOSE_OBJECT
    ensures var m := G.Skip(t, j + 1);
            Began(t, mode, j, frames, Complete(Value.Object([])), G.Object(t[j + 1..m], []), ArrayFrame([], []), m + 1)
  {
    G.SkipsSpace(t, j + 1);
  }

  /** What the first key of an object says of the value that starts with it. */
  lemma ObjectBegins(t: Text, mode: Mode, j: nat, frames: seq<Frame>, r: Step, c: G.Syntax, f: Frame, i: nat)
    requires j < |t| && i <= |t| && !r.Complete?
    requires var key := G.ScanKey(t, j + 1);
             && (r.Refused? <==> key.Fail?)
             && Start(t, j, frames) == (if key.Fail? then G.Fail else Start(t, key.end, frames + [ObjectFrame([], key.value)]))
             && (key.Found? ==> f == ObjectFrame([], key.value) && ValidFrame(f) && r.open == OpenOf(f, mode) && i > j && G.Skip(t, i) == key.end)
    ensures Began(t, mode, j, frames, r, c, f, i)
  {
  }

  class Parser {
    const text: Text
    const exact: bool
    const keepKeys: bool
    var i: nat
    var loneKey: bool

    ghost predicate Valid()
      reads this
    {
      i <= |text| && WellFormed(text) && (keepKeys ==> exact)
    }

    constructor (text: Text, exact: bool, keepKeys: bool)
      requires WellFormed(text) && (keepKeys ==> exact)
      ensures Valid() && i == 0 && !loneKey
      ensures this.text == text && this.exact == exact && this.keepKeys == keepKeys
    {
      this.text, this.exact, this.keepKeys := text, exact, keepKeys;
      i, loneKey := 0, false;
    }

    function Mode(): Mode {
      if keepKeys then Whole else if exact then Exact else Plain
    }

    method SkipSpace()
      requires Valid()
      modifies `i
      ensures Valid() && i == G.Skip(text, old(i))
    {
      while i < |text| && G.IsSpace(text[i])
        invariant i <= |text|
        invariant G.Skip(text, old(i)) == G.Skip(text, i)
      {
        i := i + 1;
      }
    }

    method Digits()
      requires Valid()
      modifies `i
      ensures Valid() && i == G.DigitsEnd(text, old(i))
    {
      while i < |text| && G.IsDigit(text[i])
        invariant i <= |text|
        invariant G.DigitsEnd(text, old(i)) == G.DigitsEnd(text, i)
      {
        i := i + 1;
      }
    }

    method DigitsAtLeastOne() returns (some: bool)
      requires Valid()
      modifies `i
      ensures Valid() && i == G.DigitsEnd(text, old(i))
      ensures some <==> i > old(i)
    {
      var before := i;
      Digits();
      some := i > before;
    }

    method Word(word: Text, value: Value, ghost c: G.Syntax) returns (r: Option<Value>)
      requires Valid() && word != []
      requires G.Valid(c) && value == Read(c, Mode())
      modifies `i
      ensures Valid()
      ensures match G.ScanWord(text, old(i), word, c)
              case Fail => r == None
              case Found(found, end) => found == c && r == Some(value) && i == end
    {
      if i + |word| <= |text| && text[i..i + |word|] == word {
        i := i + |word|;
        r := Some(value);
      } else {
        r := None;
      }
    }

    method WholePart() returns (ok: bool)
      requires Valid()
      modifies `i
      ensures Valid()
      ensures match G.ScanWhole(text, old(i)) case Fail => !ok case Found(_, end) => ok && i == end
    {
      if i == |text| {
        return false;
      }
      var first := text[i];
      i := i + 1;
      if first == ZERO {
        ok := true;
      } else if G.IsDigit(first) {
        Digits();
        ok := true;
      } else {
        ok := false;
      }
    }

    method FractionPart() returns (ok: bool)
      requires Valid()
      modifies `i
      ensures Valid()
      ensures match G.ScanFraction(text, old(i)) case Fail => !ok case Found(_, end) => ok && i == end
    {
      ok := true;
      if i < |text| && text[i] == DOT {
        i := i + 1;
        ok := DigitsAtLeastOne();
      }
    }

    method ExponentPart() returns (ok: bool)
      requires Valid()
      modifies `i
      ensures Valid()
      ensures match G.ScanExponent(text, old(i)) case Fail => !ok case Found(_, end) => ok && i == end
    {
      ok := true;
      if i < |text| && (text[i] == LOWER_E || text[i] == UPPER_E) {
        i := i + 1;
        if i < |text| && (text[i] == PLUS || text[i] == MINUS) {
          i := i + 1;
        }
        ok := DigitsAtLeastOne();
      }
    }

    /** The parts of a number are checked first; then the text they span is read as one decimal. */
    method Number() returns (r: Option<Value>)
      requires Valid()
      modifies `i
      ensures Valid()
      ensures match G.ScanNumber(text, old(i))
              case Fail => r == None
              case Found(l, end) => r == Some(JsonValue.Number(ValueOf(l))) && i == end
    {
      var start := i;
      if i < |text| && text[i] == MINUS {
        i := i + 1;
      }
      var ok := WholePart();
      if ok {
        ok := FractionPart();
      }
      if ok {
        ok := ExponentPart();
      }
      r := if ok then Some(JsonValue.Number(ValueOf(G.ScanNumber(text, start).value))) else None;
    }

    /** The end of the run of plain characters at the cursor. */
    method PlainRun() returns (run: nat)
      requires Valid()
      ensures i <= run <= |text|
      ensures forall k :: i <= k < run ==> G.IsPlain(text[k])
      ensures run < |text| ==> !G.IsPlain(text[run])
    {
      run := i;
      while run < |text| && G.IsPlain(text[run])
        invariant i <= run <= |text|
        invariant forall k :: i <= k < run ==> G.IsPlain(text[k])
      {
        run := run + 1;
      }
    }

    /** The escape at the cursor, added to what was read before it. */
    method Escape(out: StringRead, ghost start: nat, ghost pieces: seq<G.Piece>)
      returns (r: Option<StringRead>, ghost all: seq<G.Piece>)
      requires Valid() && start < i < |text| && text[i] == G.BACKSLASH
      requires G.ValidPieces(pieces)
      requires G.ScanPieces(text, start + 1) == Prepend(pieces, G.ScanPieces(text, i))
      requires out == StringReadOf(UnitsOf(pieces), exact)
      requires EndsHigh(UnitsOf(pieces)) ==> !LowNext(text, i)
      modifies `i
      ensures Valid() && i > old(i)
      ensures r == None ==> G.ScanPieces(text, start + 1) == G.Fail
      ensures r.Some? ==> StringState(text, start, i, all, r.value, exact)
    {
      all := pieces;
      if i + 1 == |text| {
        i := i + 1;
        return None, all;
      }
      var letter := text[i + 1];
      if G.IsEscape(letter) {
        CharStep(text, start, i, pieces, out, exact, G.Escape(letter), i + 2);
        i := i + 2;
        return Some(PushStr(out, [EscapeUnit(letter)])), pieces + [G.Escape(letter)];
      }
      var escape := if letter == G.LETTER_U then UnicodeEscape(text, i) else None;
      if escape == None {
        i := i + 2;
        return None, all;
      }
      var read;
      read, all := UnicodeUnits(out, escape.value, start, pieces);
      r := Some(read);
    }

    /** A backslash-u escape, or the two that make up one character. */
    method UnicodeUnits(out: StringRead, escape: EscapeRead, ghost start: nat, ghost pieces: seq<G.Piece>)
      returns (r: StringRead, ghost all: seq<G.Piece>)
      requires Valid() && start < i < |text| && UnicodeEscape(text, i) == Some(escape)
      requires G.ValidPieces(pieces)
      requires G.ScanPieces(text, start + 1) == Prepend(pieces, G.ScanPieces(text, i))
      requires out == StringReadOf(UnitsOf(pieces), exact)
      requires EndsHigh(UnitsOf(pieces)) ==> !LowNext(text, i)
      modifies `i
      ensures Valid() && i > old(i)
      ensures StringState(text, start, i, all, r, exact)
    {
      var at := i;
      i := i + escape.len;
      match escape.chars
      case None =>
        HalfStep(text, start, at, pieces, out, exact);
        all := pieces + [HexPiece(text, at)];
        r := if exact then PushLone(out, CodeUnit(text, at).value) else PushStr(out, [REPLACEMENT]);
      case Some(chars) =>
        r := PushStr(out, chars);
        if |chars| == 2 {
          PairStep(text, start, at, pieces, out, exact, chars);
          all := pieces + [HexPiece(text, at)] + [HexPiece(text, at + 6)];
        } else {
          CharStep(text, start, at, pieces, out, exact, HexPiece(text, at), at + 6);
          all := pieces + [HexPiece(text, at)];
        }
    }

    /** A string literal, with the cursor on the opening quote. */
    method ReadLiteral() returns (r: Option<StringRead>)
      requires Valid() && i < |text| && text[i] == G.QUOTE
      modifies `i
      ensures Valid()
      ensures match G.ScanPieces(text, old(i) + 1)
              case Fail => r == None
              case Found(ps, end) => G.ValidPieces(ps) && r == Some(StringReadOf(UnitsOf(ps), exact)) && i == end
    {
      ghost var start := i;
      ghost var pieces: seq<G.Piece> := [];
      var out := Chars([]);
      i := i + 1;
      StringStateStart(text, start, exact);
      while true
        invariant Valid()
        invariant StringState(text, start, i, pieces, out, exact)
        decreases |text| - i
      {
        var run := PlainRun();
        if run == |text| {
          RunScans(text, i, run);
          return None;
        }
        RunStep(text, start, i, run, pieces, out, exact);
        pieces := pieces + RawRun(text, i, run);
        out := PushStr(out, text[i..run]);
        i := run;
        if text[i] == G.QUOTE {
          i := i + 1;
          assert pieces + [] == pieces;
          return Some(out);
        }
        if text[i] != G.BACKSLASH {
          return None;
        }
        var next;
        next, pieces := Escape(out, start, pieces);
        if next == None {
          return None;
        }
        out := next.value;
      }
    }

    /** The text of a key, with the cursor on the opening quote: unless keys are kept, a lone half in it reads as U+FFFD and is reported. */
    method KeyText() returns (r: Option<StringRead>)
      requires Valid() && i < |text| && text[i] == G.QUOTE
      modifies this
      ensures Valid()
      ensures match G.ScanPieces(text, old(i) + 1)
              case Fail => r == None
              case Found(ps, end) =>
                && G.ValidPieces(ps) && r == Some(KeyReadOf(UnitsOf(ps), Mode())) && i == end
                && loneKey == (old(loneKey) || (Mode() == Exact && !WellFormed(UnitsOf(ps))))
    {
      var literal := ReadLiteral();
      if literal == None {
        return None;
      }
      var key := literal.value;
      if key.Halves? && !keepKeys {
        loneKey := true;
        key := Chars(Lossy(key.units));
      }
      ghost var u := UnitsOf(G.ScanPieces(text, old(i) + 1).value);
      LossyIsWellFormed(u);
      r := Some(key);
    }

    /** A key and its colon, with the cursor where the key should start; `from` is where the white space before it began. */
    method Key(ghost from: nat) returns (r: Option<StringRead>)
      requires Valid() && from <= |text| && G.Skip(text, from) == i
      modifies this
      ensures Valid()
      ensures match G.ScanKey(text, from)
              case Fail => r == None
              case Found(head, end) =>
                && G.ValidPieces(head.key) && r == Some(KeyReadOf(UnitsOf(head.key), Mode()))
                && old(i) <= i <= end && G.Skip(text, i) == end
                && loneKey == (old(loneKey) || (Mode() == Exact && !WellFormed(UnitsOf(head.key))))
    {
      if i == |text| || text[i] != G.QUOTE {
        return None;
      }
      r := KeyText();
      if r == None {
        return None;
      }
      SkipSpace();
      if i == |text| || text[i] != G.COLON {
        return None;
      }
      i := i + 1;
    }

    /** A value starts here: a scalar or an empty container, which is complete at once, or a container that opens. */
    method Begin(ghost frames: seq<Frame>) returns (r: Step, ghost c: G.Syntax, ghost f: Frame)
      requires Valid() && G.Skip(text, i) == i
      modifies this
      ensures Valid()
      ensures Began(text, Mode(), old(i), frames, r, c, f, i)
      ensures !r.Refused? ==> loneKey == (old(loneKey) || (r.Opened? && Mode() == Exact && LoneFrame(f)))
    {
      c, f := G.NullWord, ArrayFrame([], []);
      if i == |text| {
        return Refused, c, f;
      }
      var first := text[i];
      if first == G.OPEN_ARRAY {
        r, c, f := BeginArray(frames);
      } else if first == G.OPEN_OBJECT {
        r, c, f := BeginObject(frames);
      } else {
        var scalar;
        scalar, c := Scalar(first);
        r := if scalar.Some? then Complete(scalar.value) else Refused;
      }
    }

    method Scalar(first: Unit) returns (r: Option<Value>, ghost c: G.Syntax)
      requires Valid() && i < |text| && text[i] == first
      requires first != G.OPEN_ARRAY && first != G.OPEN_OBJECT
      modifies `i
      ensures Valid()
      ensures match G.ScanValue(text, old(i))
              case Fail => r == None
              case Found(found, end) => c == found && G.Valid(c) && r == Some(Read(c, Mode())) && i == end && !LoneKey(c)
    {
      c := G.NullWord;
      U.ValueSound(text, i);
      ghost var scan := G.ScanValue(text, i);
      if first == G.QUOTE {
        var literal := ReadLiteral();
        r := if literal.Some? then Some(IntoValue(literal.value)) else None;
      } else if first == 0x74 {
        r := Word(G.TRUE_WORD, Bool(true), G.BoolWord(true));
      } else if first == 0x66 {
        r := Word(G.FALSE_WORD, Bool(false), G.BoolWord(false));
      } else if first == 0x6E {
        r := Word(G.NULL_WORD, Null, G.NullWord);
      } else if first == MINUS || G.IsDigit(first) {
        r := Number();
      } else {
        r := None;
      }
      if scan.Found? {
        c := scan.value;
      }
    }

    method BeginArray(ghost frames: seq<Frame>) returns (r: Step, ghost c: G.Syntax, ghost f: Frame)
      requires Valid() && i < |text| && text[i] == G.OPEN_ARRAY
      modifies `i
      ensures Valid()
      ensures Began(text, Mode(), old(i), frames, r, c, f, i)
      ensures r.Opened? ==> !LoneFrame(f)
    {
      c, f := G.NullWord, ArrayFrame([], []);
      ghost var start := i;
      i := i + 1;
      SkipSpace();
      G.SkipsSpace(text, start + 1);
      if i == |text| {
        ArrayOpens(text, start, frames);
        return Refused, c, f;
      }
      if text[i] == G.CLOSE_ARRAY {
        c := G.Array(text[start + 1..i], []);
        i := i + 1;
        r := Complete(Value.Array([]));
      } else {
        ArrayOpens(text, start, frames);
        f := ArrayFrame([], text[start + 1..i]);
        r := Opened(OpenArray([]));
      }
    }

    method BeginObject(ghost frames: seq<Frame>) returns (r: Step, ghost c: G.Syntax, ghost f: Frame)
      requires Valid() && i < |text| && text[i] == G.OPEN_OBJECT
      modifies this
      ensures Valid()
      ensures Began(text, Mode(), old(i), frames, r, c, f, i)
      ensures !r.Refused? ==> loneKey == (old(loneKey) || (r.Opened? && Mode() == Exact && LoneFrame(f)))
    {
      c, f := G.NullWord, ArrayFrame([], []);
      ghost var start := i;
      i := i + 1;
      SkipSpace();
      if i < |text| && text[i] == G.CLOSE_OBJECT {
        EmptyObjectBegins(text, Mode(), start, frames);
        c := G.Object(text[start + 1..i], []);
        i := i + 1;
        r := Complete(Value.Object([]));
      } else {
        ObjectOpens(text, start, frames);
        r, f := FirstMember(start + 1);
        ObjectBegins(text, Mode(), start, frames, r, c, f, i);
      }
    }

    /** The first key of an object. */
    method FirstMember(ghost from: nat) returns (r: Step, ghost f: Frame)
      requires Valid() && from <= |text| && G.Skip(text, from) == i
      modifies this
      ensures Valid()
      ensures r.Refused? <==> G.ScanKey(text, from).Fail?
      ensures !r.Refused? ==>
        && r.Opened? && i >= old(i)
        && f == ObjectFrame([], G.ScanKey(text, from).value) && ValidFrame(f) && r.open == OpenOf(f, Mode())
        && G.Skip(text, i) == G.ScanKey(text, from).end
        && loneKey == (old(loneKey) || (Mode() == Exact && LoneFrame(f)))
    {
      f := ArrayFrame([], []);
      KeyIsValid(text, from);
      var key := Key(from);
      if key == None {
        return Refused, f;
      }
      ghost var head := G.ScanKey(text, from).value;
      FirstObjectReads(head, Mode());
      f := ObjectFrame([], head);
      r := Opened(OpenWith([], key.value));
    }

    /** A value is complete: hand it to the container it sits in, which closes or goes on. */
    method Hand(open: Open, done: Value) returns (r: Step)
      requires Valid()
      modifies this
      ensures Valid()
      ensures r == Taken(text, Mode(), open, done, old(i)) && TakenTo(text, open, r, old(i), i)
      ensures !r.Refused? ==> loneKey == (old(loneKey) || (Mode() == Exact && TakesLoneKey(text, open, old(i))))
    {
      if i == |text| {
        return Refused;
      }
      var mark := text[i];
      i := i + 1;
      if mark == G.COMMA {
        if open.OpenArray? {
          r := Opened(OpenArray(open.items + [done]));
        } else {
          r := NextMember(open, done);
        }
      } else if mark == (if open.OpenArray? then G.CLOSE_ARRAY else G.CLOSE_OBJECT) {
        r := Complete(Closed(open, done));
      } else {
        r := Refused;
      }
    }

    /** The key after a comma, with the member before it added to the object. */
    method NextMember(open: Open, done: Value) returns (r: Step)
      requires Valid() && !open.OpenArray?
      modifies this
      ensures Valid()
      ensures match G.ScanKey(text, old(i))
              case Fail => r == Refused
              case Found(head, end) =>
                && G.ValidPieces(head.key) && r == Opened(NextOpen(open, done, KeyReadOf(UnitsOf(head.key), Mode())))
                && i >= old(i) && G.Skip(text, i) == end
                && loneKey == (old(loneKey) || (Mode() == Exact && !WellFormed(UnitsOf(head.key))))
    {
      ghost var from := i;
      SkipSpace();
      var key := Key(from);
      r := if key.Some? then Opened(NextOpen(open, done, key.value)) else Refused;
    }

    /** Hands a complete value on until a container goes on, or nothing is open. */
    method Settle(open: seq<Open>, value: Value, ghost around: seq<Frame>, ghost tree: G.Syntax)
      returns (r: Settled, ghost frames: seq<Frame>, ghost c: G.Syntax)
      requires Valid() && AtEnd(text, Mode(), i, open, around, loneKey, tree, value)
      modifies this
      ensures Valid() && (r.Failed? || i >= old(i))
      ensures match r
              case Failed => TreeOf(text) == G.Fail
              case Entire(v) => AtEnd(text, Mode(), i, [], [], loneKey, c, v) && G.Skip(text, i) == |text|
              case Inside(stack) => AtValue(text, Mode(), i, stack, frames, loneKey)
    {
      var stack, done := open, value;
      frames, c := around, tree;
      while true
        invariant Valid() && i >= old(i)
        invariant AtEnd(text, Mode(), i, stack, frames, loneKey, c, done)
        decreases |stack|
      {
        ghost var k := i;
        SkipSpace();
        if stack == [] {
          r := if i == |text| then Entire(done) else Failed;
          return;
        }
        PopReads(stack, frames, Mode());
        ghost var top := frames[|frames| - 1];
        var container := stack[|stack| - 1];
        stack := stack[..|stack| - 1];
        frames := frames[..|frames| - 1];
        ghost var m := i;
        var step := Hand(container, done);
        TakenHands(text, Mode(), k, frames, top, c, i);
        match step
        case Refused =>
          return Failed, frames, c;
        case Opened(o) =>
          ghost var next := NextFrame(text, top, c, k, m);
          PushReads(stack, frames, Mode(), next);
          return Inside(stack + [o]), frames + [next], c;
        case Complete(v) =>
          done, c := v, ClosedSyntax(top, c, text[k..m]);
      }
    }

    method Document() returns (r: Option<Value>)
      requires Valid() && i == 0 && !loneKey
      modifies this
      ensures Valid()
      ensures r == Parsed(text, Mode())
      ensures Mode() == Exact && r.Some? ==> (loneKey <==> LoneIn(text))
    {
      var stack: seq<Open> := [];
      ghost var frames: seq<Frame> := [];
      ParsedIsTree(text, Mode());
      while true
        invariant Valid()
        invariant AtValue(text, Mode(), i, stack, frames, loneKey)
        decreases |text| - i
      {
        SkipSpace();
        var step;
        ghost var c, f;
        step, c, f := Begin(frames);
        match step
        case Refused =>
          return None;
        case Opened(o) =>
          PushReads(stack, frames, Mode(), f);
          stack, frames := stack + [o], frames + [f];
        case Complete(v) =>
          var settled;
          settled, frames, c := Settle(stack, v, frames, c);
          match settled {
            case Failed => return None;
            case Entire(done) => return Some(done);
            case Inside(open) => stack := open;
          }
      }
    }
  }

  /** The three readers. */
  method Parse(text: Text) returns (r: Option<Value>)
    requires WellFormed(text)
    ensures r == Parsed(text, Plain)
  {
    var parser := new Parser(text, false, false);
    r := parser.Document();
  }

  method ParseExact(text: Text) returns (r: Option<Value>, loneKey: bool)
    requires WellFormed(text)
    ensures r == Parsed(text, Exact)
    ensures r.Some? ==> (loneKey <==> LoneIn(text))
  {
    var parser := new Parser(text, true, false);
    r := parser.Document();
    loneKey := parser.loneKey;
  }

  method ParseWhole(text: Text) returns (r: Option<Value>)
    requires WellFormed(text)
    ensures r == Parsed(text, Whole)
  {
    var parser := new Parser(text, true, true);
    r := parser.Document();
  }
}
