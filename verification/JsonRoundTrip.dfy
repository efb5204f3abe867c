/** What is printed is read back: the writer and the reader of `json.rs` together. */
module JsonRoundTrip {
  import opened Common
  import opened Utf16
  import opened Decimal
  import opened JsonValue
  import opened JsonOrder
  import opened JsonReader
  import opened JsonWriter
  import opened JsonParser
  import G = JsonGrammar
  import U = JsonUnambiguous

  /** No number in the value is a zero with a sign. */
  predicate Settled(v: Value)
    decreases v
  {
    match v
    case Number(n) => Unsigned(n) == n
    case Array(items) => forall k :: 0 <= k < |items| ==> Settled(items[k])
    case Object(members) => forall k :: 0 <= k < |members| ==> Settled(members[k].value)
    case Keyed(members) => forall k :: 0 <= k < |members| ==> Settled(members[k].value)
    case _ => true
  }

  // ---- the tree a value is printed as ----

  function SyntaxOf(v: Value, indent: bool, depth: nat): G.Syntax
    requires Proper(v)
    decreases v
  {
    match v
    case Null => G.NullWord
    case Bool(b) => G.BoolWord(b)
    case Number(n) => G.Number(LayoutOf(n))
    case String(s) => G.String(QuotePieces(s))
    case Units(u) => G.String(QuotePieces(u))
    case Array(items) => G.Array([], ItemsOf(items, indent, depth + 1))
    case Object(members) => G.Object([], MembersOf(members, indent, depth + 1))
    case Keyed(members) => G.Object([], MembersOf(members, indent, depth + 1))
  }

  function ItemsOf(items: seq<Value>, indent: bool, depth: nat): (r: seq<G.Item>)
    requires depth > 0
    requires forall k :: 0 <= k < |items| ==> Proper(items[k])
    ensures |r| == |items|
    decreases items
  {
    if items == [] then []
    else
      var after := if |items| == 1 then Break(indent, depth - 1) else [];
      [G.Item(Break(indent, depth), SyntaxOf(items[0], indent, depth), after)] + ItemsOf(items[1..], indent, depth)
  }

  function MembersOf(members: seq<Member>, indent: bool, depth: nat): (r: seq<G.Member>)
    requires depth > 0
    requires forall k :: 0 <= k < |members| ==> Proper(members[k].value)
    ensures |r| == |members|
    decreases members
  {
    if members == [] then []
    else
      var after := if |members| == 1 then Break(indent, depth - 1) else [];
      [G.Member(Break(indent, depth), QuotePieces(members[0].key), [], Behind(indent),
                SyntaxOf(members[0].value, indent, depth), after)]
      + MembersOf(members[1..], indent, depth)
  }

  lemma LeafIsValid(v: Value, indent: bool, depth: nat)
    requires Proper(v) && !v.Array? && !v.Object? && !v.Keyed?
    ensures G.Valid(SyntaxOf(v, indent, depth))
    ensures Settled(v) ==> Read(SyntaxOf(v, indent, depth), Whole) == v
  {
    match v
    case Null =>
    case Bool(b) =>
    case Number(n) => LayoutReadsBack(n);
    case String(s) => QuoteReadsBack(s);
    case Units(u) => QuoteReadsBack(u);
  }

  lemma {:induction false} SyntaxOfValid(v: Value, indent: bool, depth: nat)
    requires Proper(v)
    ensures G.Valid(SyntaxOf(v, indent, depth))
    ensures Settled(v) ==> Read(SyntaxOf(v, indent, depth), Whole) == v
    decreases v, 1
  {
    match v
    case Array(items) => ArrayIsValid(items, indent, depth);
    case Object(members) => ObjectIsValid(v, indent, depth);
    case Keyed(members) => ObjectIsValid(v, indent, depth);
    case _ => LeafIsValid(v, indent, depth);
  }

  lemma {:induction false} ArrayIsValid(items: seq<Value>, indent: bool, depth: nat)
    requires Proper(Value.Array(items))
    ensures G.Valid(SyntaxOf(Value.Array(items), indent, depth))
    ensures Settled(Value.Array(items)) ==> Read(SyntaxOf(Value.Array(items), indent, depth), Whole) == Value.Array(items)
    decreases Value.Array(items), 0
  {
    ItemsOfValid(items, indent, depth + 1);
  }

  lemma {:induction false} ObjectIsValid(v: Value, indent: bool, depth: nat)
    requires Proper(v) && (v.Object? || v.Keyed?)
    ensures G.Valid(SyntaxOf(v, indent, depth))
    ensures Settled(v) ==> Read(SyntaxOf(v, indent, depth), Whole) == v
    decreases v, 0
  {
    MembersOfValid(v.members, indent, depth + 1);
  }

  lemma {:induction false} ItemsOfValid(items: seq<Value>, indent: bool, depth: nat)
    requires depth > 0
    requires forall k :: 0 <= k < |items| ==> Proper(items[k])
    ensures G.ValidItems(ItemsOf(items, indent, depth))
    ensures (forall k :: 0 <= k < |items| ==> Settled(items[k])) ==> ReadItems(ItemsOf(items, indent, depth), Whole) == items
    decreases items
  {
    if items != [] {
      SyntaxOfValid(items[0], indent, depth);
      ItemsOfValid(items[1..], indent, depth);
      assert ItemsOf(items, indent, depth)[1..] == ItemsOf(items[1..], indent, depth);
      assert items == [items[0]] + items[1..];
    }
  }

  lemma {:induction false} MembersOfValid(members: seq<Member>, indent: bool, depth: nat)
    requires depth > 0
    requires forall k :: 0 <= k < |members| ==> Proper(members[k].value)
    ensures G.ValidMembers(MembersOf(members, indent, depth))
    ensures (forall k :: 0 <= k < |members| ==> Settled(members[k].value)) ==>
              ReadMembers(MembersOf(members, indent, depth), Whole) == members
    decreases members
  {
    if members != [] {
      SyntaxOfValid(members[0].value, indent, depth);
      MembersOfValid(members[1..], indent, depth);
      QuoteReadsBack(members[0].key);
      assert MembersOf(members, indent, depth)[1..] == MembersOf(members[1..], indent, depth);
      assert members == [members[0]] + members[1..];
    }
  }

  lemma NoGap(open: Text, tail: Text)
    ensures open + [] + tail == open + tail
    ensures [] + tail == tail
  {
  }

  lemma ArrayIsSyntax(items: seq<Value>, indent: bool, depth: nat)
    requires Proper(Value.Array(items))
    requires PrintItems(items, indent, depth + 1, false)
          == PrintedItems(items, indent, depth + 1, false)
    ensures Print(Value.Array(items), indent, depth) == G.SyntaxText(SyntaxOf(Value.Array(items), indent, depth))
  {
    var r := ItemsOf(items, indent, depth + 1);
    var tail := if items == [] then [G.CLOSE_ARRAY] else G.ItemsText(r);
    NoGap([G.OPEN_ARRAY], tail);
  }

  lemma MembersAreSyntax(members: seq<Member>, indent: bool, depth: nat)
    requires forall k :: 0 <= k < |members| ==> Proper(members[k].value)
    requires PrintMembers(members, indent, depth + 1, false)
          == PrintedMembers(members, indent, depth + 1, false)
    ensures [G.OPEN_OBJECT] + PrintMembers(members, indent, depth + 1, false)
         == G.SyntaxText(G.Object([], MembersOf(members, indent, depth + 1)))
  {
    var r := MembersOf(members, indent, depth + 1);
    var tail := if members == [] then [G.CLOSE_OBJECT] else G.MembersText(r);
    NoGap([G.OPEN_OBJECT], tail);
  }

  /** What is left of an array, by way of its tree. */
  function PrintedItems(items: seq<Value>, indent: bool, depth: nat, written: bool): Text
    requires depth > 0
    requires forall k :: 0 <= k < |items| ==> Proper(items[k])
  {
    if items == [] then Break(indent && written, depth - 1) + [G.CLOSE_ARRAY]
    else Comma(written) + G.ItemsText(ItemsOf(items, indent, depth))
  }

  function PrintedMembers(members: seq<Member>, indent: bool, depth: nat, written: bool): Text
    requires depth > 0
    requires forall k :: 0 <= k < |members| ==> Proper(members[k].value)
  {
    if members == [] then Break(indent && written, depth - 1) + [G.CLOSE_OBJECT]
    else Comma(written) + G.MembersText(MembersOf(members, indent, depth))
  }

  lemma LeafIsSyntax(v: Value, indent: bool, depth: nat)
    requires Proper(v) && !v.Array? && !v.Object? && !v.Keyed?
    ensures Print(v, indent, depth) == G.SyntaxText(SyntaxOf(v, indent, depth))
  {
    match v
    case Null =>
    case Bool(b) =>
    case Number(n) => NumberTextIsLiteral(n);
    case String(s) => QuoteReadsBack(s);
    case Units(u) => QuoteReadsBack(u);
  }

  /** The text is the one the tree is written as. */
  lemma {:induction false} PrintIsSyntax(v: Value, indent: bool, depth: nat)
    requires Proper(v)
    ensures Print(v, indent, depth) == G.SyntaxText(SyntaxOf(v, indent, depth))
    decreases v, 2
  {
    match v
    case Array(items) => PrintArrayIsSyntax(items, indent, depth);
    case Object(members) => PrintObjectIsSyntax(members, indent, depth);
    case Keyed(members) => PrintKeyedIsSyntax(members, indent, depth);
    case _ => LeafIsSyntax(v, indent, depth);
  }

  lemma {:induction false} PrintArrayIsSyntax(items: seq<Value>, indent: bool, depth: nat)
    requires Proper(Value.Array(items))
    ensures Print(Value.Array(items), indent, depth) == G.SyntaxText(SyntaxOf(Value.Array(items), indent, depth))
    decreases Value.Array(items), 1
  {
    PrintItemsIsSyntax(items, indent, depth + 1, false);
    ArrayIsSyntax(items, indent, depth);
  }

  lemma {:induction false} PrintObjectIsSyntax(members: seq<Member>, indent: bool, depth: nat)
    requires Proper(Value.Object(members))
    ensures Print(Value.Object(members), indent, depth) == G.SyntaxText(SyntaxOf(Value.Object(members), indent, depth))
    decreases Value.Object(members), 1
  {
    PrintMembersIsSyntax(members, indent, depth + 1, false);
    MembersAreSyntax(members, indent, depth);
  }

  lemma {:induction false} PrintKeyedIsSyntax(members: seq<Member>, indent: bool, depth: nat)
    requires Proper(Value.Keyed(members))
    ensures Print(Value.Keyed(members), indent, depth) == G.SyntaxText(SyntaxOf(Value.Keyed(members), indent, depth))
    decreases Value.Keyed(members), 1
  {
    PrintMembersIsSyntax(members, indent, depth + 1, false);
    MembersAreSyntax(members, indent, depth);
  }

  lemma RegroupItem(comma: Text, before: Text, value: Text, gap: Text, close: Text)
    ensures comma + before + value + (gap + close) == comma + (before + value + gap + close)
    ensures comma + before + value + close == comma + (before + value + [] + close)
  {
  }

  lemma {:induction false} PrintItemsIsSyntax(items: seq<Value>, indent: bool, depth: nat, written: bool)
    requires depth > 0
    requires forall k :: 0 <= k < |items| ==> Proper(items[k])
    ensures PrintItems(items, indent, depth, written) == PrintedItems(items, indent, depth, written)
    decreases items, 1
  {
    if items != [] {
      PrintIsSyntax(items[0], indent, depth);
      PrintItemsIsSyntax(items[1..], indent, depth, true);
      var r := ItemsOf(items, indent, depth);
      assert r[1..] == ItemsOf(items[1..], indent, depth);
      assert G.ItemsText(r) == G.ItemText(r[0]) + G.ItemsTail(r[1..]);
      RegroupItem(Comma(written), Break(indent, depth), Print(items[0], indent, depth), r[0].after, G.ItemsTail(r[1..]));
    }
  }

  lemma RegroupMember(comma: Text, before: Text, key: Text, colon: Text, behind: Text, value: Text, gap: Text, close: Text)
    ensures comma + before + key + colon + behind + value + (gap + close)
         == comma + (before + key + [] + colon + behind + value + gap + close)
    ensures comma + before + key + colon + behind + value + close
         == comma + (before + key + [] + colon + behind + value + [] + close)
  {
  }

  lemma {:induction false} PrintMembersIsSyntax(members: seq<Member>, indent: bool, depth: nat, written: bool)
    requires depth > 0
    requires forall k :: 0 <= k < |members| ==> Proper(members[k].value)
    ensures PrintMembers(members, indent, depth, written) == PrintedMembers(members, indent, depth, written)
    decreases members, 1
  {
    if members != [] {
      PrintIsSyntax(members[0].value, indent, depth);
      PrintMembersIsSyntax(members[1..], indent, depth, true);
      QuoteReadsBack(members[0].key);
      var r := MembersOf(members, indent, depth);
      assert r[1..] == MembersOf(members[1..], indent, depth);
      assert G.MembersText(r) == G.MemberText(r[0]) + G.MembersTail(r[1..]);
      RegroupMember(Comma(written), Break(indent, depth), Quote(members[0].key), [G.COLON], Behind(indent),
                    Print(members[0].value, indent, depth), r[0].after, G.MembersTail(r[1..]));
    }
  }

  // ---- the printed text is text ----

  /** Well-formed, and with no half at either end. */
  predicate Clean(s: Text) {
    WellFormed(s) && (s != [] ==> !IsHalf(s[0]) && !IsHalf(s[|s| - 1]))
  }

  lemma CleanConcat(a: Text, b: Text)
    requires Clean(a) && Clean(b)
    ensures Clean(a + b)
  {
    ConcatReads(a, b);
    if a == [] {
      assert a + b == b;
    } else if b == [] {
      assert a + b == a;
    }
  }

  lemma AsciiIsClean(s: Text)
    requires forall k :: 0 <= k < |s| ==> !IsHalf(s[k])
    ensures Clean(s)
  {
    AsciiIsWellFormed(s);
  }

  lemma PieceIsClean(u: Unit, lone: bool)
    requires IsHalf(u) ==> lone
    ensures Clean(G.PieceText(QuotePiece(u, lone)))
  {
    var t := G.PieceText(QuotePiece(u, lone));
    AsciiIsClean(t);
  }

  lemma {:induction false} BodyIsWellFormed(s: Text, k: nat)
    requires k <= |s|
    requires k < |s| && IsLow(s[k]) ==> LoneAt(s, k)
    ensures WellFormed(Body(s, k)) && (Body(s, k) != [] ==> !IsLow(Body(s, k)[0]))
    decreases |s| - k
  {
    if k < |s| {
      if IsHigh(s[k]) && !LoneAt(s, k) {
        PairBody(s, k);
      } else {
        PieceIsClean(s[k], LoneAt(s, k));
        if k + 1 < |s| && IsLow(s[k + 1]) {
          assert LoneAt(s, k + 1);
        }
        BodyIsWellFormed(s, k + 1);
        ConcatReads(G.PieceText(QuotePiece(s[k], LoneAt(s, k))), Body(s, k + 1));
      }
    }
  }

  lemma PairText(s: Text, k: nat)
    requires k + 1 < |s| && IsHigh(s[k]) && IsLow(s[k + 1])
    ensures Body(s, k) == [s[k], s[k + 1]] + Body(s, k + 2)
  {
    assert !LoneAt(s, k) && !LoneAt(s, k + 1);
    var rest := Body(s, k + 2);
    assert Body(s, k + 1) == [s[k + 1]] + rest;
    assert Body(s, k) == [s[k]] + Body(s, k + 1);
    Associative([s[k]], [s[k + 1]], rest);
    assert [s[k]] + [s[k + 1]] == [s[k], s[k + 1]];
  }

  lemma {:induction false} PairBody(s: Text, k: nat)
    requires k + 1 < |s| && IsHigh(s[k]) && IsLow(s[k + 1])
    ensures WellFormed(Body(s, k)) && Body(s, k) != [] && !IsLow(Body(s, k)[0])
    decreases |s| - k, 0
  {
    PairText(s, k);
    if k + 2 < |s| && IsLow(s[k + 2]) {
      assert LoneAt(s, k + 2);
    }
    BodyIsWellFormed(s, k + 2);
    PairIsWellFormed(s[k], s[k + 1]);
    ConcatReads([s[k], s[k + 1]], Body(s, k + 2));
  }

  lemma QuoteIsClean(s: Text)
    ensures Clean(Quote(s))
  {
    BodyIsWellFormed(s, 0);
    AsciiIsWellFormed([G.QUOTE]);
    ConcatReads([G.QUOTE], Body(s, 0));
    ConcatReads([G.QUOTE] + Body(s, 0), [G.QUOTE]);
  }

  lemma BreakIsClean(indent: bool, depth: nat)
    ensures Clean(Break(indent, depth)) && Clean(Behind(indent))
  {
    AsciiIsClean(Break(indent, depth));
    AsciiIsClean(Behind(indent));
  }

  lemma DigitTextIsClean(ds: seq<Digit>)
    ensures Clean(DigitText(ds))
  {
    AsciiIsClean(DigitText(ds));
  }

  lemma NumberIsClean(l: Literal)
    requires ValidLiteral(l)
    ensures Clean(LiteralText(l))
  {
    var sign, whole := SignText(l.neg), DigitText(l.whole);
    AsciiIsClean(sign);
    DigitTextIsClean(l.whole);
    CleanConcat(sign, whole);
    AsciiIsClean([DOT]);
    DigitTextIsClean(l.fraction);
    CleanConcat([DOT], DigitText(l.fraction));
    AsciiIsClean([]);
    CleanConcat(sign + whole, FractionText(l.fraction));
    ExponentIsClean(l.exponent);
    CleanConcat(sign + whole + FractionText(l.fraction), ExponentText(l.exponent));
  }

  lemma ExponentIsClean(e: Exponent)
    requires ValidLiteral(Literal(false, [1], [], e))
    ensures Clean(ExponentText(e))
  {
    if e.Exponent? {
      AsciiIsClean([e.mark] + e.sign);
      DigitTextIsClean(e.digits);
      CleanConcat([e.mark] + e.sign, DigitText(e.digits));
    } else {
      AsciiIsClean([]);
    }
  }

  lemma {:induction false} PrintIsClean(v: Value, indent: bool, depth: nat)
    requires Proper(v)
    ensures Clean(Print(v, indent, depth))
    decreases v, 0
  {
    match v
    case Null => AsciiIsClean(G.NULL_WORD);
    case Bool(b) => AsciiIsClean(if b then G.TRUE_WORD else G.FALSE_WORD);
    case Number(n) =>
      NumberTextIsLiteral(n);
      NumberIsClean(LayoutOf(n));
    case String(s) => QuoteIsClean(s);
    case Units(u) => QuoteIsClean(u);
    case Array(items) =>
      PrintItemsIsClean(items, indent, depth + 1, false);
      AsciiIsClean([G.OPEN_ARRAY]);
      CleanConcat([G.OPEN_ARRAY], PrintItems(items, indent, depth + 1, false));
    case Object(members) =>
      PrintMembersIsClean(members, indent, depth + 1, false);
      AsciiIsClean([G.OPEN_OBJECT]);
      CleanConcat([G.OPEN_OBJECT], PrintMembers(members, indent, depth + 1, false));
    case Keyed(members) =>
      PrintMembersIsClean(members, indent, depth + 1, false);
      AsciiIsClean([G.OPEN_OBJECT]);
      CleanConcat([G.OPEN_OBJECT], PrintMembers(members, indent, depth + 1, false));
  }

  lemma CommaIsClean(written: bool)
    ensures Clean(Comma(written))
  {
    AsciiIsClean(Comma(written));
  }

  lemma {:induction false} PrintItemsIsClean(items: seq<Value>, indent: bool, depth: nat, written: bool)
    requires depth > 0
    requires forall k :: 0 <= k < |items| ==> Proper(items[k])
    ensures Clean(PrintItems(items, indent, depth, written))
    decreases items, 1
  {
    if items == [] {
      BreakIsClean(indent && written, depth - 1);
      AsciiIsClean([G.CLOSE_ARRAY]);
      CleanConcat(Break(indent && written, depth - 1), [G.CLOSE_ARRAY]);
    } else {
      CommaIsClean(written);
      BreakIsClean(indent, depth);
      PrintIsClean(items[0], indent, depth);
      PrintItemsIsClean(items[1..], indent, depth, true);
      CleanConcat(Comma(written), Break(indent, depth));
      CleanConcat(Comma(written) + Break(indent, depth), Print(items[0], indent, depth));
      CleanConcat(Comma(written) + Break(indent, depth) + Print(items[0], indent, depth), PrintItems(items[1..], indent, depth, true));
    }
  }

  /** A member up to its value. */
  function NameText(key: Text, indent: bool, depth: nat, written: bool): Text {
    Comma(written) + Break(indent, depth) + Quote(key) + [G.COLON] + Behind(indent)
  }

  lemma NameIsClean(key: Text, indent: bool, depth: nat, written: bool)
    ensures Clean(NameText(key, indent, depth, written))
  {
    CommaIsClean(written);
    BreakIsClean(indent, depth);
    QuoteIsClean(key);
    AsciiIsClean([G.COLON]);
    CleanConcat(Comma(written), Break(indent, depth));
    CleanConcat(Comma(written) + Break(indent, depth), Quote(key));
    CleanConcat(Comma(written) + Break(indent, depth) + Quote(key), [G.COLON]);
    CleanConcat(Comma(written) + Break(indent, depth) + Quote(key) + [G.COLON], Behind(indent));
  }

  lemma {:induction false} PrintMembersIsClean(members: seq<Member>, indent: bool, depth: nat, written: bool)
    requires depth > 0
    requires forall k :: 0 <= k < |members| ==> Proper(members[k].value)
    ensures Clean(PrintMembers(members, indent, depth, written))
    decreases members, 1
  {
    if members == [] {
      BreakIsClean(indent && written, depth - 1);
      AsciiIsClean([G.CLOSE_OBJECT]);
      CleanConcat(Break(indent && written, depth - 1), [G.CLOSE_OBJECT]);
    } else {
      var name := NameText(members[0].key, indent, depth, written);
      NameIsClean(members[0].key, indent, depth, written);
      PrintIsClean(members[0].value, indent, depth);
      PrintMembersIsClean(members[1..], indent, depth, true);
      CleanConcat(name, Print(members[0].value, indent, depth));
      CleanConcat(name + Print(members[0].value, indent, depth), PrintMembers(members[1..], indent, depth, true));
    }
  }

  // ---- the round trip ----

  lemma {:induction false} CanonSettles(v: Value)
    ensures Settled(Canon(v))
    decreases v
  {
    match v
    case Array(items) =>
      forall k | 0 <= k < |items| ensures Settled(Canon(items[k])) {
        CanonSettles(items[k]);
      }
    case Object(members) =>
      forall k | 0 <= k < |members| ensures Settled(Canon(members[k].value)) {
        CanonSettles(members[k].value);
      }
      CanonMembersSettle(members);
    case Keyed(members) =>
      forall k | 0 <= k < |members| ensures Settled(Canon(members[k].value)) {
        CanonSettles(members[k].value);
      }
      CanonMembersSettle(members);
    case _ =>
  }

  lemma CanonMembersSettle(members: seq<Member>)
    requires forall k :: 0 <= k < |members| ==> Settled(Canon(members[k].value))
    ensures forall s :: 0 <= s < |JsOrder(CanonMembers(members))| ==> Settled(JsOrder(CanonMembers(members))[s].value)
  {
    var canon := CanonMembers(members);
    forall s | 0 <= s < |JsOrder(canon)|
      ensures Settled(JsOrder(canon)[s].value)
    {
      JsOrderMembers(canon, s);
    }
  }

  lemma TreeReadsBack(c: G.Syntax, space: Text)
    requires G.Valid(c) && G.Space(space)
    ensures Parsed(G.SyntaxText(c) + space, Whole) == Some(Read(c, Whole))
  {
    var d := G.Document([], c, space);
    U.DocumentFinds(d);
    assert G.DocumentText(d) == G.SyntaxText(c) + space;
  }

  lemma CanonReadsBack(c: Value, indent: bool, space: Text)
    requires Proper(c) && Settled(c) && G.Space(space)
    ensures WellFormed(Print(c, indent, 0))
    ensures Parsed(Print(c, indent, 0) + space, Whole) == Some(c)
  {
    SyntaxOfValid(c, indent, 0);
    PrintIsSyntax(c, indent, 0);
    PrintIsClean(c, indent, 0);
    TreeReadsBack(SyntaxOf(c, indent, 0), space);
  }

  /** A value that can be read prints, in both layouts, to a text of the grammar that reads back as the value in order, white space behind it or not. */
  lemma PrintedReadsBack(v: Value, indent: bool, space: Text)
    requires Proper(v) && G.Space(space)
    ensures WellFormed(Stringified(v, indent))
    ensures Parsed(Stringified(v, indent) + space, Whole) == Some(Canon(v))
  {
    CanonIsProper(v);
    CanonSettles(v);
    CanonReadsBack(Canon(v), indent, space);
  }

  /** `parse_whole(stringify(v, indent))` for every value `parse_whole` returns, and the text printed again. */
  lemma RoundTrip(t: Text, indent: bool)
    requires WellFormed(t) && Parsed(t, Whole).Some?
    ensures var v := Parsed(t, Whole).value;
            && Parsed(Stringified(v, indent), Whole) == Some(Canon(v))
            && Stringified(Canon(v), indent) == Stringified(v, indent)
            && Proper(v) && Canon(Canon(v)) == Canon(v)
  {
    var v := Parsed(t, Whole).value;
    U.DocumentSound(t);
    ReadersAgree(G.ScanDocument(t).value.value);
    PrintedReadsBack(v, indent, []);
    assert Stringified(v, indent) + [] == Stringified(v, indent);
    CanonIsIdempotent(v);
  }

  /** The three readers accept the same texts; `parse` and `parse_exact` return what `parse_whole` does with the lone halves they do not keep as U+FFFD. */
  lemma ReadersAcceptTheSame(t: Text)
    ensures Parsed(t, Plain).Some? <==> Parsed(t, Whole).Some?
    ensures Parsed(t, Exact).Some? <==> Parsed(t, Whole).Some?
    ensures Parsed(t, Whole).Some? <==> exists d :: G.ValidDocument(d) && t == G.DocumentText(d)
    ensures Parsed(t, Whole).Some? ==>
              var v := Parsed(t, Whole).value;
              && Parsed(t, Plain) == Some(LossyValue(v))
              && Parsed(t, Exact) == Some(LossyKeys(v))
              && (LoneIn(t) <==> HasKeyed(v))
  {
    U.DocumentSound(t);
    if Parsed(t, Whole).Some? {
      ReadersAgree(G.ScanDocument(t).value.value);
    }
    if d :| G.ValidDocument(d) && t == G.DocumentText(d) {
      U.DocumentFinds(d);
    }
  }
}
