/** The printer of `json.rs`: `quote`, `quote_units` and `stringify` in its two layouts. */
module JsonWriter {
  import opened Common
  import opened Utf16
  import opened Decimal
  import opened JsonValue
  import opened JsonOrder
  import G = JsonGrammar

  // ---- strings ----

  function HexDigit(n: nat): Unit
    requires n < 16
  {
    if n < 10 then 0x30 + n else 0x61 + n - 10
  }

  /** A backslash-u escape in lower case. */
  function HexEscape(u: Unit): G.Piece {
    var q := u / 16;
    var r := q / 16;
    G.Hex(HexDigit(r / 16), HexDigit(r % 16), HexDigit(q % 16), HexDigit(u % 16))
  }

  /** How one unit of a string is written; a half with no partner and a control character only as an escape. */
  function QuotePiece(u: Unit, lone: bool): G.Piece {
    if u == 0x22 || u == 0x5C then G.Escape(u)
    else if u == 0x08 then G.Escape(0x62)
    else if u == 0x0C then G.Escape(0x66)
    else if u == 0x0A then G.Escape(0x6E)
    else if u == 0x0D then G.Escape(0x72)
    else if u == 0x09 then G.Escape(0x74)
    else if lone || u < 0x20 then HexEscape(u)
    else G.Raw(u)
  }

  function QuotePieces(s: Text): (r: seq<G.Piece>)
    ensures |r| == |s|
  {
    seq(|s|, k requires 0 <= k < |s| => QuotePiece(s[k], LoneAt(s, k)))
  }

  /** What stands between the quotes from unit k on. */
  function Body(s: Text, k: nat): Text
    requires k <= |s|
    decreases |s| - k
  {
    if k == |s| then [] else G.PieceText(QuotePiece(s[k], LoneAt(s, k))) + Body(s, k + 1)
  }

  /** `JSON.stringify` of a string. */
  function Quote(s: Text): Text {
    [G.QUOTE] + Body(s, 0) + [G.QUOTE]
  }

  lemma HexDigitReads(n: nat)
    requires n < 16
    ensures G.IsHex(HexDigit(n)) && HexValue(HexDigit(n)) == n
  {
  }

  lemma HexEscapeReads(u: Unit)
    ensures G.ValidPiece(HexEscape(u)) && PieceUnit(HexEscape(u)) == u
  {
    var q := u / 16;
    var r := q / 16;
    HexDigitReads(r / 16);
    HexDigitReads(r % 16);
    HexDigitReads(q % 16);
    HexDigitReads(u % 16);
  }

  lemma QuotePieceReads(u: Unit, lone: bool)
    ensures G.ValidPiece(QuotePiece(u, lone)) && PieceUnit(QuotePiece(u, lone)) == u
  {
    HexEscapeReads(u);
  }

  /** A quoted string reads back as itself, halves with no partner included. */
  lemma QuoteReadsBack(s: Text)
    ensures G.ValidPieces(QuotePieces(s)) && UnitsOf(QuotePieces(s)) == s
    ensures Quote(s) == G.StringText(QuotePieces(s))
  {
    forall k | 0 <= k < |s|
      ensures G.ValidPiece(QuotePieces(s)[k]) && PieceUnit(QuotePieces(s)[k]) == s[k]
    {
      QuotePieceReads(s[k], LoneAt(s, k));
    }
    BodyIsPieces(s, 0);
    assert QuotePieces(s)[0..] == QuotePieces(s);
    assert [G.QUOTE] + Body(s, 0) + [G.QUOTE] == [G.QUOTE] + (Body(s, 0) + [G.QUOTE]);
  }

  lemma {:induction false} BodyIsPieces(s: Text, k: nat)
    requires k <= |s|
    ensures Body(s, k) + [G.QUOTE] == G.PiecesText(QuotePieces(s)[k..])
    decreases |s| - k
  {
    if k < |s| {
      BodyIsPieces(s, k + 1);
      var ps := QuotePieces(s);
      assert ps[k..][0] == ps[k] && ps[k..][1..] == ps[k + 1..];
      assert Body(s, k) + [G.QUOTE] == G.PieceText(ps[k]) + (Body(s, k + 1) + [G.QUOTE]);
    }
  }

  /** A stretch with no lone half is written as it would be on its own. */
  lemma {:induction false} BodyOfRun(s: Text, lo: nat, hi: nat, k: nat)
    requires lo <= k <= hi <= |s|
    requires forall j :: lo <= j < hi ==> !LoneAt(s, j)
    requires WellFormed(s[lo..hi])
    ensures Body(s, k) == Body(s[lo..hi], k - lo) + Body(s, hi)
    decreases hi - k
  {
    var run := s[lo..hi];
    if k < hi {
      BodyOfRun(s, lo, hi, k + 1);
      assert run[k - lo] == s[k];
      var first := G.PieceText(QuotePiece(s[k], false));
      assert !LoneAt(s, k) && !LoneAt(run, k - lo);
      assert first + (Body(run, k + 1 - lo) + Body(s, hi)) == first + Body(run, k + 1 - lo) + Body(s, hi);
    } else {
      assert [] + Body(s, hi) == Body(s, hi);
    }
  }

  /** Between two steps of `quote_units`: the run has yet to be written, and no pair is cut at i. */
  ghost predicate QuoteState(units: Text, out: Text, run: Text, i: nat) {
    && |run| <= i <= |units| && run == units[i - |run|..i]
    && WellFormed(run) && (run != [] ==> !IsHigh(run[|run| - 1]))
    && (i < |units| && IsLow(units[i]) ==> LoneAt(units, i))
    && (forall j :: i - |run| <= j < i ==> !LoneAt(units, j))
    && [G.QUOTE] + Body(units, 0) == out + Body(units, i - |run|)
  }

  lemma CharacterIsWhole(units: Text, i: nat, n: nat)
    requires i < |units| && !LoneAt(units, i)
    requires !IsLow(units[i])
    requires n == if IsHigh(units[i]) then 2 else 1
    ensures i + n <= |units| && WellFormed(units[i..i + n])
    ensures forall j :: i <= j < i + n ==> !LoneAt(units, j)
    ensures !IsHigh(units[i + n - 1])
    ensures i + n < |units| && IsLow(units[i + n]) ==> LoneAt(units, i + n)
  {
  }

  lemma Adjacent(s: Text, a: nat, b: nat, c: nat)
    requires a <= b <= c <= |s|
    ensures s[a..b] + s[b..c] == s[a..c]
  {
  }

  lemma RunGrows(units: Text, out: Text, run: Text, i: nat, n: nat)
    requires QuoteState(units, out, run, i) && i < |units|
    requires n == if IsHigh(units[i]) then 2 else 1
    requires !LoneAt(units, i)
    ensures i + n <= |units| && QuoteState(units, out, run + units[i..i + n], i + n)
  {
    CharacterIsWhole(units, i, n);
    var more := units[i..i + n];
    ConcatReads(run, more);
    Adjacent(units, i - |run|, i, i + n);
  }

  lemma Associative(a: Text, b: Text, c: Text)
    ensures a + (b + c) == a + b + c
  {
  }

  lemma RunWritten(units: Text, out: Text, run: Text, i: nat)
    requires QuoteState(units, out, run, i)
    ensures [G.QUOTE] + Body(units, 0) == out + Body(run, 0) + Body(units, i)
  {
    BodyOfRun(units, i - |run|, i, i - |run|);
    Associative(out, Body(run, 0), Body(units, i));
  }

  lemma AfterHalf(units: Text, i: nat)
    requires i < |units| && LoneAt(units, i)
    ensures Body(units, i) == G.PieceText(QuotePiece(units[i], true)) + Body(units, i + 1)
    ensures i + 1 < |units| && IsLow(units[i + 1]) ==> LoneAt(units, i + 1)
  {
  }

  lemma HalfWritten(units: Text, out: Text, run: Text, i: nat)
    requires QuoteState(units, out, run, i) && i < |units| && LoneAt(units, i)
    ensures QuoteState(units, out + Body(run, 0) + G.PieceText(QuotePiece(units[i], true)), [], i + 1)
  {
    RunWritten(units, out, run, i);
    AfterHalf(units, i);
    HalfBehind(units, out + Body(run, 0), i);
  }

  lemma HalfBehind(units: Text, out: Text, i: nat)
    requires i < |units| && LoneAt(units, i)
    ensures out + Body(units, i) == out + G.PieceText(QuotePiece(units[i], true)) + Body(units, i + 1)
  {
    Associative(out, G.PieceText(QuotePiece(units[i], true)), Body(units, i + 1));
  }

  /** `quote_units`: runs of whole characters, and an escape for each half between them. */
  method QuoteUnits(units: Text) returns (out: Text)
    ensures out == Quote(units)
  {
    out := [G.QUOTE];
    var run: Text := [];
    var i := 0;
    while i < |units|
      invariant QuoteState(units, out, run, i)
    {
      if IsHigh(units[i]) && i + 1 < |units| && IsLow(units[i + 1]) {
        RunGrows(units, out, run, i, 2);
        run, i := run + units[i..i + 2], i + 2;
      } else if IsHalf(units[i]) {
        HalfWritten(units, out, run, i);
        out := out + Body(run, 0) + G.PieceText(QuotePiece(units[i], true));
        run, i := [], i + 1;
      } else {
        RunGrows(units, out, run, i, 1);
        run, i := run + units[i..i + 1], i + 1;
      }
    }
    RunWritten(units, out, run, i);
    Unfinished([G.QUOTE] + Body(units, 0), out + Body(run, 0));
    out := out + Body(run, 0) + [G.QUOTE];
  }

  lemma Unfinished(a: Text, b: Text)
    ensures a == b + [] ==> a == b
  {
  }

  // ---- values ----

  function Newline(depth: nat): (r: Text)
    ensures G.Space(r)
  {
    [0x0A] + seq(2 * depth, _ => 0x20)
  }

  /** The line break of the indented layout. */
  function Break(indent: bool, depth: nat): (r: Text)
    ensures G.Space(r)
  {
    if indent then Newline(depth) else []
  }

  function Behind(indent: bool): (r: Text)
    ensures G.Space(r)
  {
    if indent then [0x20] else []
  }

  function Comma(written: bool): Text {
    if written then [G.COMMA] else []
  }

  /** The text of a value whose members are in order. */
  function Print(v: Value, indent: bool, depth: nat): (r: Text)
    ensures r != []
    decreases v
  {
    match v
    case Null => G.NULL_WORD
    case Bool(b) => if b then G.TRUE_WORD else G.FALSE_WORD
    case Number(n) => NumberTextFirst(n); NumberText(n)
    case String(s) => Quote(s)
    case Units(u) => Quote(u)
    case Array(items) => [G.OPEN_ARRAY] + PrintItems(items, indent, depth + 1, false)
    case Object(members) => [G.OPEN_OBJECT] + PrintMembers(members, indent, depth + 1, false)
    case Keyed(members) => [G.OPEN_OBJECT] + PrintMembers(members, indent, depth + 1, false)
  }

  lemma NumberTextFirst(n: Decimal)
    ensures NumberText(n) != []
  {
  }

  /** What is left of an array: the items still to come, and the bracket. */
  function PrintItems(items: seq<Value>, indent: bool, depth: nat, written: bool): (r: Text)
    requires depth > 0
    ensures r != []
    decreases items
  {
    if items == [] then Break(indent && written, depth - 1) + [G.CLOSE_ARRAY]
    else
      Comma(written) + Break(indent, depth) + Print(items[0], indent, depth)
      + PrintItems(items[1..], indent, depth, true)
  }

  function PrintMembers(members: seq<Member>, indent: bool, depth: nat, written: bool): (r: Text)
    requires depth > 0
    ensures r != []
    decreases members
  {
    if members == [] then Break(indent && written, depth - 1) + [G.CLOSE_OBJECT]
    else
      Comma(written) + Break(indent, depth) + Quote(members[0].key) + [G.COLON] + Behind(indent)
      + Print(members[0].value, indent, depth)
      + PrintMembers(members[1..], indent, depth, true)
  }

  /** `JSON.stringify(value)`, or `JSON.stringify(value, null, 2)` with `indent`. */
  function Stringified(v: Value, indent: bool): Text {
    Print(Canon(v), indent, 0)
  }

  // ---- the printer ----

  /** A container being printed: the members still to come, and whether one has been written. */
  datatype Level = ItemLevel(items: seq<Value>, written: bool) | MemberLevel(members: seq<Member>, written: bool)

  function LevelText(l: Level, indent: bool, depth: nat): Text
    requires depth > 0
  {
    match l
    case ItemLevel(items, written) => PrintItems(CanonItems(items), indent, depth, written)
    case MemberLevel(members, written) => PrintMembers(CanonMembers(members), indent, depth, written)
  }

  function RestText(open: seq<Level>, indent: bool): Text
    decreases |open|
  {
    if open == [] then []
    else LevelText(open[|open| - 1], indent, |open|) + RestText(open[..|open| - 1], indent)
  }

  function PendingText(pending: Option<Value>, indent: bool, depth: nat): Text {
    match pending
    case None => []
    case Some(v) => Print(Canon(v), indent, depth)
  }

  /** A scalar's text, or the opening of a container and the level that goes with it: `begin`. */
  method Begin(v: Value, indent: bool, ghost depth: nat) returns (text: Text, level: Option<Level>)
    ensures text != []
    ensures Print(Canon(v), indent, depth) == text + (match level case None => [] case Some(l) => LevelText(l, indent, depth + 1))
  {
    level := None;
    match v
    case Null => text := G.NULL_WORD;
    case Bool(b) => text := if b then G.TRUE_WORD else G.FALSE_WORD;
    case Number(n) =>
      NumberTextFirst(n);
      text := NumberText(n);
    case String(s) => text := Quote(s);
    case Units(u) => text := QuoteUnits(u);
    case Array(items) =>
      text := [G.OPEN_ARRAY];
      level := Some(ItemLevel(items, false));
    case Object(members) =>
      JsOrderCanon(members);
      text := [G.OPEN_OBJECT];
      var ordered := OrderMembers(members);
      level := Some(MemberLevel(ordered, false));
    case Keyed(members) =>
      JsOrderCanon(members);
      text := [G.OPEN_OBJECT];
      var ordered := OrderMembers(members);
      level := Some(MemberLevel(ordered, false));
  }

  /** `js_order`: a slot for each key, found again by a map, and then the stable sort. */
  method OrderMembers(members: seq<Member>) returns (r: seq<Member>)
    ensures r == JsOrder(members)
  {
    var slots: seq<Member> := [];
    var at: map<Text, nat> := map[];
    for k := 0 to |members|
      invariant slots == Collapse(members[..k])
      invariant forall key :: key in at <==> Has(slots, key)
      invariant forall key :: key in at ==> at[key] == SlotOf(slots, key)
    {
      var m := members[k];
      assert members[..k + 1][..k] == members[..k];
      if m.key in at {
        ghost var before := slots;
        slots := slots[at[m.key] := Member(m.key, m.value)];
        SameSlots(before, slots);
      } else {
        NewSlotAtEnd(slots, m);
        at := at[m.key := |slots|];
        slots := slots + [m];
      }
    }
    assert members[..|members|] == members;
    r := SortByIndex(slots);
  }

  lemma {:induction false} SlotOfSame(a: seq<Member>, b: seq<Member>, key: Text)
    requires |a| == |b| && forall k :: 0 <= k < |a| ==> a[k].key == b[k].key
    ensures SlotOf(a, key) == SlotOf(b, key)
  {
    if a != [] {
      SlotOfSame(a[1..], b[1..], key);
    }
  }

  lemma SameSlots(a: seq<Member>, b: seq<Member>)
    requires |a| == |b| && forall k :: 0 <= k < |a| ==> a[k].key == b[k].key
    ensures forall key :: Has(a, key) <==> Has(b, key)
    ensures forall key :: SlotOf(a, key) == SlotOf(b, key)
  {
    forall key: Text
      ensures SlotOf(a, key) == SlotOf(b, key)
      ensures Has(a, key) <==> Has(b, key)
    {
      SlotOfSame(a, b, key);
      HasBySlot(a, key);
      HasBySlot(b, key);
    }
  }

  lemma HasBySlot(a: seq<Member>, key: Text)
    ensures Has(a, key) <==> SlotOf(a, key) < |a|
  {
  }

  lemma {:induction false} SlotOfSnoc(a: seq<Member>, m: Member, key: Text)
    ensures SlotOf(a + [m], key) == if SlotOf(a, key) < |a| then SlotOf(a, key) else if m.key == key then |a| else |a| + 1
  {
    if a != [] {
      SlotOfSnoc(a[1..], m, key);
      assert (a + [m])[1..] == a[1..] + [m];
    } else {
      assert [m][1..] == [];
    }
  }

  lemma NewSlotAtEnd(slots: seq<Member>, m: Member)
    requires !Has(slots, m.key)
    ensures forall key :: Has(slots + [m], key) <==> Has(slots, key) || key == m.key
    ensures forall key :: Has(slots + [m], key) ==> SlotOf(slots + [m], key) == if key == m.key then |slots| else SlotOf(slots, key)
  {
    forall key: Text
      ensures Has(slots + [m], key) <==> Has(slots, key) || key == m.key
      ensures Has(slots + [m], key) ==> SlotOf(slots + [m], key) == if key == m.key then |slots| else SlotOf(slots, key)
    {
      SlotOfSnoc(slots, m, key);
      HasBySlot(slots, key);
      HasBySlot(slots + [m], key);
    }
  }

  /** The next member of a level, or its end. */
  lemma LevelStep(l: Level, indent: bool, depth: nat)
    requires depth > 0
    ensures l.ItemLevel? && l.items == [] ==> LevelText(l, indent, depth) == Break(indent && l.written, depth - 1) + [G.CLOSE_ARRAY]
    ensures l.MemberLevel? && l.members == [] ==> LevelText(l, indent, depth) == Break(indent && l.written, depth - 1) + [G.CLOSE_OBJECT]
    ensures l.ItemLevel? && l.items != [] ==>
              LevelText(l, indent, depth) ==
              Comma(l.written) + Break(indent, depth)
              + Print(Canon(l.items[0]), indent, depth) + LevelText(ItemLevel(l.items[1..], true), indent, depth)
    ensures l.MemberLevel? && l.members != [] ==>
              LevelText(l, indent, depth) ==
              Comma(l.written) + Break(indent, depth) + Quote(l.members[0].key) + [G.COLON] + Behind(indent)
              + Print(Canon(l.members[0].value), indent, depth) + LevelText(MemberLevel(l.members[1..], true), indent, depth)
  {
  }

  /** One step inside a container: its end, or the separator and the name of its next member, which is then pending. */
  method Advance(level: Level, indent: bool, depth: nat) returns (text: Text, next: Option<Level>, member: Option<Value>)
    requires depth > 0
    ensures next == None ==> member == None && text != [] && LevelText(level, indent, depth) == text
    ensures next.Some? ==> member.Some?
    ensures next.Some? ==>
              LevelText(level, indent, depth) == text + Print(Canon(member.value), indent, depth) + LevelText(next.value, indent, depth)
  {
    LevelStep(level, indent, depth);
    match level
    case ItemLevel(items, written) =>
      if items == [] {
        text, next, member := Break(indent && written, depth - 1) + [G.CLOSE_ARRAY], None, None;
      } else {
        text := Comma(written) + Break(indent, depth);
        next, member := Some(ItemLevel(items[1..], true)), Some(items[0]);
      }
    case MemberLevel(members, written) =>
      if members == [] {
        text, next, member := Break(indent && written, depth - 1) + [G.CLOSE_OBJECT], None, None;
      } else {
        var name := QuoteUnits(members[0].key);
        text := Comma(written) + Break(indent, depth) + name + [G.COLON] + Behind(indent);
        next, member := Some(MemberLevel(members[1..], true)), Some(members[0].value);
      }
  }

  /** What has been written, what is about to be, and what the open containers still hold. */
  function StateText(out: Text, pending: Option<Value>, open: seq<Level>, indent: bool): Text {
    out + PendingText(pending, indent, |open|) + RestText(open, indent)
  }

  lemma Regroup(out: Text, text: Text, value: Text, more: Text, rest: Text)
    ensures out + (text + more) + rest == out + text + [] + (more + rest)
    ensures out + [] + (text + (value + more) + rest) == out + text + value + (more + rest)
    ensures out + [] + (text + rest) == out + text + [] + rest
    ensures out + (text + []) + rest == out + text + [] + rest
  {
  }

  lemma RestSnoc(below: seq<Level>, level: Level, indent: bool)
    ensures RestText(below + [level], indent) == LevelText(level, indent, |below| + 1) + RestText(below, indent)
  {
    assert (below + [level])[..|below|] == below;
  }

  lemma BegunLevel(open: seq<Level>, indent: bool, out: Text, text: Text, level: Level, v: Value)
    requires Print(Canon(v), indent, |open|) == text + LevelText(level, indent, |open| + 1)
    ensures StateText(out, Some(v), open, indent) == StateText(out + text, None, open + [level], indent)
  {
    RestSnoc(open, level, indent);
    Regroup(out, text, [], LevelText(level, indent, |open| + 1), RestText(open, indent));
  }

  lemma BegunScalar(open: seq<Level>, indent: bool, out: Text, text: Text, v: Value)
    requires Print(Canon(v), indent, |open|) == text + []
    ensures StateText(out, Some(v), open, indent) == StateText(out + text, None, open, indent)
  {
    Regroup(out, text, [], [], RestText(open, indent));
  }

  lemma LevelEnds(open: seq<Level>, indent: bool, out: Text, text: Text)
    requires open != [] && LevelText(open[|open| - 1], indent, |open|) == text
    ensures StateText(out, None, open, indent) == StateText(out + text, None, open[..|open| - 1], indent)
  {
    Regroup(out, text, [], [], RestText(open[..|open| - 1], indent));
  }

  lemma LevelGoesOn(open: seq<Level>, indent: bool, out: Text, text: Text, next: Level, member: Value)
    requires open != []
    requires LevelText(open[|open| - 1], indent, |open|)
          == text + Print(Canon(member), indent, |open|) + LevelText(next, indent, |open|)
    ensures StateText(out, None, open, indent)
         == StateText(out + text, Some(member), open[..|open| - 1] + [next], indent)
  {
    var below := open[..|open| - 1];
    RestSnoc(below, next, indent);
    var value, more := Print(Canon(member), indent, |open|), LevelText(next, indent, |open|);
    Associative(text, value, more);
    Regroup(out, text, value, more, RestText(below, indent));
  }

  method Stringify(value: Value, indent: bool) returns (out: Text)
    ensures out == Stringified(value, indent)
  {
    out := [];
    var open: seq<Level> := [];
    var pending := Some(value);
    ghost var whole := Stringified(value, indent);
    assert StateText(out, pending, open, indent) == [] + whole + [];
    while true
      invariant whole == StateText(out, pending, open, indent)
      decreases |whole| - |out|, if pending.Some? then 0 else 1
    {
      if pending.Some? {
        out, open := Enter(out, open, indent, pending.value);
      }
      if open == [] {
        assert StateText(out, None, open, indent) == out;
        return;
      }
      out, open, pending := Move(out, open, indent);
    }
  }

  method Enter(written: Text, around: seq<Level>, indent: bool, value: Value) returns (out: Text, open: seq<Level>)
    ensures |out| > |written|
    ensures StateText(out, None, open, indent) == StateText(written, Some(value), around, indent)
  {
    var text, level := Begin(value, indent, |around|);
    out := written + text;
    match level
    case None =>
      BegunScalar(around, indent, written, text, value);
      open := around;
    case Some(l) =>
      BegunLevel(around, indent, written, text, l, value);
      open := around + [l];
  }

  method Move(written: Text, around: seq<Level>, indent: bool) returns (out: Text, open: seq<Level>, pending: Option<Value>)
    requires around != []
    ensures |out| >= |written| && (pending.None? ==> |out| > |written|)
    ensures StateText(out, pending, open, indent) == StateText(written, None, around, indent)
  {
    var depth := |around|;
    var text, next, member := Advance(around[depth - 1], indent, depth);
    out, pending := written + text, member;
    match next
    case None =>
      LevelEnds(around, indent, written, text);
      open := around[..depth - 1];
    case Some(l) =>
      LevelGoesOn(around, indent, written, text, l, member.value);
      open := around[..depth - 1] + [l];
  }
}
