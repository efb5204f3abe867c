/**
 The grammar of JSON (RFC 8259, sections 2, 6 and 7) twice: as concrete syntax trees with the text each one is written as,
 and as a recursive-descent scanner. The two are inverse, so the grammar is unambiguous and the scanner accepts exactly its texts.
 */
module JsonGrammar {
  import opened Utf16
  import opened Decimal

  const QUOTE: Unit := 0x22
  const BACKSLASH: Unit := 0x5C
  const COMMA: Unit := 0x2C
  const COLON: Unit := 0x3A
  const OPEN_ARRAY: Unit := 0x5B
  const CLOSE_ARRAY: Unit := 0x5D
  const OPEN_OBJECT: Unit := 0x7B
  const CLOSE_OBJECT: Unit := 0x7D
  const LETTER_U: Unit := 0x75

  const NULL_WORD: Text := [0x6E, 0x75, 0x6C, 0x6C]
  const TRUE_WORD: Text := [0x74, 0x72, 0x75, 0x65]
  const FALSE_WORD: Text := [0x66, 0x61, 0x6C, 0x73, 0x65]

  // ---- concrete syntax ----

  /** One element of a string literal: a unit as it stands, a two-character escape, or a backslash-u escape with its four digits. */
  datatype Piece = Raw(unit: Unit) | Escape(letter: Unit) | Hex(a: Unit, b: Unit, c: Unit, d: Unit)

  /** A value as it is written; `gap` is the white space inside an empty container. */
  datatype Syntax =
    | NullWord
    | BoolWord(b: bool)
    | Number(literal: Literal)
    | String(pieces: seq<Piece>)
    | Array(gap: Text, items: seq<Item>)
    | Object(gap: Text, members: seq<Member>)

  datatype Item = Item(before: Text, value: Syntax, after: Text)

  datatype Member = Member(before: Text, key: seq<Piece>, ahead: Text, behind: Text, value: Syntax, after: Text)

  datatype Document = Document(before: Text, value: Syntax, after: Text)

  predicate IsSpace(u: Unit) {
    u == 0x20 || u == 0x09 || u == 0x0A || u == 0x0D
  }

  predicate Space(s: Text) {
    forall k :: 0 <= k < |s| ==> IsSpace(s[k])
  }

  predicate IsDigit(u: Unit) {
    0x30 <= u <= 0x39
  }

  predicate IsHex(u: Unit) {
    IsDigit(u) || 0x41 <= u <= 0x46 || 0x61 <= u <= 0x66
  }

  predicate IsEscape(u: Unit) {
    u in {0x22, 0x5C, 0x2F, 0x62, 0x66, 0x6E, 0x72, 0x74}
  }

  predicate IsPlain(u: Unit) {
    u != QUOTE && u != BACKSLASH && 0x20 <= u
  }

  predicate ValidPiece(p: Piece) {
    match p
    case Raw(u) => IsPlain(u)
    case Escape(l) => IsEscape(l)
    case Hex(a, b, c, d) => IsHex(a) && IsHex(b) && IsHex(c) && IsHex(d)
  }

  predicate ValidPieces(ps: seq<Piece>) {
    forall k :: 0 <= k < |ps| ==> ValidPiece(ps[k])
  }

  predicate Valid(c: Syntax) {
    match c
    case NullWord => true
    case BoolWord(_) => true
    case Number(l) => ValidLiteral(l)
    case String(ps) => ValidPieces(ps)
    case Array(gap, items) => Space(gap) && (items == [] || gap == []) && ValidItems(items)
    case Object(gap, members) => Space(gap) && (members == [] || gap == []) && ValidMembers(members)
  }

  predicate ValidItems(items: seq<Item>) {
    items != [] ==>
      && Space(items[0].before) && Valid(items[0].value) && Space(items[0].after)
      && ValidItems(items[1..])
  }

  predicate ValidMembers(members: seq<Member>) {
    members != [] ==>
      var m := members[0];
      && Space(m.before) && ValidPieces(m.key) && Space(m.ahead) && Space(m.behind) && Valid(m.value) && Space(m.after)
      && ValidMembers(members[1..])
  }

  predicate ValidDocument(d: Document) {
    Space(d.before) && Valid(d.value) && Space(d.after)
  }

  // ---- the text of a syntax tree ----

  function PieceText(p: Piece): (r: Text)
    ensures r != []
  {
    match p
    case Raw(u) => [u]
    case Escape(l) => [BACKSLASH, l]
    case Hex(a, b, c, d) => [BACKSLASH, LETTER_U, a, b, c, d]
  }

  /** The pieces and the quote that closes them. */
  function PiecesText(ps: seq<Piece>): (r: Text)
    ensures r != []
  {
    if ps == [] then [QUOTE] else PieceText(ps[0]) + PiecesText(ps[1..])
  }

  function StringText(ps: seq<Piece>): Text {
    [QUOTE] + PiecesText(ps)
  }

  function SyntaxText(c: Syntax): Text
    decreases c
  {
    match c
    case NullWord => NULL_WORD
    case BoolWord(b) => if b then TRUE_WORD else FALSE_WORD
    case Number(l) => LiteralText(l)
    case String(ps) => StringText(ps)
    case Array(gap, items) => [OPEN_ARRAY] + gap + (if items == [] then [CLOSE_ARRAY] else ItemsText(items))
    case Object(gap, members) => [OPEN_OBJECT] + gap + (if members == [] then [CLOSE_OBJECT] else MembersText(members))
  }

  function ItemText(item: Item): Text
    decreases item, 0
  {
    item.before + SyntaxText(item.value) + item.after
  }

  /** The items with their commas, and the bracket that closes them. */
  function ItemsText(items: seq<Item>): Text
    requires items != []
    decreases items, 1
  {
    ItemText(items[0]) + ItemsTail(items[1..])
  }

  function ItemsTail(items: seq<Item>): (r: Text)
    ensures r != []
    decreases items, 2
  {
    if items == [] then [CLOSE_ARRAY] else [COMMA] + ItemsText(items)
  }

  function MemberText(m: Member): Text
    decreases m, 0
  {
    m.before + StringText(m.key) + m.ahead + [COLON] + m.behind + SyntaxText(m.value) + m.after
  }

  function MembersText(members: seq<Member>): Text
    requires members != []
    decreases members, 1
  {
    MemberText(members[0]) + MembersTail(members[1..])
  }

  function MembersTail(members: seq<Member>): (r: Text)
    ensures r != []
    decreases members, 2
  {
    if members == [] then [CLOSE_OBJECT] else [COMMA] + MembersText(members)
  }

  function DocumentText(d: Document): Text {
    d.before + SyntaxText(d.value) + d.after
  }

  // ---- the scanner ----

  /** What was read from a position, and where it ends. */
  datatype Scan<+T> = Fail | Found(value: T, end: nat)

  function Skip(t: Text, i: nat): (j: nat)
    requires i <= |t|
    ensures i <= j <= |t|
    ensures j < |t| ==> !IsSpace(t[j])
    decreases |t| - i
  {
    if i < |t| && IsSpace(t[i]) then Skip(t, i + 1) else i
  }

  lemma {:induction false} SkipsSpace(t: Text, i: nat)
    requires i <= |t|
    ensures Space(t[i..Skip(t, i)])
    decreases |t| - i
  {
    if i < |t| && IsSpace(t[i]) {
      SkipsSpace(t, i + 1);
      assert t[i..Skip(t, i)] == [t[i]] + t[i + 1..Skip(t, i)];
    }
  }

  function DigitsEnd(t: Text, i: nat): (j: nat)
    requires i <= |t|
    ensures i <= j <= |t|
    ensures j < |t| ==> !IsDigit(t[j])
    decreases |t| - i
  {
    if i < |t| && IsDigit(t[i]) then DigitsEnd(t, i + 1) else i
  }

  function DigitsFrom(t: Text, i: nat): (r: seq<Digit>)
    requires i <= |t|
    ensures DigitText(r) == t[i..DigitsEnd(t, i)]
    decreases |t| - i
  {
    if i < |t| && IsDigit(t[i]) then
      assert ZERO == 0x30;
      var first: Digit := t[i] - ZERO;
      var rest: seq<Digit> := DigitsFrom(t, i + 1);
      [first] + rest
    else []
  }

  function ScanWhole(t: Text, i: nat): (r: Scan<seq<Digit>>)
    requires i <= |t|
    ensures r.Found? ==> i < r.end <= |t|
  {
    if i < |t| && t[i] == ZERO then Found([0], i + 1)
    else if i < |t| && IsDigit(t[i]) then
      var j := DigitsEnd(t, i);
      Found(DigitsFrom(t, i), j)
    else Fail
  }

  function ScanFraction(t: Text, i: nat): (r: Scan<seq<Digit>>)
    requires i <= |t|
    ensures r.Found? ==> i <= r.end <= |t|
  {
    if i < |t| && t[i] == DOT then
      var j := DigitsEnd(t, i + 1);
      if j == i + 1 then Fail else Found(DigitsFrom(t, i + 1), j)
    else Found([], i)
  }

  function ScanExponent(t: Text, i: nat): (r: Scan<Exponent>)
    requires i <= |t|
    ensures r.Found? ==> i <= r.end <= |t|
  {
    if i < |t| && (t[i] == LOWER_E || t[i] == UPPER_E) then
      var s := if i + 1 < |t| && (t[i + 1] == PLUS || t[i + 1] == MINUS) then i + 2 else i + 1;
      var j := DigitsEnd(t, s);
      if j == s then Fail else Found(Exponent(t[i], t[i + 1..s], DigitsFrom(t, s)), j)
    else Found(NoExponent, i)
  }

  function ScanNumber(t: Text, i: nat): (r: Scan<Literal>)
    requires i <= |t|
    ensures r.Found? ==> i < r.end <= |t|
  {
    var neg := i < |t| && t[i] == MINUS;
    var whole := ScanWhole(t, if neg then i + 1 else i);
    if whole.Fail? then Fail else
    var fraction := ScanFraction(t, whole.end);
    if fraction.Fail? then Fail else
    var exponent := ScanExponent(t, fraction.end);
    if exponent.Fail? then Fail else
    Found(Literal(neg, whole.value, fraction.value, exponent.value), exponent.end)
  }

  predicate HexAt(t: Text, i: nat) {
    && i + 6 <= |t| && t[i] == BACKSLASH && t[i + 1] == LETTER_U
    && IsHex(t[i + 2]) && IsHex(t[i + 3]) && IsHex(t[i + 4]) && IsHex(t[i + 5])
  }

  function ScanPiece(t: Text, i: nat): (r: Scan<Piece>)
    requires i <= |t|
    ensures r.Found? ==> i < r.end <= |t|
  {
    if i == |t| then Fail
    else if IsPlain(t[i]) then Found(Raw(t[i]), i + 1)
    else if t[i] != BACKSLASH || i + 1 == |t| then Fail
    else if IsEscape(t[i + 1]) then Found(Escape(t[i + 1]), i + 2)
    else if HexAt(t, i) then Found(Hex(t[i + 2], t[i + 3], t[i + 4], t[i + 5]), i + 6)
    else Fail
  }

  /** The pieces of a string literal whose opening quote has been read. */
  function ScanPieces(t: Text, i: nat): (r: Scan<seq<Piece>>)
    requires i <= |t|
    ensures r.Found? ==> i < r.end <= |t|
    decreases |t| - i
  {
    if i < |t| && t[i] == QUOTE then Found([], i + 1)
    else
      var first := ScanPiece(t, i);
      if first.Fail? then Fail else
      var rest := ScanPieces(t, first.end);
      if rest.Fail? then Fail else Found([first.value] + rest.value, rest.end)
  }

  function ScanWord(t: Text, i: nat, word: Text, c: Syntax): (r: Scan<Syntax>)
    requires i <= |t| && word != []
    ensures r.Found? ==> i < r.end <= |t|
  {
    if At(t, i, word) then Found(c, i + |word|) else Fail
  }

  predicate At(t: Text, i: nat, r: Text) {
    i + |r| <= |t| && t[i..i + |r|] == r
  }

  /** A value that starts at i. */
  function ScanValue(t: Text, i: nat): (r: Scan<Syntax>)
    requires i <= |t|
    ensures r.Found? ==> i < r.end <= |t|
    decreases |t| - i, 0
  {
    if i == |t| then Fail
    else if t[i] == OPEN_ARRAY then
      var j := Skip(t, i + 1);
      if j < |t| && t[j] == CLOSE_ARRAY then Found(Array(t[i + 1..j], []), j + 1) else
      var items := ScanItems(t, i + 1);
      if items.Fail? then Fail else Found(Array([], items.value), items.end)
    else if t[i] == OPEN_OBJECT then
      var j := Skip(t, i + 1);
      if j < |t| && t[j] == CLOSE_OBJECT then Found(Object(t[i + 1..j], []), j + 1) else
      var members := ScanMembers(t, i + 1);
      if members.Fail? then Fail else Found(Object([], members.value), members.end)
    else if t[i] == QUOTE then
      var pieces := ScanPieces(t, i + 1);
      if pieces.Fail? then Fail else Found(String(pieces.value), pieces.end)
    else if t[i] == 0x74 then ScanWord(t, i, TRUE_WORD, BoolWord(true))
    else if t[i] == 0x66 then ScanWord(t, i, FALSE_WORD, BoolWord(false))
    else if t[i] == 0x6E then ScanWord(t, i, NULL_WORD, NullWord)
    else if t[i] == MINUS || IsDigit(t[i]) then
      var number := ScanNumber(t, i);
      if number.Fail? then Fail else Found(Number(number.value), number.end)
    else Fail
  }

  /** One or more items from i on, with the white space before the first. */
  function ScanItems(t: Text, i: nat): (r: Scan<seq<Item>>)
    requires i <= |t|
    ensures r.Found? ==> i < r.end <= |t| && r.value != []
    decreases |t| - i, 1
  {
    var j := Skip(t, i);
    var value := ScanValue(t, j);
    if value.Fail? then Fail else
    var m := Skip(t, value.end);
    var rest := ScanItemsTail(t, m);
    if rest.Fail? then Fail
    else Found([Item(t[i..j], value.value, t[value.end..m])] + rest.value, rest.end)
  }

  /** What follows an item of an array. */
  function ScanItemsTail(t: Text, i: nat): (r: Scan<seq<Item>>)
    requires i <= |t|
    ensures r.Found? ==> i < r.end <= |t|
    decreases |t| - i, 2
  {
    if i == |t| then Fail
    else if t[i] == COMMA then ScanItems(t, i + 1)
    else if t[i] == CLOSE_ARRAY then Found([], i + 1)
    else Fail
  }

  /** A member's key and colon, up to the start of its value: the member less its value and what follows it. */
  function ScanKey(t: Text, i: nat): (r: Scan<Member>)
    requires i <= |t|
    ensures r.Found? ==> i < r.end <= |t|
  {
    var j := Skip(t, i);
    if j == |t| || t[j] != QUOTE then Fail else
    var key := ScanPieces(t, j + 1);
    if key.Fail? then Fail else
    var a := Skip(t, key.end);
    if a == |t| || t[a] != COLON then Fail else
    var b := Skip(t, a + 1);
    Found(Member(t[i..j], key.value, t[key.end..a], t[a + 1..b], NullWord, []), b)
  }

  function ScanMembers(t: Text, i: nat): (r: Scan<seq<Member>>)
    requires i <= |t|
    ensures r.Found? ==> i < r.end <= |t| && r.value != []
    decreases |t| - i, 1
  {
    var key := ScanKey(t, i);
    if key.Fail? then Fail else
    var value := ScanValue(t, key.end);
    if value.Fail? then Fail else
    var m := Skip(t, value.end);
    var rest := ScanMembersTail(t, m);
    if rest.Fail? then Fail
    else Found([key.value.(value := value.value, after := t[value.end..m])] + rest.value, rest.end)
  }

  function ScanMembersTail(t: Text, i: nat): (r: Scan<seq<Member>>)
    requires i <= |t|
    ensures r.Found? ==> i < r.end <= |t|
    decreases |t| - i, 2
  {
    if i == |t| then Fail
    else if t[i] == COMMA then ScanMembers(t, i + 1)
    else if t[i] == CLOSE_OBJECT then Found([], i + 1)
    else Fail
  }

  /** A whole text: one value with white space around it. */
  function ScanDocument(t: Text): Scan<Document> {
    var j := Skip(t, 0);
    var value := ScanValue(t, j);
    if value.Fail? then Fail else
    var m := Skip(t, value.end);
    if m == |t| then Found(Document(t[..j], value.value, t[value.end..m]), m) else Fail
  }
}
