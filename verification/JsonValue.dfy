/** Parsed values, the order JavaScript keeps the members of an object in, and what a syntax tree reads as. */
module JsonValue {
  import opened Common
  import opened Utf16
  import opened Decimal
  import G = JsonGrammar

  /**
   A `String` is well-formed and a `Units` is not; a `Keyed` is an object with a key that holds a half with no partner.
   Members are in document order, so a key may be there more than once.
   */
  datatype Value =
    | Null
    | Bool(b: bool)
    | Number(number: Decimal)
    | String(text: Text)
    | Units(units: Text)
    | Array(items: seq<Value>)
    | Object(members: seq<Member>)
    | Keyed(members: seq<Member>)

  datatype Member = Member(key: Text, value: Value)

  /** `Value::from_units`. */
  function FromUnits(u: Text): Value {
    if WellFormed(u) then String(u) else Units(u)
  }

  /** `obj[key]`: the last occurrence of a key is the one that counts. */
  function Get(v: Value, key: Text): Option<Value> {
    if v.Object? || v.Keyed? then Lookup(v.members, key) else None
  }

  function Lookup(members: seq<Member>, key: Text): Option<Value> {
    if members == [] then None
    else
      var last := members[|members| - 1];
      if last.key == key then Some(last.value) else Lookup(members[..|members| - 1], key)
  }

  // ---- the order of JavaScript ----

  /** The place of a key among slots whose keys differ, or their number when it has none. */
  function SlotOf(slots: seq<Member>, key: Text): (r: nat)
    ensures r <= |slots|
    ensures r < |slots| ==> slots[r].key == key
    ensures forall k :: 0 <= k < r ==> slots[k].key != key
  {
    if slots == [] || slots[0].key == key then 0 else 1 + SlotOf(slots[1..], key)
  }

  /** A key written again keeps its place and takes the new value. */
  function Put(slots: seq<Member>, m: Member): seq<Member> {
    var at := SlotOf(slots, m.key);
    if at < |slots| then slots[at := Member(slots[at].key, m.value)] else slots + [m]
  }

  function Collapse(members: seq<Member>): seq<Member> {
    if members == [] then []
    else Put(Collapse(members[..|members| - 1]), members[|members| - 1])
  }

  const MAX_INDEX: nat := 0xFFFF_FFFE

  predicate AllDigits(key: Text) {
    forall k :: 0 <= k < |key| ==> G.IsDigit(key[k])
  }

  function Number10(key: Text): nat
    requires AllDigits(key)
  {
    if key == [] then 0
    else
      assert G.IsDigit(key[|key| - 1]);
      10 * Number10(key[..|key| - 1]) + (key[|key| - 1] - ZERO)
  }

  /** `array_index`: a canonical decimal integer from 0 to 2^32 - 2. */
  function ArrayIndex(key: Text): Option<nat> {
    if key == [] || !AllDigits(key) || (key[0] == ZERO && |key| > 1) then None
    else if Number10(key) <= MAX_INDEX then Some(Number10(key))
    else None
  }

  /** The sort key: indices first and ascending, every other key alike. */
  predicate RankLe(a: Member, b: Member) {
    match (ArrayIndex(a.key), ArrayIndex(b.key))
    case (Some(i), Some(j)) => i <= j
    case (None, Some(_)) => false
    case (_, None) => true
  }

  /** In front of the first that does not rank before it, so that equal ranks keep their order. */
  function Insert(m: Member, sorted: seq<Member>): seq<Member> {
    if sorted == [] || RankLe(m, sorted[0]) then [m] + sorted
    else [sorted[0]] + Insert(m, sorted[1..])
  }

  /** The stable sort by array index. */
  function SortByIndex(slots: seq<Member>): seq<Member> {
    if slots == [] then [] else Insert(slots[0], SortByIndex(slots[1..]))
  }

  function JsOrder(members: seq<Member>): seq<Member> {
    SortByIndex(Collapse(members))
  }

  predicate DistinctKeys(members: seq<Member>) {
    forall i, j :: 0 <= i < j < |members| ==> members[i].key != members[j].key
  }

  predicate Ranked(members: seq<Member>) {
    forall i, j :: 0 <= i < j < |members| ==> RankLe(members[i], members[j])
  }

  // ---- what a syntax tree reads as ----

  /** `parse`, `parse_exact` and `parse_whole`. */
  datatype Mode = Plain | Exact | Whole

  function HexValue(u: Unit): (r: nat)
    requires G.IsHex(u)
    ensures r < 16
  {
    if u <= 0x39 then u - 0x30 else if u <= 0x46 then u - 0x41 + 10 else u - 0x61 + 10
  }

  function EscapeUnit(letter: Unit): Unit {
    if letter == 0x62 then 0x08
    else if letter == 0x66 then 0x0C
    else if letter == 0x6E then 0x0A
    else if letter == 0x72 then 0x0D
    else if letter == 0x74 then 0x09
    else letter
  }

  function PieceUnit(p: G.Piece): Unit
    requires G.ValidPiece(p)
  {
    match p
    case Raw(u) => u
    case Escape(letter) => EscapeUnit(letter)
    case Hex(a, b, c, d) => HexValue(a) * 4096 + HexValue(b) * 256 + HexValue(c) * 16 + HexValue(d)
  }

  /** The string a literal stands for, halves with no partner and all. */
  function UnitsOf(ps: seq<G.Piece>): (r: Text)
    requires G.ValidPieces(ps)
    ensures |r| == |ps|
  {
    seq(|ps|, k requires 0 <= k < |ps| => PieceUnit(ps[k]))
  }

  function ReadString(ps: seq<G.Piece>, mode: Mode): Value
    requires G.ValidPieces(ps)
  {
    if mode.Plain? then String(Lossy(UnitsOf(ps))) else FromUnits(UnitsOf(ps))
  }

  function ReadKey(ps: seq<G.Piece>, mode: Mode): Text
    requires G.ValidPieces(ps)
  {
    if mode.Whole? then UnitsOf(ps) else Lossy(UnitsOf(ps))
  }

  predicate TextKeys(members: seq<Member>) {
    forall k :: 0 <= k < |members| ==> WellFormed(members[k].key)
  }

  function ObjectOf(members: seq<Member>): Value {
    if TextKeys(members) then Object(members) else Keyed(members)
  }

  function Read(c: G.Syntax, mode: Mode): Value
    requires G.Valid(c)
    decreases c
  {
    match c
    case NullWord => Null
    case BoolWord(b) => Bool(b)
    case Number(l) => Number(ValueOf(l))
    case String(ps) => ReadString(ps, mode)
    case Array(_, items) => Array(ReadItems(items, mode))
    case Object(_, members) => ObjectOf(ReadMembers(members, mode))
  }

  function ReadItems(items: seq<G.Item>, mode: Mode): (r: seq<Value>)
    requires G.ValidItems(items)
    ensures |r| == |items|
    decreases items
  {
    if items == [] then [] else [Read(items[0].value, mode)] + ReadItems(items[1..], mode)
  }

  function ReadMembers(members: seq<G.Member>, mode: Mode): (r: seq<Member>)
    requires G.ValidMembers(members)
    ensures |r| == |members|
    decreases members
  {
    if members == [] then []
    else [Member(ReadKey(members[0].key, mode), Read(members[0].value, mode))] + ReadMembers(members[1..], mode)
  }

  /** Whether a key of some object in the tree holds a half with no partner. */
  predicate LoneKey(c: G.Syntax)
    requires G.Valid(c)
    decreases c
  {
    match c
    case Array(_, items) => LoneKeyInItems(items)
    case Object(_, members) => LoneKeyInMembers(members)
    case _ => false
  }

  predicate LoneKeyInItems(items: seq<G.Item>)
    requires G.ValidItems(items)
    decreases items
  {
    items != [] && (LoneKey(items[0].value) || LoneKeyInItems(items[1..]))
  }

  predicate LoneKeyInMembers(members: seq<G.Member>)
    requires G.ValidMembers(members)
    decreases members
  {
    && members != []
    && (!WellFormed(UnitsOf(members[0].key)) || LoneKey(members[0].value) || LoneKeyInMembers(members[1..]))
  }

  // ---- what a reader can return ----

  /** The values `parse_whole` can return. */
  predicate Proper(v: Value)
    decreases v
  {
    match v
    case Null => true
    case Bool(_) => true
    case Number(n) => Normal(n)
    case String(s) => WellFormed(s)
    case Units(u) => !WellFormed(u)
    case Array(items) => forall k :: 0 <= k < |items| ==> Proper(items[k])
    case Object(members) => TextKeys(members) && forall k :: 0 <= k < |members| ==> Proper(members[k].value)
    case Keyed(members) => !TextKeys(members) && forall k :: 0 <= k < |members| ==> Proper(members[k].value)
  }

  predicate HasKeyed(v: Value)
    decreases v
  {
    match v
    case Array(items) => exists k :: 0 <= k < |items| && HasKeyed(items[k])
    case Object(members) => exists k :: 0 <= k < |members| && HasKeyed(members[k].value)
    case Keyed(_) => true
    case _ => false
  }

  /** A value with every half that has no partner, in a string or in a key, read as U+FFFD. */
  function LossyValue(v: Value): Value
    decreases v
  {
    match v
    case Units(u) => String(Lossy(u))
    case Array(items) => Array(LossyItems(items))
    case Object(members) => Object(LossyMembers(members))
    case Keyed(members) => Object(LossyMembers(members))
    case _ => v
  }

  function LossyItems(items: seq<Value>): (r: seq<Value>)
    ensures |r| == |items|
    ensures forall k :: 0 <= k < |items| ==> r[k] == LossyValue(items[k])
    decreases items
  {
    if items == [] then [] else [LossyValue(items[0])] + LossyItems(items[1..])
  }

  function LossyMembers(members: seq<Member>): (r: seq<Member>)
    ensures |r| == |members|
    ensures forall k :: 0 <= k < |members| ==> r[k] == Member(Lossy(members[k].key), LossyValue(members[k].value))
    decreases members
  {
    if members == [] then []
    else [Member(Lossy(members[0].key), LossyValue(members[0].value))] + LossyMembers(members[1..])
  }

  /** A value with every key, and nothing else, read lossily. */
  function LossyKeys(v: Value): Value
    decreases v
  {
    match v
    case Array(items) => Array(LossyKeyItems(items))
    case Object(members) => Object(LossyKeyMembers(members))
    case Keyed(members) => Object(LossyKeyMembers(members))
    case _ => v
  }

  function LossyKeyItems(items: seq<Value>): (r: seq<Value>)
    ensures |r| == |items|
    ensures forall k :: 0 <= k < |items| ==> r[k] == LossyKeys(items[k])
    decreases items
  {
    if items == [] then [] else [LossyKeys(items[0])] + LossyKeyItems(items[1..])
  }

  function LossyKeyMembers(members: seq<Member>): (r: seq<Member>)
    ensures |r| == |members|
    ensures forall k :: 0 <= k < |members| ==> r[k] == Member(Lossy(members[k].key), LossyKeys(members[k].value))
    decreases members
  {
    if members == [] then []
    else [Member(Lossy(members[0].key), LossyKeys(members[0].value))] + LossyKeyMembers(members[1..])
  }

  /** What every reader makes of one tree: a value `parse_whole` can return, the same with its halves read lossily, and the flag. */
  lemma {:induction false} ReadersAgree(c: G.Syntax)
    requires G.Valid(c)
    ensures Proper(Read(c, Whole))
    ensures Read(c, Plain) == LossyValue(Read(c, Whole))
    ensures Read(c, Exact) == LossyKeys(Read(c, Whole))
    ensures LoneKey(c) <==> HasKeyed(Read(c, Whole))
    decreases c
  {
    match c
    case NullWord =>
    case BoolWord(_) =>
    case Number(_) =>
    case String(ps) => LossyIsWellFormed(UnitsOf(ps));
    case Array(_, items) => ItemsAgree(items);
    case Object(_, members) =>
      MembersAgree(members);
      PlainKeysAreText(members);
      ObjectAgrees(ReadMembers(members, Whole), ReadMembers(members, Plain), ReadMembers(members, Exact));
  }

  lemma ObjectAgrees(whole: seq<Member>, plain: seq<Member>, exact: seq<Member>)
    requires AllProper(whole) && plain == LossyMembers(whole) && exact == LossyKeyMembers(whole) && TextKeys(plain) && TextKeys(exact)
    ensures Proper(ObjectOf(whole)) && ObjectOf(plain) == LossyValue(ObjectOf(whole)) && ObjectOf(exact) == LossyKeys(ObjectOf(whole))
    ensures HasKeyed(ObjectOf(whole)) <==> !TextKeys(whole) || HasKeyed(Object(whole))
  {
  }

  lemma {:induction false} ItemsAgree(items: seq<G.Item>)
    requires G.ValidItems(items)
    ensures var r := ReadItems(items, Whole);
            && Proper(Array(r))
            && Array(ReadItems(items, Plain)) == LossyValue(Array(r))
            && Array(ReadItems(items, Exact)) == LossyKeys(Array(r))
            && (LoneKeyInItems(items) <==> HasKeyed(Array(r)))
    decreases items
  {
    if items != [] {
      ReadersAgree(items[0].value);
      ItemsAgree(items[1..]);
      var first, rest := Read(items[0].value, Whole), ReadItems(items[1..], Whole);
      ItemsCons(first, rest);
      HasKeyedInArray(first, rest);
    }
  }

  lemma ItemsCons(first: Value, rest: seq<Value>)
    ensures Proper(first) && Proper(Array(rest)) ==> Proper(Array([first] + rest))
    ensures LossyItems([first] + rest) == [LossyValue(first)] + LossyItems(rest)
    ensures LossyKeyItems([first] + rest) == [LossyKeys(first)] + LossyKeyItems(rest)
  {
    assert ([first] + rest)[1..] == rest;
  }

  predicate AllProper(members: seq<Member>) {
    forall k :: 0 <= k < |members| ==> Proper(members[k].value)
  }

  lemma MembersCons(first: Member, rest: seq<Member>)
    ensures Proper(first.value) && AllProper(rest) ==> AllProper([first] + rest)
    ensures LossyMembers([first] + rest) == [Member(Lossy(first.key), LossyValue(first.value))] + LossyMembers(rest)
    ensures LossyKeyMembers([first] + rest) == [Member(Lossy(first.key), LossyKeys(first.value))] + LossyKeyMembers(rest)
  {
    assert ([first] + rest)[1..] == rest;
  }

  lemma HasKeyedInArray(first: Value, rest: seq<Value>)
    ensures HasKeyed(Array([first] + rest)) <==> HasKeyed(first) || HasKeyed(Array(rest))
  {
    var all := [first] + rest;
    if HasKeyed(first) {
      assert HasKeyed(all[0]);
    } else if HasKeyed(Array(rest)) {
      var k :| 0 <= k < |rest| && HasKeyed(rest[k]);
      assert HasKeyed(all[k + 1]);
    }
  }

  lemma HasKeyedInMembers(first: Member, rest: seq<Member>)
    ensures HasKeyed(Object([first] + rest)) <==> HasKeyed(first.value) || HasKeyed(Object(rest))
  {
    var all := [first] + rest;
    if HasKeyed(first.value) {
      assert HasKeyed(all[0].value);
    } else if HasKeyed(Object(rest)) {
      var k :| 0 <= k < |rest| && HasKeyed(rest[k].value);
      assert HasKeyed(all[k + 1].value);
    }
  }

  lemma TextKeysCons(first: Member, rest: seq<Member>)
    ensures TextKeys([first] + rest) <==> WellFormed(first.key) && TextKeys(rest)
  {
    var all := [first] + rest;
    assert all[0] == first;
    assert forall k :: 0 <= k < |rest| ==> all[k + 1] == rest[k];
  }

  lemma {:induction false} MembersAgree(members: seq<G.Member>)
    requires G.ValidMembers(members)
    ensures var r := ReadMembers(members, Whole);
            && AllProper(r)
            && ReadMembers(members, Plain) == LossyMembers(r)
            && ReadMembers(members, Exact) == LossyKeyMembers(r)
            && (LoneKeyInMembers(members) <==> !TextKeys(r) || HasKeyed(Object(r)))
    decreases members
  {
    if members != [] {
      ReadersAgree(members[0].value);
      MembersAgree(members[1..]);
      var first := Member(ReadKey(members[0].key, Whole), Read(members[0].value, Whole));
      var rest := ReadMembers(members[1..], Whole);
      MembersCons(first, rest);
      HasKeyedInMembers(first, rest);
      TextKeysCons(first, rest);
    }
  }

  /** Keys that were read lossily are text. */
  lemma {:induction false} PlainKeysAreText(members: seq<G.Member>)
    requires G.ValidMembers(members)
    ensures TextKeys(ReadMembers(members, Plain)) && TextKeys(ReadMembers(members, Exact))
    decreases members
  {
    if members != [] {
      PlainKeysAreText(members[1..]);
      LossyIsWellFormed(UnitsOf(members[0].key));
    }
  }
}
