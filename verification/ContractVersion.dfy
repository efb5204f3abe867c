/** The version move that the content of the plugin implies. */
module ContractVersion {
  import opened Common
  import opened Utf16
  import opened JsonValue
  import O = JsonOrder
  import D = Decimal
  import N = JsNumber

  const DOT: Unit := 0x2E

  datatype Version = Version(major: nat, minor: nat, patch: nat)

  datatype Move = First | Same | Patch | Minor

  predicate Before(a: Version, b: Version) {
    a.major < b.major || (a.major == b.major && (a.minor < b.minor || (a.minor == b.minor && a.patch < b.patch)))
  }

  // ---- numbers and their digits ----

  function DigitsText(n: nat): (r: Text)
    ensures r != [] && AllDigits(r)
  {
    D.DigitText(D.DigitsOf(n))
  }

  lemma {:induction false} TextIsNumber(ds: seq<D.Digit>)
    ensures Number10(D.DigitText(ds)) == D.NatOf(ds)
  {
    if ds != [] {
      TextIsNumber(ds[..|ds| - 1]);
      assert D.DigitText(ds)[..|ds| - 1] == D.DigitText(ds[..|ds| - 1]);
    }
  }

  lemma DigitsReadBack(n: nat)
    ensures Number10(DigitsText(n)) == n
  {
    TextIsNumber(D.DigitsOf(n));
    D.DigitsReadBack(n);
  }

  /** The place of the first dot, or the length. */
  function DotAt(t: Text): (r: nat)
    ensures r <= |t|
    ensures r < |t| ==> t[r] == DOT
    ensures forall k :: 0 <= k < r ==> t[k] != DOT
  {
    if t == [] || t[0] == DOT then 0 else 1 + DotAt(t[1..])
  }

  /** Three runs of digits with dots between them. */
  function ParseVersion(t: Text): Option<Version> {
    var i := DotAt(t);
    if i == |t| then None
    else
      var rest := t[i + 1..];
      var j := DotAt(rest);
      if j == |rest| then None
      else
        var a, b, c := t[..i], rest[..j], rest[j + 1..];
        if a != [] && b != [] && c != [] && AllDigits(a) && AllDigits(b) && AllDigits(c)
        then Some(Version(Number10(a), Number10(b), Number10(c)))
        else None
  }

  function VersionText(v: Version): Text {
    DigitsText(v.major) + [DOT] + DigitsText(v.minor) + [DOT] + DigitsText(v.patch)
  }

  lemma {:induction false} DotAfterDigits(a: Text, rest: Text)
    requires AllDigits(a)
    ensures DotAt(a + [DOT] + rest) == |a|
  {
    if a == [] {
      assert ([] + [DOT] + rest)[0] == DOT;
    } else {
      assert (a + [DOT] + rest)[0] == a[0];
      assert (a + [DOT] + rest)[1..] == a[1..] + [DOT] + rest;
      assert a[0] != DOT;
      DotAfterDigits(a[1..], rest);
    }
  }

  lemma VersionReadsBack(v: Version)
    ensures ParseVersion(VersionText(v)) == Some(v)
  {
    var a, b, c := DigitsText(v.major), DigitsText(v.minor), DigitsText(v.patch);
    var rest := b + [DOT] + c;
    assert VersionText(v) == a + [DOT] + rest;
    DotAfterDigits(a, rest);
    DotAfterDigits(b, c);
    assert (a + [DOT] + rest)[..|a|] == a && (a + [DOT] + rest)[|a| + 1..] == rest;
    assert rest[..|b|] == b && rest[|b| + 1..] == c;
    DigitsReadBack(v.major);
    DigitsReadBack(v.minor);
    DigitsReadBack(v.patch);
  }

  // ---- counting up in JavaScript's numbers ----

  /** The numbers of a version, as JavaScript reads them. */
  function InNumbers(v: Version): Version {
    Version(N.Nearest(v.major), N.Nearest(v.minor), N.Nearest(v.patch))
  }

  function NumbersText(v: Version): Text {
    N.TextOf(v.major) + [DOT] + N.TextOf(v.minor) + [DOT] + N.TextOf(v.patch)
  }

  function Bumped(v: Version, move: Move): Version {
    if move.Minor? then Version(v.major, N.PlusOne(v.minor), 0) else Version(v.major, v.minor, N.PlusOne(v.patch))
  }

  /** `bumpVersion`. */
  function Bump(t: Text, move: Move): Option<Text> {
    match ParseVersion(t)
    case None => None
    case Some(v) => Some(NumbersText(Bumped(InNumbers(v), move)))
  }

  /** The number that a move counts up. */
  function Counter(v: Version, move: Move): nat {
    if move.Minor? then v.minor else v.patch
  }

  /** None of the numbers is printed with an exponent. */
  predicate Plain(v: Version) {
    N.Plain(v.major) && N.Plain(v.minor) && N.Plain(v.patch)
  }

  /** No number of the version is above 2^53. */
  predicate Countable(v: Version) {
    v.major <= N.EXACT && v.minor <= N.EXACT && v.patch <= N.EXACT
  }

  /**
   What becomes of a version. As JavaScript reads them, the new one is the old one with one number counted up, unless a number is so large that it is
   printed with an exponent, which makes no version; and it is a later one exactly when that number has a double after it that is its successor's. When
   no number is above 2^53 the text itself is a version again, and a later one exactly when the number that moves is below 2^53.
   */
  predicate MovesOn(from: Text, move: Move, to: Text) {
    ParseVersion(from).Some? &&
    var was, next := ParseVersion(from).value, ParseVersion(to);
    var v := InNumbers(was);
    && (next.Some? <==> Plain(Bumped(v, move)))
    && (next.Some? ==> InNumbers(next.value) == Bumped(v, move))
    && (Before(v, Bumped(v, move)) <==> N.Grows(Counter(v, move)))
    && (Countable(was) ==> next.Some? && (Before(was, next.value) <==> Counter(was, move) < N.EXACT))
  }

  lemma {:induction false} AllVersionUnits(t: Text)
    requires ParseVersion(t).Some?
    ensures forall k :: 0 <= k < |t| ==> N.IsDigit(t[k]) || t[k] == DOT
  {
    var i := DotAt(t);
    var rest := t[i + 1..];
    var j := DotAt(rest);
    forall k | 0 <= k < |t|
      ensures N.IsDigit(t[k]) || t[k] == DOT
    {
      if k > i {
        assert t[k] == rest[k - i - 1];
        assert k - i - 1 > j ==> rest[k - i - 1] == rest[j + 1..][k - i - j - 2];
        assert k - i - 1 < j ==> rest[k - i - 1] == rest[..j][k - i - 1];
      } else if k < i {
        assert t[k] == t[..i][k];
      }
    }
  }

  /** A unit that no version has. */
  predicate Foreign(t: Text) {
    exists k :: 0 <= k < |t| && !N.IsDigit(t[k]) && t[k] != DOT
  }

  lemma ForeignInside(before: Text, t: Text, behind: Text)
    requires Foreign(t)
    ensures Foreign(before + t + behind)
  {
    var k :| 0 <= k < |t| && !N.IsDigit(t[k]) && t[k] != DOT;
    assert (before + t + behind)[|before| + k] == t[k];
  }

  lemma Foreigners(a: Text, b: Text, c: Text)
    requires Foreign(a) || Foreign(b) || Foreign(c)
    ensures Foreign(a + [DOT] + b + [DOT] + c)
  {
    var t := a + [DOT] + b + [DOT] + c;
    if Foreign(a) {
      ForeignInside([], a, [DOT] + b + [DOT] + c);
      assert [] + a + ([DOT] + b + [DOT] + c) == t;
    } else if Foreign(b) {
      ForeignInside(a + [DOT], b, [DOT] + c);
      assert a + [DOT] + b + ([DOT] + c) == t;
    } else {
      ForeignInside(a + [DOT] + b + [DOT], c, []);
      assert a + [DOT] + b + [DOT] + c + [] == t;
    }
  }

  lemma ForeignText(x: nat)
    requires !N.Plain(x)
    ensures Foreign(N.TextOf(x))
  {
    N.TextIs(x);
  }

  /** A text with a number that is not plain is no version. */
  lemma NotPlain(v: Version)
    requires !Plain(v)
    ensures ParseVersion(NumbersText(v)).None?
  {
    if !N.Plain(v.major) {
      ForeignText(v.major);
    } else if !N.Plain(v.minor) {
      ForeignText(v.minor);
    } else {
      ForeignText(v.patch);
    }
    Foreigners(N.TextOf(v.major), N.TextOf(v.minor), N.TextOf(v.patch));
    NoVersion(NumbersText(v));
  }

  lemma NoVersion(t: Text)
    requires Foreign(t)
    ensures ParseVersion(t).None?
  {
    if ParseVersion(t).Some? {
      AllVersionUnits(t);
    }
  }

  lemma PlainReadsBack(v: Version)
    requires Plain(v) && InNumbers(v) == v
    ensures ParseVersion(NumbersText(v)) == Some(Version(N.Shown(v.major), N.Shown(v.minor), N.Shown(v.patch)))
    ensures InNumbers(ParseVersion(NumbersText(v)).value) == v
  {
    N.TextIs(v.major);
    N.TextIs(v.minor);
    N.TextIs(v.patch);
    VersionReadsBack(Version(N.Shown(v.major), N.Shown(v.minor), N.Shown(v.patch)));
    N.ShownIsRead(v.major);
    N.ShownIsRead(v.minor);
    N.ShownIsRead(v.patch);
  }

  lemma BumpedIsInNumbers(v: Version, move: Move)
    ensures InNumbers(Bumped(InNumbers(v), move)) == Bumped(InNumbers(v), move)
  {
    N.NearestIsDouble(v.major);
    N.NearestIsDouble(v.minor);
    N.NearestIsDouble(v.patch);
    N.NearestIsDouble(N.Nearest(v.minor) + 1);
    N.NearestIsDouble(N.Nearest(v.patch) + 1);
    N.ExactIsPlain(0);
  }

  lemma CountableIsInNumbers(v: Version)
    requires Countable(v)
    ensures InNumbers(v) == v
  {
    N.ExactIsPlain(v.major);
    N.ExactIsPlain(v.minor);
    N.ExactIsPlain(v.patch);
  }

  lemma CountsUp(v: Version, move: Move)
    requires Countable(v)
    ensures Countable(Bumped(v, move)) && (Before(v, Bumped(v, move)) <==> Counter(v, move) < N.EXACT)
  {
    N.ExactCounts(v.minor);
    N.ExactCounts(v.patch);
  }

  /** A bump is refused exactly when the text is not a version; otherwise it moves on. */
  lemma BumpIncreases(t: Text, move: Move)
    ensures Bump(t, move).None? <==> ParseVersion(t).None?
    ensures Bump(t, move).Some? ==> MovesOn(t, move, Bump(t, move).value)
  {
    if ParseVersion(t).Some? {
      var was := ParseVersion(t).value;
      var v := InNumbers(was);
      var to := Bumped(v, move);
      BumpedIsInNumbers(was, move);
      N.NearestIsDouble(Counter(was, move));
      N.PlusOneGrows(Counter(v, move));
      if Plain(to) {
        PlainReadsBack(to);
      } else {
        NotPlain(to);
      }
      if Countable(was) {
        CountableIsInNumbers(was);
        CountsUp(was, move);
        N.ExactIsPlain(to.major);
        N.ExactIsPlain(to.minor);
        N.ExactIsPlain(to.patch);
      }
    }
  }

  lemma ExactText(v: Version)
    requires Countable(v)
    ensures NumbersText(v) == VersionText(v)
  {
    N.ExactIsPlain(v.major);
    N.ExactIsPlain(v.minor);
    N.ExactIsPlain(v.patch);
    N.TextIs(v.major);
    N.TextIs(v.minor);
    N.TextIs(v.patch);
  }

  /** At 2^53 a patch move prints the version that it was given. */
  lemma StuckAtTheEnd(v: Version)
    requires Countable(v) && v.patch == N.EXACT
    ensures Bump(VersionText(v), Patch) == Some(VersionText(v))
  {
    N.ExactCounts(v.patch);
    Unmoved(v);
  }

  lemma Unmoved(v: Version)
    requires Countable(v) && N.PlusOne(v.patch) == v.patch
    ensures Bump(VersionText(v), Patch) == Some(VersionText(v))
  {
    VersionReadsBack(v);
    CountableIsInNumbers(v);
    ExactText(v);
  }

  /** And one above it, in front, is printed as a lower number. */
  lemma LowerInFront(v: Version)
    requires v.major == N.EXACT + 1 && v.minor <= N.EXACT && v.patch < N.EXACT
    ensures Bump(VersionText(v), Patch) == Some(VersionText(Version(v.major - 1, v.minor, v.patch + 1)))
  {
    var next := Version(v.major - 1, v.minor, v.patch + 1);
    VersionReadsBack(v);
    N.FirstInexact(v.major);
    N.ExactIsPlain(v.minor);
    N.ExactIsPlain(v.patch);
    N.ExactCounts(v.patch);
    assert Bumped(InNumbers(v), Patch) == next;
    ExactText(next);
  }

  // ---- the structure of a contract ----

  /** The keys "summary" and "description". */
  const SUMMARY: Text := [0x73, 0x75, 0x6D, 0x6D, 0x61, 0x72, 0x79]
  const DESCRIPTION: Text := [0x64, 0x65, 0x73, 0x63, 0x72, 0x69, 0x70, 0x74, 0x69, 0x6F, 0x6E]

  predicate IsProse(m: Member) {
    (m.key == SUMMARY || m.key == DESCRIPTION) && (m.value.String? || m.value.Units?)
  }

  /** What is left of a contract without its prose: what a caller can break on. */
  function StructureOf(v: Value): Value {
    match v
    case Array(items) => Array(ItemsOf(items))
    case Object(members) => Object(MembersOf(members))
    case Keyed(members) => Keyed(MembersOf(members))
    case _ => v
  }

  function ItemsOf(items: seq<Value>): seq<Value> {
    if items == [] then [] else [StructureOf(items[0])] + ItemsOf(items[1..])
  }

  function MembersOf(members: seq<Member>): seq<Member> {
    if members == [] then []
    else (if IsProse(members[0]) then [] else [Member(members[0].key, StructureOf(members[0].value))]) + MembersOf(members[1..])
  }

  /** `isDeepStrictEqual`: the order of an object's keys takes no part. */
  predicate DeepEqual(a: Value, b: Value)
    decreases a
  {
    if a.Array? && b.Array? then
      |a.items| == |b.items| && forall k :: 0 <= k < |a.items| ==> DeepEqual(a.items[k], b.items[k])
    else if (a.Object? || a.Keyed?) && (b.Object? || b.Keyed?) then
      && |a.members| == |b.members|
      && forall k :: 0 <= k < |a.members| ==>
           Lookup(b.members, a.members[k].key).Some? && DeepEqual(a.members[k].value, Lookup(b.members, a.members[k].key).value)
    else a == b
  }

  predicate StructureChanged(onDisk: Option<Value>, next: Value) {
    onDisk.None? || !DeepEqual(StructureOf(onDisk.value), StructureOf(next))
  }

  predicate AllDistinct(v: Value) {
    match v
    case Array(items) => forall k :: 0 <= k < |items| ==> AllDistinct(items[k])
    case Object(members) => DistinctKeys(members) && forall k :: 0 <= k < |members| ==> AllDistinct(members[k].value)
    case Keyed(members) => DistinctKeys(members) && forall k :: 0 <= k < |members| ==> AllDistinct(members[k].value)
    case _ => true
  }

  /** Whether a key has a value that is no prose. */
  predicate Counts(members: seq<Member>, key: Text) {
    Lookup(members, key).Some? && !IsProse(Member(key, Lookup(members, key).value))
  }

  /** The same contract but for its prose, which may be worded anew, added or removed, and for the order of its keys. */
  predicate Reworded(a: Value, b: Value)
    decreases a
  {
    if a.Array? && b.Array? then
      |a.items| == |b.items| && forall k :: 0 <= k < |a.items| ==> Reworded(a.items[k], b.items[k])
    else if (a.Object? || a.Keyed?) && (b.Object? || b.Keyed?) then
      && (forall k :: 0 <= k < |a.members| && !IsProse(a.members[k]) ==>
            Counts(b.members, a.members[k].key) && Reworded(a.members[k].value, Lookup(b.members, a.members[k].key).value))
      && (forall k :: 0 <= k < |b.members| && !IsProse(b.members[k]) ==> Counts(a.members, b.members[k].key))
    else a == b
  }

  // ---- what is left of an object ----

  lemma {:induction false} ItemsAt(items: seq<Value>)
    ensures |ItemsOf(items)| == |items| && forall k :: 0 <= k < |items| ==> ItemsOf(items)[k] == StructureOf(items[k])
  {
    if items != [] {
      ItemsAt(items[1..]);
    }
  }

  /** What is kept was there. */
  lemma {:induction false} KeptFrom(members: seq<Member>, i: nat) returns (j: nat)
    requires i < |MembersOf(members)|
    ensures j < |members| && !IsProse(members[j]) && MembersOf(members)[i] == Member(members[j].key, StructureOf(members[j].value))
  {
    if !IsProse(members[0]) && i == 0 {
      j := 0;
    } else {
      j := KeptFrom(members[1..], if IsProse(members[0]) then i else i - 1);
      j := j + 1;
    }
  }

  /** What was there and is no prose is kept. */
  lemma {:induction false} KeptAt(members: seq<Member>, j: nat) returns (i: nat)
    requires j < |members| && !IsProse(members[j])
    ensures i < |MembersOf(members)| && MembersOf(members)[i] == Member(members[j].key, StructureOf(members[j].value))
  {
    if j == 0 {
      i := 0;
    } else {
      i := KeptAt(members[1..], j - 1);
      i := if IsProse(members[0]) then i else i + 1;
    }
  }

  lemma {:induction false} KeysStayDistinct(members: seq<Member>)
    requires DistinctKeys(members)
    ensures DistinctKeys(MembersOf(members))
  {
    if members != [] {
      var rest := members[1..];
      KeysStayDistinct(rest);
      forall i | 0 <= i < |MembersOf(rest)|
        ensures MembersOf(rest)[i].key != members[0].key
      {
        var j := KeptFrom(rest, i);
        assert members[j + 1] == rest[j];
      }
    }
  }

  /** A key is left exactly when its value counts, with the structure of that. */
  lemma StructureLookup(members: seq<Member>, key: Text)
    requires DistinctKeys(members)
    ensures Lookup(MembersOf(members), key) == if Counts(members, key) then Some(StructureOf(Lookup(members, key).value)) else None
  {
    var left := MembersOf(members);
    KeysStayDistinct(members);
    if Counts(members, key) {
      O.LookupSource(members, key);
      var j :| 0 <= j < |members| && members[j] == Member(key, Lookup(members, key).value);
      var i := KeptAt(members, j);
      O.DistinctLookup(left, i);
    } else if Lookup(left, key).Some? {
      O.LookupSource(left, key);
      var i :| 0 <= i < |left| && left[i] == Member(key, Lookup(left, key).value);
      var j := KeptFrom(members, i);
      O.DistinctLookup(members, j);
      assert false;
    }
  }

  function KeysOf(members: seq<Member>): set<Text> {
    set k | 0 <= k < |members| :: members[k].key
  }

  lemma {:induction false} KeysCount(members: seq<Member>)
    requires DistinctKeys(members)
    ensures |KeysOf(members)| == |members|
  {
    if members != [] {
      var n := |members| - 1;
      KeysCount(members[..n]);
      assert KeysOf(members) == KeysOf(members[..n]) + {members[n].key};
      assert members[n].key !in KeysOf(members[..n]);
    }
  }

  lemma KeyCounts(members: seq<Member>, key: Text)
    requires DistinctKeys(members)
    ensures key in KeysOf(MembersOf(members)) <==> Counts(members, key)
  {
    StructureLookup(members, key);
    O.LookupFinds(MembersOf(members), key);
  }

  // ---- two objects ----

  /** The objects are the same but for the order of their keys. */
  predicate SameMembers(a: seq<Member>, b: seq<Member>)
    requires DistinctKeys(a) && DistinctKeys(b)
  {
    && KeysOf(a) == KeysOf(b)
    && forall k :: 0 <= k < |a| ==> Lookup(b, a[k].key).Some? && DeepEqual(a[k].value, Lookup(b, a[k].key).value)
  }

  lemma SameByCount(a: Value, b: Value)
    requires (a.Object? || a.Keyed?) && (b.Object? || b.Keyed?) && DistinctKeys(a.members) && DistinctKeys(b.members)
    ensures DeepEqual(a, b) <==> SameMembers(a.members, b.members)
  {
    KeysCount(a.members);
    KeysCount(b.members);
    if DeepEqual(a, b) {
      forall key | key in KeysOf(a.members)
        ensures key in KeysOf(b.members)
      {
        O.LookupFinds(b.members, key);
      }
      SameSize(KeysOf(a.members), KeysOf(b.members));
    }
  }

  lemma {:induction false} SameSize(a: set<Text>, b: set<Text>)
    requires a <= b && |a| == |b|
    ensures a == b
  {
    if x :| x in b && x !in a {
      Smaller(a, b - {x});
      assert false;
    }
  }

  lemma {:induction false} Smaller(a: set<Text>, b: set<Text>)
    requires a <= b
    ensures |a| <= |b|
    decreases |a|
  {
    if x :| x in a {
      Smaller(a - {x}, b - {x});
    }
  }

  // ---- two contracts ----

  /** The structures of two contracts are equal exactly when one is the other reworded. */
  lemma {:induction false} EqualIsReworded(a: Value, b: Value)
    requires AllDistinct(a) && AllDistinct(b)
    ensures DeepEqual(StructureOf(a), StructureOf(b)) <==> Reworded(a, b)
    decreases a
  {
    if a.Array? && b.Array? {
      ItemsAt(a.items);
      ItemsAt(b.items);
      forall k | 0 <= k < |a.items| && |a.items| == |b.items|
        ensures DeepEqual(StructureOf(a.items[k]), StructureOf(b.items[k])) <==> Reworded(a.items[k], b.items[k])
      {
        EqualIsReworded(a.items[k], b.items[k]);
      }
    } else if (a.Object? || a.Keyed?) && (b.Object? || b.Keyed?) {
      KeysStayDistinct(a.members);
      KeysStayDistinct(b.members);
      SameByCount(StructureOf(a), StructureOf(b));
      forall k | 0 <= k < |a.members| && Counts(b.members, a.members[k].key)
        ensures DeepEqual(StructureOf(a.members[k].value), StructureOf(Lookup(b.members, a.members[k].key).value))
                <==> Reworded(a.members[k].value, Lookup(b.members, a.members[k].key).value)
      {
        O.LookupSource(b.members, a.members[k].key);
        EqualIsReworded(a.members[k].value, Lookup(b.members, a.members[k].key).value);
      }
      if Reworded(a, b) {
        RewordedIsSame(a, b);
      }
      if SameMembers(MembersOf(a.members), MembersOf(b.members)) {
        SameIsReworded(a, b);
      }
    }
  }

  predicate Agree(a: Value, b: Value)
    requires (a.Object? || a.Keyed?) && (b.Object? || b.Keyed?)
  {
    forall k :: 0 <= k < |a.members| && Counts(b.members, a.members[k].key) ==>
      (DeepEqual(StructureOf(a.members[k].value), StructureOf(Lookup(b.members, a.members[k].key).value))
       <==> Reworded(a.members[k].value, Lookup(b.members, a.members[k].key).value))
  }

  lemma RewordedIsSame(a: Value, b: Value)
    requires (a.Object? || a.Keyed?) && (b.Object? || b.Keyed?) && AllDistinct(a) && AllDistinct(b)
    requires DistinctKeys(MembersOf(a.members)) && DistinctKeys(MembersOf(b.members))
    requires Reworded(a, b) && Agree(a, b)
    ensures SameMembers(MembersOf(a.members), MembersOf(b.members))
  {
    var left, right := MembersOf(a.members), MembersOf(b.members);
    forall k | 0 <= k < |left|
      ensures Lookup(right, left[k].key).Some? && DeepEqual(left[k].value, Lookup(right, left[k].key).value)
    {
      var j := KeptFrom(a.members, k);
      StructureLookup(b.members, left[k].key);
    }
    forall key
      ensures key in KeysOf(left) <==> key in KeysOf(right)
    {
      SameKey(a, b, key);
    }
  }

  lemma SameKey(a: Value, b: Value, key: Text)
    requires (a.Object? || a.Keyed?) && (b.Object? || b.Keyed?) && AllDistinct(a) && AllDistinct(b) && Reworded(a, b)
    ensures key in KeysOf(MembersOf(a.members)) <==> key in KeysOf(MembersOf(b.members))
  {
    KeyCounts(a.members, key);
    KeyCounts(b.members, key);
    if Counts(a.members, key) {
      O.LookupSource(a.members, key);
    }
    if Counts(b.members, key) {
      O.LookupSource(b.members, key);
    }
  }

  lemma SameIsReworded(a: Value, b: Value)
    requires (a.Object? || a.Keyed?) && (b.Object? || b.Keyed?) && AllDistinct(a) && AllDistinct(b)
    requires DistinctKeys(MembersOf(a.members)) && DistinctKeys(MembersOf(b.members))
    requires SameMembers(MembersOf(a.members), MembersOf(b.members)) && Agree(a, b)
    ensures Reworded(a, b)
  {
    var left, right := MembersOf(a.members), MembersOf(b.members);
    forall k | 0 <= k < |a.members| && !IsProse(a.members[k])
      ensures Counts(b.members, a.members[k].key) && Reworded(a.members[k].value, Lookup(b.members, a.members[k].key).value)
    {
      var i := KeptAt(a.members, k);
      StructureLookup(b.members, a.members[k].key);
    }
    forall k | 0 <= k < |b.members| && !IsProse(b.members[k])
      ensures Counts(a.members, b.members[k].key)
    {
      var i := KeptAt(b.members, k);
      assert right[i].key in KeysOf(right);
      KeyCounts(a.members, b.members[k].key);
    }
  }

  /** A contract on disk calls for a minor move exactly when the new one is not the same but for its prose and the order of its keys. */
  lemma RewordingIsNotStructural(was: Value, now: Value)
    requires AllDistinct(was) && AllDistinct(now)
    ensures StructureChanged(Some(was), now) <==> !Reworded(was, now)
  {
    EqualIsReworded(was, now);
  }
}
