/** JSON files as JavaScript reads and writes them: the value in the order of its keys, and the two-space text with a newline behind it. */
module JsonFile {
  import opened Common
  import opened Utf16
  import opened JsonValue
  import opened JsonOrder
  import opened JsonReader
  import opened JsonWriter
  import T = JsonRoundTrip

  const NEWLINE: Unit := 0x0A

  /** `parseJson`: each object with its keys once and in order. */
  function ParseJson(t: Text): Option<Value> {
    match Parsed(t, Whole)
    case None => None
    case Some(v) => Some(Canon(v))
  }

  /** `stringifyJson`. */
  function Render(v: Value): Text {
    Stringified(v, true) + [NEWLINE]
  }

  /** A value as JavaScript holds it. */
  predicate InOrder(v: Value) {
    Proper(v) && Canon(v) == v
  }

  predicate Ordered(members: seq<Member>) {
    DistinctKeys(members) && Ranked(members) && forall k :: 0 <= k < |members| ==> InOrder(members[k].value)
  }

  lemma CanonIsInOrder(v: Value)
    requires Proper(v)
    ensures InOrder(Canon(v))
  {
    CanonIsProper(v);
    CanonIsIdempotent(v);
  }

  lemma ParsedIsInOrder(t: Text)
    ensures ParseJson(t).Some? ==> InOrder(ParseJson(t).value)
  {
    if ParseJson(t).Some? {
      ParsedIsTree(t, Whole);
      ReadersAgree(TreeOf(t).value);
      CanonIsInOrder(Parsed(t, Whole).value);
    }
  }

  /** What is written is read back. */
  lemma RenderReadsBack(v: Value)
    requires InOrder(v)
    ensures ParseJson(Render(v)) == Some(v)
  {
    T.PrintedReadsBack(v, true, [NEWLINE]);
  }

  lemma RenderTellsApart(v: Value, w: Value)
    requires InOrder(v) && InOrder(w) && Render(v) == Render(w)
    ensures v == w
  {
    RenderReadsBack(v);
    RenderReadsBack(w);
  }

  // ---- objects ----

  lemma ValueIsCanon(members: seq<Member>, sorted: seq<Member>, k: nat)
    requires sorted == JsOrder(CanonMembers(members)) && k < |sorted|
    ensures Canon(sorted[k].value) == sorted[k].value
  {
    JsOrderMembers(CanonMembers(members), k);
    var i :| 0 <= i < |members| && CanonMembers(members)[i] == sorted[k];
    CanonIsIdempotent(members[i].value);
  }

  lemma SortedIsOrdered(members: seq<Member>, sorted: seq<Member>)
    requires sorted == JsOrder(CanonMembers(members)) && forall k :: 0 <= k < |sorted| ==> Proper(sorted[k].value)
    ensures Ordered(sorted)
  {
    JsOrderMeaning(CanonMembers(members), []);
    forall k | 0 <= k < |sorted|
      ensures InOrder(sorted[k].value)
    {
      ValueIsCanon(members, sorted, k);
    }
  }

  lemma MembersInOrder(v: Value)
    requires InOrder(v) && (v.Object? || v.Keyed?)
    ensures Ordered(v.members) && v == ObjectOf(v.members)
  {
    SortedIsOrdered(v.members, v.members);
  }

  lemma SameMembers(members: seq<Member>, canon: seq<Member>)
    requires canon == CanonMembers(members)
    requires forall k :: 0 <= k < |members| ==> Canon(members[k].value) == members[k].value
    ensures canon == members
  {
  }

  lemma OrderedStays(members: seq<Member>)
    requires DistinctKeys(members) && Ranked(members)
    ensures JsOrder(members) == members
  {
    CollapseOfDistinct(members, |members|);
    assert members[..|members|] == members;
    SortOfRanked(members);
  }

  lemma ProperObject(members: seq<Member>)
    requires forall k :: 0 <= k < |members| ==> Proper(members[k].value)
    ensures Proper(ObjectOf(members))
  {
  }

  lemma CanonObject(members: seq<Member>, canon: seq<Member>)
    requires canon == CanonMembers(members) == members && JsOrder(members) == members
    ensures Canon(ObjectOf(members)) == ObjectOf(members)
  {
  }

  lemma ObjectInOrder(members: seq<Member>)
    requires Ordered(members)
    ensures InOrder(ObjectOf(members))
  {
    SameMembers(members, CanonMembers(members));
    OrderedStays(members);
    ProperObject(members);
    CanonObject(members, CanonMembers(members));
  }
}
