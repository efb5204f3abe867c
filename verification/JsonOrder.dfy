/** What the order of JavaScript keeps: every key once, at its first place among the keys that are no indices, with its last value. */
module JsonOrder {
  import opened Common
  import opened Utf16
  import opened Decimal
  import opened JsonValue

  // ---- a key written twice ----

  predicate Has(members: seq<Member>, key: Text) {
    exists k :: 0 <= k < |members| && members[k].key == key
  }

  function FirstAt(members: seq<Member>, key: Text): (r: nat)
    requires Has(members, key)
    ensures r < |members| && members[r].key == key
    ensures forall k :: 0 <= k < r ==> members[k].key != key
  {
    SlotOf(members, key)
  }

  /** The slots are the keys in the order of their first occurrences, each with the value of its last. */
  ghost predicate Collapsed(members: seq<Member>, slots: seq<Member>) {
    && (forall k :: 0 <= k < |members| ==> Has(slots, members[k].key))
    && (forall s :: 0 <= s < |slots| ==> Has(members, slots[s].key) && Lookup(members, slots[s].key) == Some(slots[s].value))
    && (forall r, s :: 0 <= r < s < |slots| ==> FirstAt(members, slots[r].key) < FirstAt(members, slots[s].key))
  }

  lemma FirstAtStays(members: seq<Member>, m: Member, key: Text)
    requires Has(members, key)
    ensures Has(members + [m], key) && FirstAt(members + [m], key) == FirstAt(members, key)
  {
    var all := members + [m];
    var f := FirstAt(members, key);
    assert all[f] == members[f];
  }

  lemma LookupSnoc(members: seq<Member>, m: Member, key: Text)
    ensures Lookup(members + [m], key) == if m.key == key then Some(m.value) else Lookup(members, key)
  {
    assert (members + [m])[..|members|] == members;
  }

  /** A slot of the members so far, after one more member. */
  lemma SlotAfter(members: seq<Member>, slot: Member, m: Member)
    requires Has(members, slot.key) && Lookup(members, slot.key) == Some(slot.value)
    ensures var next := if slot.key == m.key then Member(slot.key, m.value) else slot;
            Has(members + [m], next.key) && Lookup(members + [m], next.key) == Some(next.value)
    ensures FirstAt(members + [m], slot.key) == FirstAt(members, slot.key)
  {
    FirstAtStays(members, m, slot.key);
    LookupSnoc(members, m, slot.key);
  }

  lemma PutOnce(members: seq<Member>, slots: seq<Member>, m: Member, s: nat)
    requires Collapsed(members, slots) && s < |slots|
    ensures Put(slots, m)[s] == if slots[s].key == m.key then Member(slots[s].key, m.value) else slots[s]
  {
    CollapsedIsDistinct(members, slots);
  }

  lemma PutKeepsKeys(members: seq<Member>, slots: seq<Member>, m: Member)
    requires forall k :: 0 <= k < |members| ==> Has(slots, members[k].key)
    ensures forall k :: 0 <= k < |members| + 1 ==> Has(Put(slots, m), (members + [m])[k].key)
  {
    var next := Put(slots, m);
    var at := SlotOf(slots, m.key);
    assert next[at].key == m.key;
    forall k | 0 <= k < |members|
      ensures Has(next, members[k].key)
    {
      var s :| 0 <= s < |slots| && slots[s].key == members[k].key;
      assert next[s].key == members[k].key;
    }
  }

  lemma NewSlot(members: seq<Member>, slots: seq<Member>, m: Member)
    requires Collapsed(members, slots) && !Has(slots, m.key)
    ensures Has(members + [m], m.key) && FirstAt(members + [m], m.key) == |members|
    ensures Lookup(members + [m], m.key) == Some(m.value)
  {
    var all := members + [m];
    LookupSnoc(members, m, m.key);
    assert all[|members|] == m;
    forall k | 0 <= k < |members|
      ensures members[k].key != m.key
    {
      assert Has(slots, members[k].key);
    }
  }

  lemma PutCollapses(members: seq<Member>, slots: seq<Member>, m: Member)
    requires Collapsed(members, slots)
    ensures Collapsed(members + [m], Put(slots, m))
  {
    var all := members + [m];
    var next := Put(slots, m);
    PutKeepsKeys(members, slots, m);
    forall s | 0 <= s < |slots|
      ensures next[s].key == slots[s].key
      ensures Has(all, next[s].key) && Lookup(all, next[s].key) == Some(next[s].value)
      ensures FirstAt(all, next[s].key) == FirstAt(members, slots[s].key)
    {
      OldSlot(members, slots, m, s);
    }
    if |next| > |slots| {
      NewSlot(members, slots, m);
      assert next[|slots|] == m;
    }
  }

  lemma OldSlot(members: seq<Member>, slots: seq<Member>, m: Member, s: nat)
    requires Collapsed(members, slots) && s < |slots|
    ensures var all, next := members + [m], Put(slots, m);
            && s < |next| && next[s].key == slots[s].key
            && Has(all, next[s].key) && Lookup(all, next[s].key) == Some(next[s].value)
            && FirstAt(all, next[s].key) == FirstAt(members, slots[s].key)
  {
    SlotAfter(members, slots[s], m);
    PutOnce(members, slots, m, s);
  }

  lemma {:induction false} CollapseCollapses(members: seq<Member>)
    ensures Collapsed(members, Collapse(members))
  {
    if members != [] {
      var init := members[..|members| - 1];
      CollapseCollapses(init);
      PutCollapses(init, Collapse(init), members[|members| - 1]);
      assert init + [members[|members| - 1]] == members;
    }
  }

  lemma CollapsedIsDistinct(members: seq<Member>, slots: seq<Member>)
    requires Collapsed(members, slots)
    ensures DistinctKeys(slots)
  {
    forall i, j | 0 <= i < j < |slots|
      ensures slots[i].key != slots[j].key
    {
      assert FirstAt(members, slots[i].key) < FirstAt(members, slots[j].key);
    }
  }

  lemma {:induction false} LookupInDistinct(slots: seq<Member>, key: Text)
    requires DistinctKeys(slots)
    ensures if Has(slots, key) then exists k :: 0 <= k < |slots| && slots[k].key == key && Lookup(slots, key) == Some(slots[k].value)
            else Lookup(slots, key) == None
  {
    if slots != [] {
      var n := |slots| - 1;
      if slots[n].key != key {
        LookupInDistinct(slots[..n], key);
        if Has(slots[..n], key) {
          var k :| 0 <= k < n && slots[..n][k].key == key && Lookup(slots[..n], key) == Some(slots[..n][k].value);
          assert slots[k].key == key;
        }
      }
    }
  }

  lemma {:induction false} LookupFinds(members: seq<Member>, key: Text)
    ensures Lookup(members, key).Some? <==> Has(members, key)
  {
    if members != [] {
      var n := |members| - 1;
      LookupFinds(members[..n], key);
      if Has(members[..n], key) {
        var k :| 0 <= k < n && members[..n][k].key == key;
        assert members[k].key == key;
      }
      if Has(members, key) && members[n].key != key {
        var k :| 0 <= k < |members| && members[k].key == key;
        assert members[..n][k].key == key;
      }
    }
  }

  /** A slot list with distinct keys is looked up alike in any order. */
  lemma DistinctLookup(slots: seq<Member>, k: nat)
    requires DistinctKeys(slots) && k < |slots|
    ensures Lookup(slots, slots[k].key) == Some(slots[k].value)
  {
    LookupInDistinct(slots, slots[k].key);
  }

  // ---- the sort ----

  lemma {:induction false} InsertKeeps(m: Member, sorted: seq<Member>)
    ensures multiset(Insert(m, sorted)) == multiset{m} + multiset(sorted)
    ensures |Insert(m, sorted)| == |sorted| + 1
  {
    if !(sorted == [] || RankLe(m, sorted[0])) {
      InsertKeeps(m, sorted[1..]);
      assert sorted == [sorted[0]] + sorted[1..];
    }
  }

  lemma RankOrder(a: Member, b: Member, c: Member)
    ensures RankLe(a, b) || RankLe(b, a)
    ensures RankLe(a, b) && RankLe(b, c) ==> RankLe(a, c)
  {
  }

  lemma {:induction false} InsertRanks(m: Member, sorted: seq<Member>)
    requires Ranked(sorted)
    ensures Ranked(Insert(m, sorted))
  {
    if sorted == [] {
    } else if RankLe(m, sorted[0]) {
      forall j | 0 <= j < |sorted|
        ensures RankLe(m, sorted[j])
      {
        RankOrder(m, sorted[0], sorted[j]);
      }
    } else {
      var rest := Insert(m, sorted[1..]);
      InsertRanks(m, sorted[1..]);
      InsertKeeps(m, sorted[1..]);
      RankOrder(m, sorted[0], m);
      forall j | 0 <= j < |rest|
        ensures RankLe(sorted[0], rest[j])
      {
        assert rest[j] in multiset(rest);
        if rest[j] != m {
          assert rest[j] in sorted[1..];
        }
      }
    }
  }

  lemma {:induction false} SortRanks(slots: seq<Member>)
    ensures Ranked(SortByIndex(slots))
    ensures multiset(SortByIndex(slots)) == multiset(slots)
    ensures |SortByIndex(slots)| == |slots|
  {
    if slots != [] {
      SortRanks(slots[1..]);
      InsertRanks(slots[0], SortByIndex(slots[1..]));
      InsertKeeps(slots[0], SortByIndex(slots[1..]));
      assert slots == [slots[0]] + slots[1..];
    }
  }

  /** The members with a key that ranks as the given one does, in order. */
  function Alike(members: seq<Member>, rank: Option<nat>): seq<Member> {
    if members == [] then []
    else (if ArrayIndex(members[0].key) == rank then [members[0]] else []) + Alike(members[1..], rank)
  }

  lemma {:induction false} InsertIsStable(m: Member, sorted: seq<Member>, rank: Option<nat>)
    requires Ranked(sorted)
    ensures Alike(Insert(m, sorted), rank) == Alike([m] + sorted, rank)
  {
    assert ([m] + sorted)[1..] == sorted;
    if !(sorted == [] || RankLe(m, sorted[0])) {
      InsertIsStable(m, sorted[1..], rank);
      assert ([m] + sorted[1..])[1..] == sorted[1..];
      assert Insert(m, sorted)[1..] == Insert(m, sorted[1..]);
    }
  }

  /** The sort is stable: members that rank alike stay in the order they came. */
  lemma {:induction false} SortIsStable(slots: seq<Member>, rank: Option<nat>)
    ensures Alike(SortByIndex(slots), rank) == Alike(slots, rank)
  {
    if slots != [] {
      var rest := SortByIndex(slots[1..]);
      SortRanks(slots[1..]);
      SortIsStable(slots[1..], rank);
      InsertIsStable(slots[0], rest, rank);
      assert ([slots[0]] + rest)[1..] == rest;
    }
  }

  lemma {:induction false} SortOfRanked(slots: seq<Member>)
    requires Ranked(slots)
    ensures SortByIndex(slots) == slots
  {
    if slots != [] {
      SortOfRanked(slots[1..]);
      assert slots == [slots[0]] + slots[1..];
    }
  }

  lemma PutNew(slots: seq<Member>, m: Member)
    requires forall k :: 0 <= k < |slots| ==> slots[k].key != m.key
    ensures Put(slots, m) == slots + [m]
  {
  }

  lemma {:induction false} CollapseOfDistinct(slots: seq<Member>, n: nat)
    requires DistinctKeys(slots) && n <= |slots|
    ensures Collapse(slots[..n]) == slots[..n]
  {
    if n > 0 {
      CollapseOfDistinct(slots, n - 1);
      var s, init := slots[..n], slots[..n - 1];
      assert s[..n - 1] == init;
      assert s == init + [slots[n - 1]];
      assert forall k :: 0 <= k < n - 1 ==> init[k] == slots[k];
      PutNew(init, slots[n - 1]);
    }
  }

  lemma SortKeepsDistinct(slots: seq<Member>)
    requires DistinctKeys(slots)
    ensures DistinctKeys(SortByIndex(slots))
  {
    SortRanks(slots);
    var sorted := SortByIndex(slots);
    forall i, j | 0 <= i < j < |sorted|
      ensures sorted[i].key != sorted[j].key
    {
      if sorted[i].key == sorted[j].key {
        assert sorted[i] in multiset(slots) && sorted[j] in multiset(slots);
        var a :| 0 <= a < |slots| && slots[a] == sorted[i];
        var b :| 0 <= b < |slots| && slots[b] == sorted[j];
        assert a == b;
        TwiceInMultiset(sorted, i, j);
        OnceInMultiset(slots, a);
        assert false;
      }
    }
  }

  lemma TwiceInMultiset(s: seq<Member>, i: nat, j: nat)
    requires i < j < |s| && s[i] == s[j]
    ensures multiset(s)[s[i]] >= 2
  {
    assert s == s[..j] + s[j..];
    assert s[..j][i] == s[i] && s[j..][0] == s[i];
    assert s[i] in multiset(s[..j]) && s[i] in multiset(s[j..]);
  }

  lemma OnceInMultiset(s: seq<Member>, a: nat)
    requires DistinctKeys(s) && a < |s|
    ensures multiset(s)[s[a]] == 1
  {
    assert s == s[..a] + [s[a]] + s[a + 1..];
    assert s[a] !in s[..a] && s[a] !in s[a + 1..];
  }

  // ---- the order as a whole ----

  /** JavaScript's order: each key once, indices first and ascending, the others by first occurrence, and every lookup as before. */
  lemma JsOrderMeaning(members: seq<Member>, key: Text)
    ensures DistinctKeys(JsOrder(members)) && Ranked(JsOrder(members))
    ensures Lookup(JsOrder(members), key) == Lookup(members, key)
    ensures Alike(JsOrder(members), None) == Alike(Collapse(members), None)
    ensures Collapsed(members, Collapse(members))
  {
    var slots := Collapse(members);
    var sorted := JsOrder(members);
    CollapseCollapses(members);
    CollapsedIsDistinct(members, slots);
    SortRanks(slots);
    SortKeepsDistinct(slots);
    SortIsStable(slots, None);
    LookupFinds(members, key);
    LookupFinds(sorted, key);
    if Has(sorted, key) {
      var s :| 0 <= s < |sorted| && sorted[s].key == key;
      DistinctLookup(sorted, s);
      assert sorted[s] in multiset(slots);
      var k :| 0 <= k < |slots| && slots[k] == sorted[s];
      assert Lookup(members, slots[k].key) == Some(slots[k].value);
    }
    if Has(members, key) {
      var m :| 0 <= m < |members| && members[m].key == key;
      assert Has(slots, members[m].key);
      var k :| 0 <= k < |slots| && slots[k].key == key;
      assert slots[k] in multiset(sorted);
      var s :| 0 <= s < |sorted| && sorted[s] == slots[k];
      assert Has(sorted, key);
    }
  }

  /** Members that are in order already stay as they are. */
  lemma JsOrderIsIdempotent(members: seq<Member>)
    ensures JsOrder(JsOrder(members)) == JsOrder(members)
  {
    JsOrderMeaning(members, []);
    var sorted := JsOrder(members);
    CollapseOfDistinct(sorted, |sorted|);
    assert sorted[..|sorted|] == sorted;
    SortOfRanked(sorted);
  }

  /** Every member comes from one with its key and value. */
  lemma JsOrderMembers(members: seq<Member>, s: nat)
    requires s < |JsOrder(members)|
    ensures exists k :: 0 <= k < |members| && members[k] == JsOrder(members)[s]
  {
    var m := JsOrder(members)[s];
    JsOrderMeaning(members, m.key);
    DistinctLookup(JsOrder(members), s);
    LookupSource(members, m.key);
  }

  lemma {:induction false} LookupSource(members: seq<Member>, key: Text)
    requires Lookup(members, key).Some?
    ensures exists k :: 0 <= k < |members| && members[k] == Member(key, Lookup(members, key).value)
  {
    var n := |members| - 1;
    if members[n].key != key {
      LookupSource(members[..n], key);
      var k :| 0 <= k < n && members[..n][k] == Member(key, Lookup(members, key).value);
      assert members[k] == members[..n][k];
    } else {
      assert members[n] == Member(key, Lookup(members, key).value);
    }
  }

  lemma JsOrderKeepsKeys(members: seq<Member>, k: nat)
    requires k < |members|
    ensures Has(JsOrder(members), members[k].key)
  {
    JsOrderMeaning(members, members[k].key);
    LookupFinds(members, members[k].key);
    LookupFinds(JsOrder(members), members[k].key);
  }

  lemma JsOrderKeepsTextKeys(members: seq<Member>)
    ensures TextKeys(JsOrder(members)) <==> TextKeys(members)
  {
    var sorted := JsOrder(members);
    forall s | 0 <= s < |sorted|
      ensures exists k :: 0 <= k < |members| && members[k] == sorted[s]
    {
      JsOrderMembers(members, s);
    }
    if TextKeys(sorted) {
      forall k | 0 <= k < |members|
        ensures WellFormed(members[k].key)
      {
        JsOrderKeepsKeys(members, k);
        var s :| 0 <= s < |sorted| && sorted[s].key == members[k].key;
      }
    }
  }

  // ---- what printing keeps of a value ----

  /** A value with the members of every object in order and every zero without its sign: what is left of it once printed. */
  function Canon(v: Value): Value
    decreases v
  {
    match v
    case Number(n) => Number(Unsigned(n))
    case Array(items) => Array(CanonItems(items))
    case Object(members) => Object(JsOrder(CanonMembers(members)))
    case Keyed(members) => Keyed(JsOrder(CanonMembers(members)))
    case _ => v
  }

  function CanonItems(items: seq<Value>): (r: seq<Value>)
    ensures |r| == |items|
    ensures forall k :: 0 <= k < |items| ==> r[k] == Canon(items[k])
    decreases items
  {
    if items == [] then [] else [Canon(items[0])] + CanonItems(items[1..])
  }

  function CanonMembers(members: seq<Member>): (r: seq<Member>)
    ensures |r| == |members|
    ensures forall k :: 0 <= k < |members| ==> r[k] == Member(members[k].key, Canon(members[k].value))
    decreases members
  {
    if members == [] then []
    else [Member(members[0].key, Canon(members[0].value))] + CanonMembers(members[1..])
  }

  lemma {:induction false} SlotOfCanon(slots: seq<Member>, key: Text)
    ensures SlotOf(CanonMembers(slots), key) == SlotOf(slots, key)
  {
    if slots != [] {
      SlotOfCanon(slots[1..], key);
    }
  }

  lemma PutCanon(slots: seq<Member>, m: Member)
    ensures Put(CanonMembers(slots), Member(m.key, Canon(m.value))) == CanonMembers(Put(slots, m))
  {
    SlotOfCanon(slots, m.key);
  }

  lemma {:induction false} CollapseCanon(members: seq<Member>)
    ensures Collapse(CanonMembers(members)) == CanonMembers(Collapse(members))
  {
    if members != [] {
      var init := members[..|members| - 1];
      CollapseCanon(init);
      assert CanonMembers(members)[..|members| - 1] == CanonMembers(init);
      PutCanon(Collapse(init), members[|members| - 1]);
    }
  }

  lemma {:induction false} InsertCanon(m: Member, sorted: seq<Member>)
    ensures CanonMembers(Insert(m, sorted)) == Insert(Member(m.key, Canon(m.value)), CanonMembers(sorted))
  {
    if !(sorted == [] || RankLe(m, sorted[0])) {
      InsertCanon(m, sorted[1..]);
      assert CanonMembers(sorted)[1..] == CanonMembers(sorted[1..]);
    }
  }

  lemma {:induction false} SortCanon(slots: seq<Member>)
    ensures SortByIndex(CanonMembers(slots)) == CanonMembers(SortByIndex(slots))
  {
    if slots != [] {
      SortCanon(slots[1..]);
      assert CanonMembers(slots)[1..] == CanonMembers(slots[1..]);
      InsertCanon(slots[0], SortByIndex(slots[1..]));
    }
  }

  /** It does not matter whether the members or their values are put in order first. */
  lemma JsOrderCanon(members: seq<Member>)
    ensures JsOrder(CanonMembers(members)) == CanonMembers(JsOrder(members))
  {
    CollapseCanon(members);
    SortCanon(Collapse(members));
  }

  lemma CanonItemsTwice(items: seq<Value>)
    requires forall k :: 0 <= k < |items| ==> Canon(Canon(items[k])) == Canon(items[k])
    ensures CanonItems(CanonItems(items)) == CanonItems(items)
  {
  }

  lemma {:induction false} CanonIsIdempotent(v: Value)
    ensures Canon(Canon(v)) == Canon(v)
    decreases v, 1
  {
    match v
    case Array(items) =>
      forall k | 0 <= k < |items| ensures Canon(Canon(items[k])) == Canon(items[k]) {
        CanonIsIdempotent(items[k]);
      }
      CanonItemsTwice(items);
    case Object(members) => MembersCanonIsIdempotent(members);
    case Keyed(members) => MembersCanonIsIdempotent(members);
    case _ =>
  }

  lemma {:induction false} MembersCanonIsIdempotent(members: seq<Member>)
    ensures JsOrder(CanonMembers(JsOrder(CanonMembers(members)))) == JsOrder(CanonMembers(members))
    decreases members, 0
  {
    forall k | 0 <= k < |members| ensures Canon(Canon(members[k].value)) == Canon(members[k].value) {
      CanonIsIdempotent(members[k].value);
    }
    CanonMembersTwice(members);
  }

  lemma CanonMembersTwice(members: seq<Member>)
    requires forall k :: 0 <= k < |members| ==> Canon(Canon(members[k].value)) == Canon(members[k].value)
    ensures JsOrder(CanonMembers(JsOrder(CanonMembers(members)))) == JsOrder(CanonMembers(members))
  {
    var once := CanonMembers(members);
    assert CanonMembers(once) == once;
    JsOrderCanon(once);
    JsOrderIsIdempotent(once);
  }

  lemma CanonMembersProper(members: seq<Member>)
    requires forall k :: 0 <= k < |members| ==> Proper(Canon(members[k].value))
    ensures forall s :: 0 <= s < |JsOrder(CanonMembers(members))| ==> Proper(JsOrder(CanonMembers(members))[s].value)
    ensures TextKeys(JsOrder(CanonMembers(members))) <==> TextKeys(members)
  {
    var canon := CanonMembers(members);
    forall s | 0 <= s < |JsOrder(canon)|
      ensures Proper(JsOrder(canon)[s].value)
    {
      JsOrderMembers(canon, s);
    }
    JsOrderKeepsTextKeys(canon);
    assert forall k :: 0 <= k < |members| ==> canon[k].key == members[k].key;
  }

  lemma {:induction false} CanonIsProper(v: Value)
    requires Proper(v)
    ensures Proper(Canon(v))
    decreases v
  {
    match v
    case Array(items) =>
      forall k | 0 <= k < |items| ensures Proper(Canon(items[k])) {
        CanonIsProper(items[k]);
      }
    case Object(members) =>
      forall k | 0 <= k < |members| ensures Proper(Canon(members[k].value)) {
        CanonIsProper(members[k].value);
      }
      CanonMembersProper(members);
    case Keyed(members) =>
      forall k | 0 <= k < |members| ensures Proper(Canon(members[k].value)) {
        CanonIsProper(members[k].value);
      }
      CanonMembersProper(members);
    case _ =>
  }

  lemma {:induction false} LookupCanon(members: seq<Member>, key: Text)
    ensures Lookup(CanonMembers(members), key)
         == match Lookup(members, key) { case None => None case Some(v) => Some(Canon(v)) }
  {
    if members != [] {
      LookupCanon(members[..|members| - 1], key);
      assert CanonMembers(members)[..|members| - 1] == CanonMembers(members[..|members| - 1]);
    }
  }

  lemma LookupPrinted(members: seq<Member>, key: Text)
    ensures Lookup(JsOrder(CanonMembers(members)), key)
         == match Lookup(members, key) { case None => None case Some(v) => Some(Canon(v)) }
  {
    JsOrderMeaning(CanonMembers(members), key);
    LookupCanon(members, key);
  }

  /** Reading a key of a printed object gives what it gave before, as printed. */
  lemma GetCanon(v: Value, key: Text)
    ensures Get(Canon(v), key) == match Get(v, key) { case None => None case Some(w) => Some(Canon(w)) }
  {
    if v.Object? || v.Keyed? {
      LookupPrinted(v.members, key);
    }
  }
}
