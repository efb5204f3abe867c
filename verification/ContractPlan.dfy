/** The plan of the contract generator: what a generation would write and delete, and the version that the plugin moves to. */
module ContractPlan {
  import opened Common
  import opened Utf16
  import opened JsonValue
  import opened JsonFile
  import O = JsonOrder
  import opened ContractDigest
  import opened ContractVersion

  const CONTRACT_FILE: string := "contract.json"
  const PLUGIN_FILE: string := ".claude-plugin/plugin.json"
  const MARKETPLACE_FILE: string := ".claude-plugin/marketplace.json"
  const SKILLS_DIR: string := "skills"
  const REFERENCES_DIR: string := "skills/tagents/references"
  const SHIPPED_FILE: string := "packages/knowledge/bin/knowledge-mcp"

  /** The text of each file. */
  type Disk = map<string, Text>

  predicate Under(path: string, dir: string) {
    |path| > |dir| && path[..|dir|] == dir && path[|dir|] == '/'
  }

  /** The contract and the references: everything that is generated. */
  predicate IsGenerated(generated: Disk, contract: Value) {
    && CONTRACT_FILE in generated && generated[CONTRACT_FILE] == Render(contract)
    && forall p :: p in generated ==> p == CONTRACT_FILE || Under(p, REFERENCES_DIR)
  }

  /** The keys "version", "metadata" and "digest". */
  const VERSION: Text := [0x76, 0x65, 0x72, 0x73, 0x69, 0x6F, 0x6E]
  const METADATA: Text := [0x6D, 0x65, 0x74, 0x61, 0x64, 0x61, 0x74, 0x61]
  const DIGEST: Text := [0x64, 0x69, 0x67, 0x65, 0x73, 0x74]

  datatype Error = MissingFile | BadJson | BadMetadata | BadVersionField | BadVersion

  // ---- plugin.json ----

  /** An object, whatever its keys hold: JavaScript makes no difference. */
  function MembersIn(v: Value): Option<seq<Member>> {
    if v.Object? || v.Keyed? then Some(v.members) else None
  }

  function StringOf(v: Option<Value>): Option<Text> {
    match v
    case Some(String(t)) => Some(t)
    case Some(Units(t)) => Some(t)
    case _ => None
  }

  function WithoutKey(members: seq<Member>, key: Text): seq<Member> {
    if members == [] then []
    else WithoutKey(members[..|members| - 1], key) + (if members[|members| - 1].key == key then [] else [members[|members| - 1]])
  }

  /** `metadata`, which is empty when there is none. */
  function MetadataOf(plugin: seq<Member>): Option<seq<Member>> {
    match Lookup(plugin, METADATA)
    case None => Some([])
    case Some(v) => MembersIn(v)
  }

  /** plugin.json without the two keys that the generator owns; `metadata` goes too when the digest was all of it. */
  function WithoutOwnKeys(plugin: seq<Member>): seq<Member> {
    if plugin == [] then [] else WithoutOwnKeys(plugin[..|plugin| - 1]) + Kept(plugin[|plugin| - 1])
  }

  function Kept(m: Member): seq<Member> {
    if m.key == VERSION then []
    else if m.key == METADATA && MembersIn(m.value).Some? then
      var rest := WithoutKey(MembersIn(m.value).value, DIGEST);
      if rest == [] then [] else [Member(METADATA, ObjectOf(rest))]
    else [m]
  }

  /** plugin.json with the new version and digest: every other key is where it was, and `metadata` comes last when it is new. */
  function WithOwnKeys(plugin: seq<Member>, metadata: seq<Member>, version: Text, digest: Text): seq<Member> {
    Put(WithVersion(plugin, version), Member(METADATA, ObjectOf(WithDigest(metadata, digest))))
  }

  function WithVersion(plugin: seq<Member>, version: Text): seq<Member> {
    if SlotOf(plugin, VERSION) < |plugin| then Put(plugin, Member(VERSION, FromUnits(version))) else plugin
  }

  function WithDigest(metadata: seq<Member>, digest: Text): seq<Member> {
    Put(metadata, Member(DIGEST, FromUnits(digest)))
  }

  lemma {:induction false} WithoutKeySet(members: seq<Member>, at: nat, m: Member, key: Text)
    requires at < |members| && members[at].key == key && m.key == key
    ensures WithoutKey(members[at := m], key) == WithoutKey(members, key)
  {
    var n := |members| - 1;
    if at < n {
      WithoutKeySet(members[..n], at, m, key);
      assert members[at := m][..n] == members[..n][at := m];
    } else {
      assert members[at := m][..n] == members[..n];
    }
  }

  lemma WithoutKeyPut(members: seq<Member>, m: Member)
    ensures WithoutKey(Put(members, m), m.key) == WithoutKey(members, m.key)
  {
    var at := SlotOf(members, m.key);
    if at < |members| {
      WithoutKeySet(members, at, Member(members[at].key, m.value), m.key);
    } else {
      assert (members + [m])[..|members|] == members;
      assert WithoutKey(members, m.key) + [] == WithoutKey(members, m.key);
    }
  }

  lemma {:induction false} WithoutOwnKeysSet(plugin: seq<Member>, at: nat, m: Member)
    requires at < |plugin| && Kept(m) == Kept(plugin[at])
    ensures WithoutOwnKeys(plugin[at := m]) == WithoutOwnKeys(plugin)
  {
    var n := |plugin| - 1;
    if at < n {
      WithoutOwnKeysSet(plugin[..n], at, m);
      assert plugin[at := m][..n] == plugin[..n][at := m];
    } else {
      assert plugin[at := m][..n] == plugin[..n];
    }
  }

  lemma WithoutOwnKeysPut(plugin: seq<Member>, m: Member)
    requires var at := SlotOf(plugin, m.key);
             if at < |plugin| then Kept(Member(m.key, m.value)) == Kept(plugin[at]) else Kept(m) == []
    ensures WithoutOwnKeys(Put(plugin, m)) == WithoutOwnKeys(plugin)
  {
    var at := SlotOf(plugin, m.key);
    if at < |plugin| {
      WithoutOwnKeysSet(plugin, at, Member(plugin[at].key, m.value));
    } else {
      assert (plugin + [m])[..|plugin|] == plugin;
      assert WithoutOwnKeys(plugin) + [] == WithoutOwnKeys(plugin);
    }
  }

  lemma SlotIsLookup(plugin: seq<Member>, key: Text)
    requires DistinctKeys(plugin)
    ensures var at := SlotOf(plugin, key);
            Lookup(plugin, key) == if at < |plugin| then Some(plugin[at].value) else None
  {
    O.LookupFinds(plugin, key);
    var at := SlotOf(plugin, key);
    if at < |plugin| {
      O.DistinctLookup(plugin, at);
    }
  }

  lemma SlotIsUnique(slots: seq<Member>, k: nat)
    requires DistinctKeys(slots) && k < |slots|
    ensures SlotOf(slots, slots[k].key) == k
  {
    var i := SlotOf(slots, slots[k].key);
    assert i <= k;
  }

  lemma PutLooksUp(members: seq<Member>, m: Member, key: Text)
    requires DistinctKeys(members)
    ensures DistinctKeys(Put(members, m))
    ensures Lookup(Put(members, m), key) == if key == m.key then Some(m.value) else Lookup(members, key)
  {
    var after := Put(members, m);
    var at := SlotOf(members, m.key);
    var j := SlotOf(members, key);
    assert DistinctKeys(after);
    SlotIsLookup(after, key);
    SlotIsLookup(members, key);
    if key == m.key {
      SlotIsUnique(after, at);
    } else if j < |members| {
      SlotIsUnique(after, j);
    } else {
      assert forall k :: 0 <= k < |after| ==> after[k].key != key;
    }
  }

  /** The digest is over a plugin.json without what the generator writes into it: what it wrote makes no difference. */
  lemma OwnKeysAreIgnored(plugin: seq<Member>, metadata: seq<Member>, version: Text, digest: Text)
    requires DistinctKeys(plugin) && MetadataOf(plugin) == Some(metadata)
    ensures WithoutOwnKeys(WithOwnKeys(plugin, metadata, version, digest)) == WithoutOwnKeys(plugin)
  {
    assert VERSION[0] != METADATA[0];
    if SlotOf(plugin, VERSION) < |plugin| {
      WithoutOwnKeysPut(plugin, Member(VERSION, FromUnits(version)));
      PutLooksUp(plugin, Member(VERSION, FromUnits(version)), METADATA);
    }
    MetadataIsIgnored(WithVersion(plugin, version), metadata, digest);
  }

  lemma MetadataIsIgnored(plugin: seq<Member>, metadata: seq<Member>, digest: Text)
    requires DistinctKeys(plugin) && MetadataOf(plugin) == Some(metadata)
    ensures WithoutOwnKeys(Put(plugin, Member(METADATA, ObjectOf(WithDigest(metadata, digest))))) == WithoutOwnKeys(plugin)
  {
    SlotIsLookup(plugin, METADATA);
    WithoutKeyPut(metadata, Member(DIGEST, FromUnits(digest)));
    WithoutOwnKeysPut(plugin, Member(METADATA, ObjectOf(WithDigest(metadata, digest))));
  }

  /** And what it wrote is read back. */
  lemma OwnKeysReadBack(plugin: seq<Member>, metadata: seq<Member>, version: Text, digest: Text)
    requires DistinctKeys(plugin) && MetadataOf(plugin) == Some(metadata) && DistinctKeys(metadata) && Lookup(plugin, VERSION).Some?
    ensures var after := WithOwnKeys(plugin, metadata, version, digest);
            && DistinctKeys(after) && StringOf(Lookup(after, VERSION)) == Some(version)
            && MetadataOf(after).Some? && StringOf(Lookup(MetadataOf(after).value, DIGEST)) == Some(digest)
  {
    assert VERSION[0] != METADATA[0];
    SlotIsLookup(plugin, VERSION);
    var own := WithDigest(metadata, digest);
    PutLooksUp(plugin, Member(VERSION, FromUnits(version)), VERSION);
    PutLooksUp(WithVersion(plugin, version), Member(METADATA, ObjectOf(own)), VERSION);
    PutLooksUp(WithVersion(plugin, version), Member(METADATA, ObjectOf(own)), METADATA);
    PutLooksUp(metadata, Member(DIGEST, FromUnits(digest)), DIGEST);
  }

  // ---- plugin.json stays in order ----

  lemma PutIsOrdered(members: seq<Member>, m: Member)
    requires Ordered(members) && InOrder(m.value) && ArrayIndex(m.key).None?
    ensures Ordered(Put(members, m))
  {
    PutLooksUp(members, m, m.key);
  }

  lemma OwnKeysAreNoIndices()
    ensures ArrayIndex(VERSION).None? && ArrayIndex(METADATA).None? && ArrayIndex(DIGEST).None?
  {
    assert VERSION[0] == 0x76 && METADATA[0] == 0x6D && DIGEST[0] == 0x64;
  }

  lemma OwnKeysStayOrdered(plugin: seq<Member>, metadata: seq<Member>, version: Text, digest: Text)
    requires Ordered(plugin) && Ordered(metadata)
    ensures Ordered(WithOwnKeys(plugin, metadata, version, digest))
  {
    OwnKeysAreNoIndices();
    if SlotOf(plugin, VERSION) < |plugin| {
      PutIsOrdered(plugin, Member(VERSION, FromUnits(version)));
    }
    PutIsOrdered(metadata, Member(DIGEST, FromUnits(digest)));
    ObjectInOrder(WithDigest(metadata, digest));
    PutIsOrdered(WithVersion(plugin, version), Member(METADATA, ObjectOf(WithDigest(metadata, digest))));
  }

  lemma MetadataIsOrdered(plugin: seq<Member>)
    requires Ordered(plugin) && MetadataOf(plugin).Some?
    ensures Ordered(MetadataOf(plugin).value)
  {
    if Lookup(plugin, METADATA).Some? {
      O.LookupSource(plugin, METADATA);
      MembersInOrder(Lookup(plugin, METADATA).value);
    }
  }

  /** What is kept has no key but those of the members. */
  predicate From(kept: seq<Member>, members: seq<Member>) {
    forall k :: 0 <= k < |kept| ==> O.Has(members, kept[k].key)
  }

  lemma HasStill(members: seq<Member>, n: nat, key: Text)
    requires n < |members| && O.Has(members[..n], key)
    ensures O.Has(members[..n + 1], key)
    ensures exists j :: 0 <= j < n && members[j].key == key
  {
    var j :| 0 <= j < n && members[..n][j].key == key;
    assert members[..n + 1][j] == members[j];
  }

  lemma StillFrom(kept: seq<Member>, members: seq<Member>, n: nat)
    requires n < |members| && From(kept, members[..n])
    ensures From(kept, members[..n + 1])
  {
    forall k | 0 <= k < |kept|
      ensures O.Has(members[..n + 1], kept[k].key)
    {
      HasStill(members, n, kept[k].key);
    }
  }

  lemma AddedIsOrdered(kept: seq<Member>, members: seq<Member>, n: nat, m: Member)
    requires n < |members| && DistinctKeys(members) && Ranked(members) && Ordered(kept) && From(kept, members[..n])
    requires m.key == members[n].key && InOrder(m.value)
    ensures Ordered(kept + [m]) && From(kept + [m], members[..n + 1])
  {
    forall k | 0 <= k < |kept|
      ensures kept[k].key != m.key && RankLe(kept[k], m)
    {
      HasStill(members, n, kept[k].key);
      var j :| 0 <= j < n && members[j].key == kept[k].key;
      assert RankLe(members[j], members[n]);
    }
    StillFrom(kept, members, n);
    assert members[..n + 1][n].key == m.key;
  }

  lemma {:induction false} WithoutKeyIsOrdered(members: seq<Member>, key: Text, n: nat)
    requires Ordered(members) && n <= |members|
    ensures Ordered(WithoutKey(members[..n], key)) && From(WithoutKey(members[..n], key), members[..n])
    decreases n
  {
    if n > 0 {
      assert members[..n][..n - 1] == members[..n - 1];
      WithoutKeyIsOrdered(members, key, n - 1);
      AddedIsOrdered(WithoutKey(members[..n - 1], key), members, n - 1, members[n - 1]);
      StillFrom(WithoutKey(members[..n - 1], key), members, n - 1);
      assert WithoutKey(members[..n - 1], key) + [] == WithoutKey(members[..n - 1], key);
    }
  }

  /** What is kept of a member is in order. */
  lemma KeptIsOrdered(m: Member)
    requires InOrder(m.value)
    ensures Kept(m) == [] || (|Kept(m)| == 1 && Kept(m)[0].key == m.key && InOrder(Kept(m)[0].value))
  {
    if m.key == METADATA && MembersIn(m.value).Some? {
      MembersInOrder(m.value);
      var inner := MembersIn(m.value).value;
      WithoutKeyIsOrdered(inner, DIGEST, |inner|);
      assert inner[..|inner|] == inner;
      ObjectInOrder(WithoutKey(inner, DIGEST));
    }
  }

  lemma {:induction false} RestIsOrdered(plugin: seq<Member>, n: nat)
    requires Ordered(plugin) && n <= |plugin|
    ensures Ordered(WithoutOwnKeys(plugin[..n])) && From(WithoutOwnKeys(plugin[..n]), plugin[..n])
    decreases n
  {
    if n > 0 {
      assert plugin[..n][..n - 1] == plugin[..n - 1];
      var rest := WithoutOwnKeys(plugin[..n - 1]);
      RestIsOrdered(plugin, n - 1);
      KeptIsOrdered(plugin[n - 1]);
      StillFrom(rest, plugin, n - 1);
      if Kept(plugin[n - 1]) == [] {
        assert rest + [] == rest;
      } else {
        var m := Kept(plugin[n - 1])[0];
        AddedIsOrdered(rest, plugin, n - 1, m);
        assert Kept(plugin[n - 1]) == [m];
      }
    }
  }

  // ---- what goes into the digest ----

  /** A file that ships as it is on disk. */
  predicate Carried(path: string) {
    (Under(path, SKILLS_DIR) && !Under(path, REFERENCES_DIR)) || path == SHIPPED_FILE || path == MARKETPLACE_FILE
  }

  function PayloadAt(generated: Disk, disk: Disk, plugin: seq<Member>, path: string): Option<Text> {
    if path in generated then Some(generated[path])
    else if path == PLUGIN_FILE then Some(Render(ObjectOf(WithoutOwnKeys(plugin))))
    else if path in disk && Carried(path) then Some(disk[path])
    else None
  }

  function Payload(generated: Disk, disk: Disk, plugin: seq<Member>): map<string, Text> {
    map p | p in generated.Keys + {PLUGIN_FILE} + disk.Keys && PayloadAt(generated, disk, plugin, p).Some? :: PayloadAt(generated, disk, plugin, p).value
  }

  lemma {:induction false} HasListing(m: map<string, Text>)
    ensures exists files: seq<(string, Text)> :: Lists(files, m)
    decreases |m|
  {
    if m == map[] {
      assert Lists([], m);
    } else {
      var p :| p in m;
      HasListing(m - {p});
      var rest: seq<(string, Text)> :| Lists(rest, m - {p});
      ListsOneMore(rest, m - {p}, p, m[p]);
      assert (m - {p})[p := m[p]] == m;
    }
  }

  /** The sorted files of the payload, whatever order they were collected in. */
  ghost function Listing(m: map<string, Text>): (files: seq<(string, Text)>)
    ensures forall order: seq<(string, Text)> :: Lists(order, m) ==> Sort(order) == files
  {
    HasListing(m);
    var files: seq<(string, Text)> :| Lists(files, m);
    assert forall order: seq<(string, Text)> :: Lists(order, m) ==> Sort(order) == Sort(files) by {
      forall order: seq<(string, Text)> | Lists(order, m)
        ensures Sort(order) == Sort(files)
      {
        OrderDoesNotMatter(order, files, m);
      }
    }
    Sort(files)
  }

  // ---- the plan ----

  datatype Plan = Plan(writes: Disk, deletes: set<string>, digest: Text, move: Move, from: Text, to: Text)

  datatype Outcome = Planned(plan: Plan) | Failed(error: Error)

  /** `decideVersion`. */
  function Decide(version: Text, stored: Option<Text>, digest: Text, onDisk: Option<Value>, contract: Value): (Move, Option<Text>) {
    if stored.None? then (First, Some(version))
    else if stored.value == digest then (Same, Some(version))
    else
      var move := if StructureChanged(onDisk, contract) then Minor else Patch;
      (move, Bump(version, move))
  }

  function Writes(generated: Disk, disk: Disk): Disk {
    map p | p in generated && (p !in disk || disk[p] != generated[p]) :: generated[p]
  }

  function Strays(generated: Disk, disk: Disk): set<string> {
    set p | p in disk && Under(p, REFERENCES_DIR) && p !in generated
  }

  function ContractOnDisk(disk: Disk): Option<Value> {
    if CONTRACT_FILE in disk then ParseJson(disk[CONTRACT_FILE]) else None
  }

  /** What the generator reads of plugin.json: its members, its metadata and its version. */
  datatype Reading = Reading(plugin: seq<Member>, metadata: seq<Member>, version: Text)

  function ReadPlugin(disk: Disk): (Option<Reading>, Error) {
    if PLUGIN_FILE !in disk then (None, MissingFile) else ReadContent(ParseJson(disk[PLUGIN_FILE]))
  }

  function ReadContent(json: Option<Value>): (Option<Reading>, Error) {
    if json.None? || MembersIn(json.value).None? then (None, BadJson)
    else
      var plugin := MembersIn(json.value).value;
      if MetadataOf(plugin).None? then (None, BadMetadata)
      else if StringOf(Lookup(plugin, VERSION)).None? then (None, BadVersionField)
      else (Some(Reading(plugin, MetadataOf(plugin).value, StringOf(Lookup(plugin, VERSION)).value)), BadJson)
  }

  function PluginText(r: Reading, version: Text, digest: Text): Text {
    Render(ObjectOf(WithOwnKeys(r.plugin, r.metadata, version, digest)))
  }

  /** What is written of plugin.json: nothing when the version does not move, or when the text is there already. */
  function OwnWrite(disk: Disk, r: Reading, move: Move, version: Text, digest: Text): Disk {
    if move.Same? || (PLUGIN_FILE in disk && disk[PLUGIN_FILE] == PluginText(r, version, digest)) then map[]
    else map[PLUGIN_FILE := PluginText(r, version, digest)]
  }

  ghost function PlanOf(generated: Disk, contract: Value, disk: Disk, hash: seq<(string, Text)> -> Text): Outcome {
    var (reading, error) := ReadPlugin(disk);
    if reading.None? then Failed(error)
    else
      var r := reading.value;
      var digest := hash(Listing(Payload(generated, disk, r.plugin)));
      var (move, to) := Decide(r.version, StringOf(Lookup(r.metadata, DIGEST)), digest, ContractOnDisk(disk), contract);
      if to.None? then Failed(BadVersion)
      else
        Planned(Plan(Writes(generated, disk) + OwnWrite(disk, r, move, to.value, digest), Strays(generated, disk), digest, move, r.version, to.value))
  }

  /** `applyPlan`. */
  function Applied(plan: Plan, disk: Disk): Disk {
    (disk + plan.writes) - plan.deletes
  }

  lemma PathsDiffer()
    ensures !Under(PLUGIN_FILE, REFERENCES_DIR) && !Carried(PLUGIN_FILE) && PLUGIN_FILE != CONTRACT_FILE
    ensures !Carried(CONTRACT_FILE) && !Under(CONTRACT_FILE, REFERENCES_DIR)
    ensures forall p :: Under(p, REFERENCES_DIR) ==> !Carried(p)
  {
    NotUnder(PLUGIN_FILE, REFERENCES_DIR);
    NotUnder(PLUGIN_FILE, SKILLS_DIR);
    NotUnder(CONTRACT_FILE, REFERENCES_DIR);
    NotUnder(CONTRACT_FILE, SKILLS_DIR);
    assert CONTRACT_FILE[0] == 'c' && SHIPPED_FILE[0] == 'p' && PLUGIN_FILE[0] == MARKETPLACE_FILE[0] == '.';
    assert |PLUGIN_FILE| != |MARKETPLACE_FILE|;
    forall p | p == SHIPPED_FILE || p == MARKETPLACE_FILE
      ensures !Under(p, REFERENCES_DIR)
    {
      NotUnder(p, REFERENCES_DIR);
    }
  }

  lemma NotUnder(path: string, dir: string)
    requires path != [] && dir != [] && path[0] != dir[0]
    ensures !Under(path, dir)
  {
    assert |path| > |dir| ==> path[..|dir|][0] == path[0];
  }

  /** What a plan leaves of each file, plugin.json aside: the generated ones as generated, no strays, and the others as they were. */
  ghost predicate Follows(generated: Disk, disk: Disk, after: Disk) {
    && (forall p :: p in generated ==> p in after && after[p] == generated[p])
    && (forall p :: p in after && p !in generated ==> !Under(p, REFERENCES_DIR))
    && (forall p :: p !in generated && !Under(p, REFERENCES_DIR) && p != PLUGIN_FILE ==>
          (p in after <==> p in disk) && (p in disk ==> after[p] == disk[p]))
  }

  lemma PlanParts(generated: Disk, contract: Value, disk: Disk, hash: seq<(string, Text)> -> Text) returns (r: Reading)
    requires PlanOf(generated, contract, disk, hash).Planned?
    ensures var plan := PlanOf(generated, contract, disk, hash).plan;
            && PLUGIN_FILE in disk && ReadPlugin(disk).0 == Some(r)
            && plan.writes == Writes(generated, disk) + OwnWrite(disk, r, plan.move, plan.to, plan.digest) && plan.deletes == Strays(generated, disk)
            && (plan.move.Same? ==> StringOf(Lookup(r.metadata, DIGEST)) == Some(plan.digest) && r.version == plan.to)
  {
    r := ReadPlugin(disk).0.value;
  }

  lemma WritesFollow(generated: Disk, contract: Value, disk: Disk, writes: Disk, own: Disk)
    requires IsGenerated(generated, contract) && own.Keys <= {PLUGIN_FILE} && writes == Writes(generated, disk) + own
    ensures Follows(generated, disk, (disk + writes) - Strays(generated, disk))
  {
    PathsDiffer();
    forall p | p in generated
      ensures p !in own && p !in Strays(generated, disk)
    {
    }
  }

  lemma AppliedFollows(generated: Disk, contract: Value, disk: Disk, hash: seq<(string, Text)> -> Text)
    requires IsGenerated(generated, contract) && PlanOf(generated, contract, disk, hash).Planned?
    ensures Follows(generated, disk, Applied(PlanOf(generated, contract, disk, hash).plan, disk))
  {
    var plan := PlanOf(generated, contract, disk, hash).plan;
    var r := PlanParts(generated, contract, disk, hash);
    WritesFollow(generated, contract, disk, plan.writes, OwnWrite(disk, r, plan.move, plan.to, plan.digest));
  }

  lemma PayloadAtStays(generated: Disk, contract: Value, disk: Disk, after: Disk, plugin: seq<Member>, later: seq<Member>, path: string)
    requires IsGenerated(generated, contract) && Follows(generated, disk, after)
    requires WithoutOwnKeys(later) == WithoutOwnKeys(plugin)
    ensures PayloadAt(generated, after, later, path) == PayloadAt(generated, disk, plugin, path)
  {
    PathsDiffer();
  }

  lemma PayloadStays(generated: Disk, contract: Value, disk: Disk, after: Disk, plugin: seq<Member>, later: seq<Member>)
    requires IsGenerated(generated, contract) && Follows(generated, disk, after)
    requires WithoutOwnKeys(later) == WithoutOwnKeys(plugin)
    ensures Payload(generated, after, later) == Payload(generated, disk, plugin)
  {
    forall p
      ensures PayloadAt(generated, after, later, p) == PayloadAt(generated, disk, plugin, p)
    {
      PayloadAtStays(generated, contract, disk, after, plugin, later, p);
    }
    PayloadAgrees(generated, after, disk, later, plugin);
  }

  lemma PayloadAgrees(generated: Disk, after: Disk, disk: Disk, later: seq<Member>, plugin: seq<Member>)
    requires forall p :: PayloadAt(generated, after, later, p) == PayloadAt(generated, disk, plugin, p)
    ensures Payload(generated, after, later) == Payload(generated, disk, plugin)
  {
    var a, b := Payload(generated, after, later), Payload(generated, disk, plugin);
    forall p
      ensures p in a <==> p in b
      ensures p in a ==> a[p] == b[p]
    {
      assert p in a <==> PayloadAt(generated, after, later, p).Some?;
      assert p in b <==> PayloadAt(generated, disk, plugin, p).Some?;
    }
  }

  /** What is read of plugin.json is in order. */
  lemma ReadingIsOrdered(disk: Disk)
    requires ReadPlugin(disk).0.Some?
    ensures var r := ReadPlugin(disk).0.value;
            && Ordered(r.plugin) && MetadataOf(r.plugin) == Some(r.metadata) && Ordered(r.metadata)
            && StringOf(Lookup(r.plugin, VERSION)) == Some(r.version)
  {
    ParsedIsInOrder(disk[PLUGIN_FILE]);
    var v := ParseJson(disk[PLUGIN_FILE]).value;
    MembersInOrder(v);
    MetadataIsOrdered(v.members);
  }

  /** plugin.json as the generator wrote it, read again. */
  lemma OwnReading(r: Reading, version: Text, digest: Text)
    requires Ordered(r.plugin) && MetadataOf(r.plugin) == Some(r.metadata) && Ordered(r.metadata) && Lookup(r.plugin, VERSION).Some?
    ensures var (after, _) := ReadContent(ParseJson(PluginText(r, version, digest)));
            && after.Some? && WithoutOwnKeys(after.value.plugin) == WithoutOwnKeys(r.plugin)
            && StringOf(Lookup(after.value.metadata, DIGEST)) == Some(digest) && after.value.version == version
  {
    var after := WithOwnKeys(r.plugin, r.metadata, version, digest);
    OwnKeysAreIgnored(r.plugin, r.metadata, version, digest);
    OwnKeysReadBack(r.plugin, r.metadata, version, digest);
    OwnKeysStayOrdered(r.plugin, r.metadata, version, digest);
    ObjectInOrder(after);
    RenderReadsBack(ObjectOf(after));
    ReadObject(after, version);
  }

  lemma ReadObject(plugin: seq<Member>, version: Text)
    requires StringOf(Lookup(plugin, VERSION)) == Some(version) && MetadataOf(plugin).Some?
    ensures ReadContent(Some(ObjectOf(plugin))).0 == Some(Reading(plugin, MetadataOf(plugin).value, version))
  {
  }

  lemma PluginWritten(generated: Disk, contract: Value, disk: Disk, writes: Disk, r: Reading, move: Move, version: Text, digest: Text)
    requires IsGenerated(generated, contract) && PLUGIN_FILE in disk
    requires writes == Writes(generated, disk) + OwnWrite(disk, r, move, version, digest)
    ensures var after := (disk + writes) - Strays(generated, disk);
            PLUGIN_FILE in after && after[PLUGIN_FILE] == if move.Same? then disk[PLUGIN_FILE] else PluginText(r, version, digest)
  {
    PathsDiffer();
    assert PLUGIN_FILE !in generated;
  }

  /** plugin.json after the plan, as the next plan reads it. */
  lemma PluginAfter(generated: Disk, contract: Value, disk: Disk, hash: seq<(string, Text)> -> Text)
    requires IsGenerated(generated, contract) && PlanOf(generated, contract, disk, hash).Planned?
    ensures var plan := PlanOf(generated, contract, disk, hash).plan;
            var (before, _) := ReadPlugin(disk);
            var (after, _) := ReadPlugin(Applied(plan, disk));
            && before.Some? && after.Some?
            && WithoutOwnKeys(after.value.plugin) == WithoutOwnKeys(before.value.plugin)
            && StringOf(Lookup(after.value.metadata, DIGEST)) == Some(plan.digest) && after.value.version == plan.to
  {
    var plan := PlanOf(generated, contract, disk, hash).plan;
    var r := PlanParts(generated, contract, disk, hash);
    PluginWritten(generated, contract, disk, plan.writes, r, plan.move, plan.to, plan.digest);
    if plan.move.Same? {
      ReadAgain(disk, Applied(plan, disk));
    } else {
      ReadingIsOrdered(disk);
      OwnReading(r, plan.to, plan.digest);
      ReadWritten(Applied(plan, disk), PluginText(r, plan.to, plan.digest));
    }
  }

  lemma ReadAgain(disk: Disk, after: Disk)
    requires PLUGIN_FILE in disk && PLUGIN_FILE in after && after[PLUGIN_FILE] == disk[PLUGIN_FILE]
    ensures ReadPlugin(after) == ReadPlugin(disk)
  {
  }

  lemma ReadWritten(disk: Disk, text: Text)
    requires PLUGIN_FILE in disk && disk[PLUGIN_FILE] == text
    ensures ReadPlugin(disk) == ReadContent(ParseJson(text))
  {
  }

  lemma NothingToWrite(generated: Disk, disk: Disk, after: Disk)
    requires Follows(generated, disk, after)
    ensures Writes(generated, after) == map[] && Strays(generated, after) == {}
  {
  }

  /** A plan over a disk where everything is in place. */
  lemma PlanInPlace(generated: Disk, contract: Value, disk: Disk, hash: seq<(string, Text)> -> Text, digest: Text, version: Text)
    requires ReadPlugin(disk).0.Some? && Writes(generated, disk) == map[] && Strays(generated, disk) == {}
    requires var r := ReadPlugin(disk).0.value;
             && StringOf(Lookup(r.metadata, DIGEST)) == Some(digest) && r.version == version
             && hash(Listing(Payload(generated, disk, r.plugin))) == digest
    ensures PlanOf(generated, contract, disk, hash) == Planned(Plan(map[], {}, digest, Same, version, version))
  {
    var nothing: Disk := map[];
    assert nothing + nothing == nothing;
  }

  /** Planning is a fixpoint: once a plan is applied, planning over the same sources finds nothing to write, nothing to delete and no move to make. */
  lemma PlanningIsAFixpoint(generated: Disk, contract: Value, disk: Disk, hash: seq<(string, Text)> -> Text)
    requires IsGenerated(generated, contract) && PlanOf(generated, contract, disk, hash).Planned?
    ensures var plan := PlanOf(generated, contract, disk, hash).plan;
            PlanOf(generated, contract, Applied(plan, disk), hash) == Planned(Plan(map[], {}, plan.digest, Same, plan.to, plan.to))
  {
    var plan := PlanOf(generated, contract, disk, hash).plan;
    var after := Applied(plan, disk);
    PluginAfter(generated, contract, disk, hash);
    AppliedFollows(generated, contract, disk, hash);
    NothingToWrite(generated, disk, after);
    PayloadStays(generated, contract, disk, after, ReadPlugin(disk).0.value.plugin, ReadPlugin(after).0.value.plugin);
    PlanInPlace(generated, contract, after, hash, plan.digest, plan.to);
  }

  /** A patch or a minor move moves the version on, and nothing else changes it. */
  lemma MovesIncrease(generated: Disk, contract: Value, disk: Disk, hash: seq<(string, Text)> -> Text)
    requires PlanOf(generated, contract, disk, hash).Planned?
    ensures var plan := PlanOf(generated, contract, disk, hash).plan;
            if plan.move.Patch? || plan.move.Minor? then MovesOn(plan.from, plan.move, plan.to) else plan.to == plan.from
  {
    var r := ReadPlugin(disk).0.value;
    var digest := hash(Listing(Payload(generated, disk, r.plugin)));
    DecideIncreases(r.version, StringOf(Lookup(r.metadata, DIGEST)), digest, ContractOnDisk(disk), contract);
  }

  lemma DecideIncreases(version: Text, stored: Option<Text>, digest: Text, onDisk: Option<Value>, contract: Value)
    ensures var (move, to) := Decide(version, stored, digest, onDisk, contract);
            to.Some? ==> if move.Patch? || move.Minor? then MovesOn(version, move, to.value) else to.value == version
  {
    BumpIncreases(version, Decide(version, stored, digest, onDisk, contract).0);
  }

  /**
   A change of anything that ships changes what the digest is over: files with the same listing are the same text for text, and plugin.json is the
   same but for the keys the generator writes.
   */
  lemma ShippedChangesShow(generated: Disk, disk: Disk, plugin: seq<Member>, other: Disk, otherDisk: Disk, otherPlugin: seq<Member>)
    requires Listing(Payload(generated, disk, plugin)) == Listing(Payload(other, otherDisk, otherPlugin))
    requires PLUGIN_FILE !in generated && PLUGIN_FILE !in other && Ordered(plugin) && Ordered(otherPlugin)
    ensures Payload(generated, disk, plugin) == Payload(other, otherDisk, otherPlugin)
    ensures WithoutOwnKeys(plugin) == WithoutOwnKeys(otherPlugin)
  {
    var m, n := Payload(generated, disk, plugin), Payload(other, otherDisk, otherPlugin);
    HasListing(m);
    HasListing(n);
    var a: seq<(string, Text)> :| Lists(a, m);
    var b: seq<(string, Text)> :| Lists(b, n);
    DifferentFilesDiffer(a, b, m, n);
    assert m[PLUGIN_FILE] == n[PLUGIN_FILE];
    PluginTellsApart(plugin, otherPlugin);
  }

  lemma PluginTellsApart(plugin: seq<Member>, other: seq<Member>)
    requires Ordered(plugin) && Ordered(other)
    requires Render(ObjectOf(WithoutOwnKeys(plugin))) == Render(ObjectOf(WithoutOwnKeys(other)))
    ensures WithoutOwnKeys(plugin) == WithoutOwnKeys(other)
  {
    RestIsOrdered(plugin, |plugin|);
    RestIsOrdered(other, |other|);
    assert plugin[..|plugin|] == plugin && other[..|other|] == other;
    ObjectInOrder(WithoutOwnKeys(plugin));
    ObjectInOrder(WithoutOwnKeys(other));
    RenderTellsApart(ObjectOf(WithoutOwnKeys(plugin)), ObjectOf(WithoutOwnKeys(other)));
  }

  // ---- the planning itself ----

  lemma OneLess(all: map<string, Text>, todo: set<string>, p: string)
    requires p in todo
    ensures all - (todo - {p}) == if p in all then (all - todo)[p := all[p]] else all - todo
  {
  }

  /** The files that the digest is over, in the order they are found. */
  method Collect(generated: Disk, disk: Disk, plugin: seq<Member>, ghost contract: Value) returns (files: seq<(string, Text)>)
    requires IsGenerated(generated, contract)
    ensures Lists(files, Payload(generated, disk, plugin))
  {
    ghost var all := Payload(generated, disk, plugin);
    var todo := generated.Keys + {PLUGIN_FILE} + disk.Keys;
    files := [];
    while todo != {}
      invariant todo <= generated.Keys + {PLUGIN_FILE} + disk.Keys
      invariant Lists(files, all - todo)
    {
      var p :| p in todo;
      var content := PayloadAt(generated, disk, plugin, p);
      OneLess(all, todo, p);
      if content.Some? {
        ListsOneMore(files, all - todo, p, content.value);
        files := files + [(p, content.value)];
      }
      todo := todo - {p};
    }
    assert all - todo == all;
  }

  /** The generated files whose content is not what is on disk. */
  method CollectWrites(generated: Disk, disk: Disk) returns (writes: Disk)
    ensures writes == Writes(generated, disk)
  {
    writes := map[];
    var todo := generated.Keys;
    while todo != {}
      invariant todo <= generated.Keys
      invariant writes == map p | p in generated && p !in todo && (p !in disk || disk[p] != generated[p]) :: generated[p]
    {
      var p :| p in todo;
      if p !in disk || disk[p] != generated[p] {
        writes := writes[p := generated[p]];
      }
      todo := todo - {p};
    }
  }

  /** `planGenerate`. */
  method PlanGenerate(generated: Disk, contract: Value, disk: Disk, hash: seq<(string, Text)> -> Text) returns (outcome: Outcome)
    requires IsGenerated(generated, contract)
    ensures outcome == PlanOf(generated, contract, disk, hash)
  {
    var (reading, error) := ReadPlugin(disk);
    if reading.None? {
      return Failed(error);
    }
    var r := reading.value;
    var payload := Collect(generated, disk, r.plugin, contract);
    var digest := hash(Sort(payload));
    var (move, to) := Decide(r.version, StringOf(Lookup(r.metadata, DIGEST)), digest, ContractOnDisk(disk), contract);
    if to.None? {
      return Failed(BadVersion);
    }
    var writes := CollectWrites(generated, disk);
    var own: Disk := map[];
    if !move.Same? {
      var next := PluginText(r, to.value, digest);
      if disk[PLUGIN_FILE] != next {
        own := map[PLUGIN_FILE := next];
      }
    }
    outcome := Planned(Plan(writes + own, Strays(generated, disk), digest, move, r.version, to.value));
  }
}
