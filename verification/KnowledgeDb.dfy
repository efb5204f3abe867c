/** `reindex` over the three tables of the index. */
module KnowledgeDb {
  import opened Common
  import opened KnowledgeIndex

  datatype Stats = Stats(added: nat, changed: nat, same: nat, removed: nat, errors: nat)

  function Counted(stats: Stats, fate: Fate): Stats {
    match fate
    case Vanished => stats
    case Skipped => stats.(same := stats.same + 1)
    case Rehashed => stats.(same := stats.same + 1)
    case Refused => stats.(errors := stats.errors + 1)
    case Changed => stats.(changed := stats.changed + 1)
    case Added => stats.(added := stats.added + 1)
  }

  datatype Fate = Vanished | Skipped | Refused | Rehashed | Changed | Added

  /** The entry of an id after the files looked at so far. */
  function Half(before: Option<Entry>, files: seq<File>, id: string): Option<Entry> {
    if Present(files, id) then Processed(before, FileOf(files, id)) else before
  }

  lemma HalfStep(before: Option<Entry>, files: seq<File>, k: nat, id: string)
    requires Folder(files) && k < |files|
    ensures Half(before, files[..k + 1], id)
            == if files[k].id == id && files[k].mtime.Some? then Processed(before, files[k]) else Half(before, files[..k], id)
    ensures Present(files[..k + 1], id) <==> Present(files[..k], id) || (files[k].id == id && files[k].mtime.Some?)
    ensures files[k].id == id ==> !Present(files[..k], id)
  {
    var more, less := files[..k + 1], files[..k];
    assert Folder(more) && Folder(less);
    assert more[..k] == less;
    if files[k].id == id && files[k].mtime.Some? {
      FileAt(more, k);
      assert more[k] == files[k];
    } else if Present(more, id) {
      var j :| 0 <= j < |more| && more[j].id == id && more[j].mtime.Some?;
      assert less[j] == more[j];
      FileAt(less, j);
      FileAt(more, j);
    }
  }

  datatype Snapshot = Snapshot(docs: map<string, Row>, chunks: seq<ChunkRow>) {
    function Of(id: string): Option<Entry> {
      if id in docs then Some(Entry(docs[id], ChunksOf(chunks, id))) else None
    }
  }

  /** One file was looked at. */
  ghost predicate Taken(now: Snapshot, f: File, after: Snapshot) {
    forall id :: after.Of(id) == if id == f.id && f.mtime.Some? then Processed(now.Of(id), f) else now.Of(id)
  }

  /** Every file so far was looked at; an id that is among them and was not seen has no entry. */
  ghost predicate Looked(before: Snapshot, files: seq<File>, now: Snapshot, seen: set<string>) {
    && (forall id :: now.Of(id) == Half(before.Of(id), files, id))
    && (forall id :: id in seen ==> Present(files, id))
    && (forall id :: Present(files, id) && id !in seen ==> now.Of(id) == None)
  }

  lemma NothingLooked(before: Snapshot)
    ensures Looked(before, [], before, {})
  {
    assert forall id :: !Present([], id);
  }

  lemma KnownStands(before: Snapshot, files: seq<File>, k: nat, now: Snapshot, seen: set<string>)
    requires Folder(files) && k < |files| && Looked(before, files[..k], now, seen)
    ensures now.Of(files[k].id) == before.Of(files[k].id) && files[k].id !in seen
  {
    HalfStep(before.Of(files[k].id), files, k, files[k].id);
  }

  lemma LookedOneMore(before: Snapshot, files: seq<File>, k: nat, now: Snapshot, seen: set<string>, after: Snapshot, sees: bool)
    requires Folder(files) && k < |files| && Looked(before, files[..k], now, seen)
    requires Taken(now, files[k], after)
    requires sees ==> files[k].mtime.Some?
    requires !sees && files[k].mtime.Some? ==> after.Of(files[k].id) == None
    ensures Looked(before, files[..k + 1], after, if sees then seen + {files[k].id} else seen)
  {
    forall id
      ensures after.Of(id) == Half(before.Of(id), files[..k + 1], id)
      ensures Present(files[..k + 1], id) <==> Present(files[..k], id) || (files[k].id == id && files[k].mtime.Some?)
    {
      HalfStep(before.Of(id), files, k, id);
      HalfStep(before.Of(files[k].id), files, k, files[k].id);
    }
  }

  /** The unseen dropped as well. */
  ghost predicate Dropped(now: Snapshot, gone: set<string>, after: Snapshot) {
    forall id :: after.Of(id) == if id in gone then None else now.Of(id)
  }

  lemma AllLooked(before: Snapshot, files: seq<File>, now: Snapshot, seen: set<string>, after: Snapshot)
    requires Looked(before, files, now, seen) && Dropped(now, before.docs.Keys - seen, after)
    ensures forall id :: after.Of(id) == Final(before.Of(id), files, id)
  {
    forall id
      ensures after.Of(id) == Final(before.Of(id), files, id)
    {
      assert now.Of(id) == Half(before.Of(id), files, id);
    }
  }

  /** What is known of the ids once every file has been looked at: which are in the index, which are new, and which were refused. */
  ghost predicate Tallied(known: set<string>, docs: set<string>, seen: set<string>, added: set<string>, refused: set<string>) {
    && docs == known - refused + added && added !! known && added <= seen
    && refused <= known && refused !! seen
  }

  lemma TalliedSeen(known: set<string>, docs: set<string>, seen: set<string>, added: set<string>, refused: set<string>, id: string)
    requires Tallied(known, docs, seen, added, refused) && id !in seen && (id in docs <==> id in known)
    ensures id in known ==> Tallied(known, docs + {id}, seen + {id}, added, refused)
    ensures id !in known ==> Tallied(known, docs + {id}, seen + {id}, added + {id}, refused) && |added + {id}| == |added| + 1
  {
    if id in known {
      assert docs + {id} == docs;
    } else {
      assert docs + {id} == known - refused + (added + {id});
    }
  }

  lemma TalliedRefused(known: set<string>, docs: set<string>, seen: set<string>, added: set<string>, refused: set<string>, id: string)
    requires Tallied(known, docs, seen, added, refused) && id !in seen && (id in docs <==> id in known)
    ensures Tallied(known, docs - {id}, seen, added, refused + (if id in known then {id} else {}))
  {
    if id in known {
      assert docs - {id} == known - (refused + {id}) + added;
    } else {
      assert docs - {id} == docs && refused + {} == refused;
    }
  }

  predicate Sees(fate: Fate) {
    !fate.Vanished? && !fate.Refused?
  }

  /** The sets once one more file was looked at. */
  lemma TalliedTake(known: set<string>, now: set<string>, docs: set<string>, seen: set<string>, added: set<string>, refused: set<string>, id: string, fate: Fate)
    requires Tallied(known, now, seen, added, refused) && id !in seen && (id in now <==> id in known)
    requires docs == if fate.Vanished? then now else if fate.Refused? then now - {id} else now + {id}
    requires fate.Added? ==> id !in known
    requires Sees(fate) && !fate.Added? ==> id in known
    ensures Tallied(known, docs, if Sees(fate) then seen + {id} else seen, if fate.Added? then added + {id} else added,
                    if fate.Refused? && id in known then refused + {id} else refused)
    ensures fate.Added? ==> |added + {id}| == |added| + 1
  {
    if Sees(fate) {
      TalliedSeen(known, now, seen, added, refused, id);
    } else if fate.Refused? {
      TalliedRefused(known, now, seen, added, refused, id);
      assert refused + {} == refused;
    }
  }

  /** Once the unseen are dropped as well, what was added and removed makes up the difference. */
  lemma Tally(known: set<string>, docs: set<string>, seen: set<string>, added: set<string>, refused: set<string>)
    requires Tallied(known, docs, seen, added, refused)
    ensures |docs - (known - seen)| + |known - seen| == |known| + |added|
  {
    assert docs - (known - seen) == (known - (known - seen)) + added;
    assert |known - (known - seen)| == |known| - |known - seen|;
  }

  class Index {
    var docs: map<string, Row>
    var chunks: seq<ChunkRow>
    var fts: seq<FtsRow>

    /** The full-text table mirrors the chunks row for row, and only documents have chunks. */
    ghost predicate Valid()
      reads this
    {
      fts == Mirror(chunks) && forall id :: id !in docs ==> ChunksOf(chunks, id) == []
    }

    /** What the index holds, as a value. */
    ghost function Entries(): Snapshot
      reads this
    {
      Snapshot(docs, chunks)
    }

    constructor ()
      ensures Valid() && docs == map[] && forall id :: Entries().Of(id) == None
    {
      docs, chunks, fts := map[], [], [];
    }

    method DeleteDoc(id: string)
      requires Valid()
      modifies this
      ensures Valid() && docs == old(docs) - {id}
      ensures forall other :: Entries().Of(other) == if other == id then None else old(Entries()).Of(other)
    {
      DeleteMirrors(chunks, id);
      WithoutDoc(chunks, id);
      fts := WithoutFts(fts, id);
      chunks := Without(chunks, id);
      docs := docs - {id};
    }

    /** One chunk into both tables, under one new rowid. */
    method InsertChunk(id: string, c: Chunk)
      requires fts == Mirror(chunks)
      modifies this`chunks, this`fts
      ensures fts == Mirror(chunks) && chunks == old(chunks) + [NewRow(old(chunks), id, c)]
    {
      var row := NewRow(chunks, id, c);
      RowidIsFree(chunks);
      assert forall k :: 0 <= k < |fts| ==> fts[k].rowid != row.rowid;
      Snoc(chunks, row, id);
      chunks := chunks + [row];
      fts := fts + [FtsRow(row.rowid, id, c.heading, c.body)];
    }

    method InsertDoc(f: File, doc: Doc, mtime: int)
      requires Valid() && f.id !in docs
      modifies this
      ensures Valid() && docs == old(docs)[f.id := NewEntry(f, mtime, doc).row]
      ensures forall other :: Entries().Of(other) == if other == f.id then Some(NewEntry(f, mtime, doc)) else old(Entries()).Of(other)
    {
      InsertedDoc(chunks, f.id, doc.chunks);
      docs := docs[f.id := Row(f.path, doc.meta, mtime, doc.hash)];
      InsertChunks(f.id, doc.chunks);
    }

    method InsertChunks(id: string, cs: seq<Chunk>)
      requires fts == Mirror(chunks)
      modifies this`chunks, this`fts
      ensures fts == Mirror(chunks) && chunks == Inserted(old(chunks), id, cs)
    {
      for k := 0 to |cs|
        invariant fts == Mirror(chunks) && chunks == Inserted(old(chunks), id, cs[..k])
      {
        assert cs[..k + 1][..k] == cs[..k];
        InsertChunk(id, cs[k]);
      }
      assert cs[..|cs|] == cs;
    }

    /** One file: skipped for its mtime, refused, kept for its hash, or read anew. */
    method Take(f: File, before: Option<Row>) returns (fate: Fate)
      requires Valid()
      requires before == if f.id in docs then Some(docs[f.id]) else None
      modifies this
      ensures Valid()
      ensures f.mtime.None? <==> fate.Vanished?
      ensures Taken(old(Entries()), f, Entries())
      ensures fate.Refused? ==> docs == old(docs) - {f.id}
      ensures fate.Added? ==> before.None?
      ensures fate.Skipped? || fate.Rehashed? || fate.Changed? ==> before.Some?
      ensures !fate.Refused? && !fate.Vanished? ==> docs.Keys == old(docs).Keys + {f.id}
      ensures fate.Vanished? ==> docs == old(docs)
    {
      if f.mtime.None? {
        return Vanished;
      }
      var mtime := f.mtime.value;
      if before.Some? && before.value.mtime == mtime {
        return Skipped;
      }
      if f.reading.None? {
        if before.Some? {
          DeleteDoc(f.id);
        }
        return Refused;
      }
      if before.Some? && before.value.hash == f.reading.value.hash {
        docs := docs[f.id := docs[f.id].(mtime := mtime)];
        return Rehashed;
      }
      if before.Some? {
        DeleteDoc(f.id);
      }
      InsertDoc(f, f.reading.value, mtime);
      fate := if before.Some? then Changed else Added;
    }

    /** Every table emptied. */
    method Clear()
      modifies this
      ensures Valid() && docs == map[] && forall id :: Entries().Of(id) == None
    {
      fts, chunks, docs := [], [], map[];
    }

    method TakeAll(files: seq<File>, known: map<string, Row>)
      returns (stats: Stats, seen: set<string>, ghost added: set<string>, ghost refused: set<string>)
      requires Valid() && Folder(files) && docs == known
      modifies this
      ensures Valid() && Looked(old(Entries()), files, Entries(), seen)
      ensures Tallied(known.Keys, docs.Keys, seen, added, refused) && stats.added == |added|
    {
      stats, seen, added, refused := Stats(0, 0, 0, 0, 0), {}, {}, {};
      ghost var before := Entries();
      NothingLooked(before);
      for k := 0 to |files|
        invariant Valid() && Looked(before, files[..k], Entries(), seen)
        invariant Tallied(known.Keys, docs.Keys, seen, added, refused) && stats.added == |added|
      {
        stats, seen, added, refused := TakeOne(files, k, before, known, stats, seen, added, refused);
      }
      assert files[..|files|] == files;
    }

    method TakeOne(files: seq<File>, k: nat, ghost before: Snapshot, known: map<string, Row>,
                   told: Stats, was: set<string>, ghost had: set<string>, ghost lost: set<string>)
      returns (stats: Stats, seen: set<string>, ghost added: set<string>, ghost refused: set<string>)
      requires Valid() && Folder(files) && k < |files| && before.docs == known
      requires Looked(before, files[..k], Entries(), was) && Tallied(known.Keys, docs.Keys, was, had, lost) && told.added == |had|
      modifies this
      ensures Valid() && Looked(before, files[..k + 1], Entries(), seen)
      ensures Tallied(known.Keys, docs.Keys, seen, added, refused) && stats.added == |added|
    {
      var f := files[k];
      ghost var now := Entries();
      KnownStands(before, files, k, now, was);
      var fate := Take(f, if f.id in known then Some(known[f.id]) else None);
      TalliedTake(known.Keys, now.docs.Keys, docs.Keys, was, had, lost, f.id, fate);
      LookedOneMore(before, files, k, now, was, Entries(), Sees(fate));
      seen := if Sees(fate) then was + {f.id} else was;
      added := if fate.Added? then had + {f.id} else had;
      refused := if fate.Refused? && f.id in known then lost + {f.id} else lost;
      stats := Counted(told, fate);
    }

    /**
     `reindex`: whatever the index held, each id ends with what is made of its file and of what was known of it, and an id without a file with nothing;
     with `full` nothing was known.
     */
    method Reindex(files: seq<File>, full: bool) returns (stats: Stats)
      requires Valid() && Folder(files)
      modifies this
      ensures Valid()
      ensures forall id :: Entries().Of(id) == Final(if full then None else old(Entries()).Of(id), files, id)
      ensures |docs| + stats.removed == (if full then 0 else |old(docs)|) + stats.added
    {
      if full {
        Clear();
      }
      var known := docs;
      ghost var before, added, refused := Entries(), {}, {};
      var seen;
      stats, seen, added, refused := TakeAll(files, known);
      ghost var now := Entries();
      Tally(known.Keys, docs.Keys, seen, added, refused);
      stats := stats.(removed := |known.Keys - seen|);
      RemoveUnseen(known.Keys - seen);
      AllLooked(before, files, now, seen, Entries());
    }

    /** The documents whose file is gone. */
    method RemoveUnseen(gone: set<string>)
      requires Valid()
      modifies this
      ensures Valid() && docs.Keys == old(docs).Keys - gone
      ensures Dropped(old(Entries()), gone, Entries())
    {
      var left := gone;
      while left != {}
        invariant Valid() && left <= gone && docs.Keys == old(docs).Keys - (gone - left)
        invariant Dropped(old(Entries()), gone - left, Entries())
      {
        var id :| id in left;
        DeleteDoc(id);
        left := left - {id};
      }
    }
  }
}
