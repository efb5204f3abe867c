/** The index of a knowledge folder: three tables that `reindex` brings in line with the files, reading as few of them as it can. */
module KnowledgeIndex {
  import opened Common

  datatype Chunk = Chunk(heading: string, ord: nat, body: string)

  /** A document as it was read: its frontmatter, the hash of its text and its chunks. */
  datatype Doc = Doc(meta: string, hash: string, chunks: seq<Chunk>)

  /** A file of the folder: no mtime when it has vanished, no reading when it is refused. */
  datatype File = File(id: string, path: string, mtime: Option<int>, reading: Option<Doc>)

  datatype Row = Row(path: string, meta: string, mtime: int, hash: string)

  datatype ChunkRow = ChunkRow(rowid: nat, docId: string, chunk: Chunk)

  datatype FtsRow = FtsRow(rowid: nat, docId: string, heading: string, body: string)

  /** What the index holds of one document. */
  datatype Entry = Entry(row: Row, chunks: seq<Chunk>)

  function ChunksOf(chunks: seq<ChunkRow>, id: string): seq<Chunk> {
    if chunks == [] then []
    else ChunksOf(chunks[..|chunks| - 1], id) + (if chunks[|chunks| - 1].docId == id then [chunks[|chunks| - 1].chunk] else [])
  }

  /** `delete from chunks where doc_id = ?` */
  function Without(chunks: seq<ChunkRow>, id: string): seq<ChunkRow> {
    if chunks == [] then []
    else Without(chunks[..|chunks| - 1], id) + (if chunks[|chunks| - 1].docId == id then [] else [chunks[|chunks| - 1]])
  }

  function WithoutFts(fts: seq<FtsRow>, id: string): seq<FtsRow> {
    if fts == [] then []
    else WithoutFts(fts[..|fts| - 1], id) + (if fts[|fts| - 1].docId == id then [] else [fts[|fts| - 1]])
  }

  function Mirrored(c: ChunkRow): FtsRow {
    FtsRow(c.rowid, c.docId, c.chunk.heading, c.chunk.body)
  }

  /** The full-text table that mirrors the chunks row for row. */
  function Mirror(chunks: seq<ChunkRow>): seq<FtsRow> {
    if chunks == [] then [] else Mirror(chunks[..|chunks| - 1]) + [Mirrored(chunks[|chunks| - 1])]
  }

  /** The greatest rowid in use; the next row gets the one above it. */
  function MaxRowid(chunks: seq<ChunkRow>): nat {
    if chunks == [] then 0
    else
      var m, last := MaxRowid(chunks[..|chunks| - 1]), chunks[|chunks| - 1].rowid;
      if m < last then last else m
  }

  lemma Snoc(chunks: seq<ChunkRow>, c: ChunkRow, id: string)
    ensures ChunksOf(chunks + [c], id) == ChunksOf(chunks, id) + (if c.docId == id then [c.chunk] else [])
    ensures Mirror(chunks + [c]) == Mirror(chunks) + [Mirrored(c)]
    ensures Without(chunks + [c], id) == Without(chunks, id) + (if c.docId == id then [] else [c])
  {
    assert (chunks + [c])[..|chunks|] == chunks;
  }

  lemma FtsSnoc(fts: seq<FtsRow>, r: FtsRow, id: string)
    ensures WithoutFts(fts + [r], id) == WithoutFts(fts, id) + (if r.docId == id then [] else [r])
  {
    assert (fts + [r])[..|fts|] == fts;
  }

  lemma {:induction false} WithoutChunks(chunks: seq<ChunkRow>, id: string, other: string)
    ensures ChunksOf(Without(chunks, id), other) == if other == id then [] else ChunksOf(chunks, other)
  {
    if chunks != [] {
      var init, last := chunks[..|chunks| - 1], chunks[|chunks| - 1];
      WithoutChunks(init, id, other);
      if last.docId == id {
        assert Without(init, id) + [] == Without(init, id);
        assert ChunksOf(init, other) + [] == ChunksOf(init, other);
      } else {
        Snoc(Without(init, id), last, other);
      }
    }
  }

  lemma WithoutDoc(chunks: seq<ChunkRow>, id: string)
    ensures forall other :: ChunksOf(Without(chunks, id), other) == if other == id then [] else ChunksOf(chunks, other)
  {
    forall other {
      WithoutChunks(chunks, id, other);
    }
  }

  function NewRow(chunks: seq<ChunkRow>, id: string, c: Chunk): ChunkRow {
    ChunkRow(MaxRowid(chunks) + 1, id, c)
  }

  /** The chunks of a document, one after the other. */
  function Inserted(chunks: seq<ChunkRow>, id: string, doc: seq<Chunk>): seq<ChunkRow> {
    if doc == [] then chunks
    else
      var init := Inserted(chunks, id, doc[..|doc| - 1]);
      init + [NewRow(init, id, doc[|doc| - 1])]
  }

  lemma {:induction false} InsertedChunks(chunks: seq<ChunkRow>, id: string, doc: seq<Chunk>, other: string)
    ensures ChunksOf(Inserted(chunks, id, doc), other) == ChunksOf(chunks, other) + (if other == id then doc else [])
  {
    if doc == [] {
      assert ChunksOf(chunks, other) + [] == ChunksOf(chunks, other);
    } else {
      var init, last := doc[..|doc| - 1], doc[|doc| - 1];
      InsertedChunks(chunks, id, init, other);
      var rows := Inserted(chunks, id, init);
      Snoc(rows, NewRow(rows, id, last), other);
      assert ChunksOf(rows, other) + [] == ChunksOf(rows, other);
      Resnoc(ChunksOf(chunks, other), doc);
    }
  }

  lemma Resnoc(a: seq<Chunk>, b: seq<Chunk>)
    requires b != []
    ensures a + b[..|b| - 1] + [b[|b| - 1]] == a + b
  {
  }

  lemma InsertedDoc(chunks: seq<ChunkRow>, id: string, doc: seq<Chunk>)
    requires ChunksOf(chunks, id) == []
    ensures forall other :: ChunksOf(Inserted(chunks, id, doc), other) == if other == id then doc else ChunksOf(chunks, other)
  {
    forall other
      ensures ChunksOf(Inserted(chunks, id, doc), other) == if other == id then doc else ChunksOf(chunks, other)
    {
      InsertedChunks(chunks, id, doc, other);
      assert [] + doc == doc && ChunksOf(chunks, other) + [] == ChunksOf(chunks, other);
    }
  }

  /** Deleting from both tables keeps the mirror. */
  lemma {:induction false} DeleteMirrors(chunks: seq<ChunkRow>, id: string)
    ensures WithoutFts(Mirror(chunks), id) == Mirror(Without(chunks, id))
  {
    if chunks != [] {
      var init, last := chunks[..|chunks| - 1], chunks[|chunks| - 1];
      DeleteMirrors(init, id);
      FtsSnoc(Mirror(init), Mirrored(last), id);
      if last.docId == id {
        assert Without(init, id) + [] == Without(init, id);
        assert Mirror(Without(init, id)) + [] == Mirror(Without(init, id));
      } else {
        Snoc(Without(init, id), last, id);
      }
    }
  }

  /** A new rowid is used by no row of the full-text table. */
  lemma {:induction false} RowidIsFree(chunks: seq<ChunkRow>)
    ensures forall k :: 0 <= k < |Mirror(chunks)| ==> Mirror(chunks)[k].rowid <= MaxRowid(chunks)
  {
    if chunks != [] {
      RowidIsFree(chunks[..|chunks| - 1]);
    }
  }

  // ---- what reindexing makes of each document ----

  function NewEntry(f: File, mtime: int, doc: Doc): Entry {
    Entry(Row(f.path, doc.meta, mtime, doc.hash), doc.chunks)
  }

  /** What becomes of a document with a file: an unchanged mtime is trusted, and then an unchanged hash. */
  function Processed(before: Option<Entry>, f: File): Option<Entry>
    requires f.mtime.Some?
  {
    var mtime := f.mtime.value;
    if before.Some? && before.value.row.mtime == mtime then before
    else if f.reading.None? then None
    else if before.Some? && before.value.row.hash == f.reading.value.hash then Some(before.value.(row := before.value.row.(mtime := mtime)))
    else Some(NewEntry(f, mtime, f.reading.value))
  }

  /** The ids are the files' stems, so no two are the same. */
  predicate Folder(files: seq<File>) {
    forall j, k :: 0 <= j < k < |files| ==> files[j].id != files[k].id
  }

  predicate Present(files: seq<File>, id: string) {
    exists k :: 0 <= k < |files| && files[k].id == id && files[k].mtime.Some?
  }

  function FileOf(files: seq<File>, id: string): (f: File)
    requires Present(files, id)
    ensures f in files && f.id == id && f.mtime.Some?
    decreases |files|
  {
    var last := files[|files| - 1];
    if last.id == id && last.mtime.Some? then last else
      var k :| 0 <= k < |files| && files[k].id == id && files[k].mtime.Some?;
      assert files[..|files| - 1][k] == files[k];
      FileOf(files[..|files| - 1], id)
  }

  lemma {:induction false} FileAt(files: seq<File>, k: nat)
    requires Folder(files) && k < |files| && files[k].mtime.Some?
    ensures Present(files, files[k].id) && FileOf(files, files[k].id) == files[k]
  {
    var f := FileOf(files, files[k].id);
    var j :| 0 <= j < |files| && files[j] == f;
    assert j == k;
  }

  /** The entry that reindexing leaves for an id. */
  function Final(before: Option<Entry>, files: seq<File>, id: string): Option<Entry> {
    if Present(files, id) then Processed(before, FileOf(files, id)) else None
  }

  // ---- incremental and full ----

  /** What the folder says of an id: a readable file makes an entry, and nothing else does. */
  function Told(files: seq<File>, id: string): Option<Entry> {
    Final(None, files, id)
  }

  /**
   Between two looks at a readable file, what the index goes by did not mislead it: an unchanged mtime stood for an unchanged file,
   and under a new mtime an unchanged hash did.
   */
  predicate NotMisled(was: seq<File>, files: seq<File>, id: string) {
    Present(was, id) && Present(files, id) && FileOf(was, id).reading.Some? ==>
      var f, g := FileOf(was, id), FileOf(files, id);
      f.mtime == g.mtime || (g.reading.Some? && g.reading.value.hash == f.reading.value.hash) ==>
        g.path == f.path && g.reading == f.reading
  }

  /** An index that holds what a rebuild of the folder once gave is made into what a rebuild gives now exactly when nothing misled it. */
  lemma SameAsRebuild(was: seq<File>, files: seq<File>, id: string)
    ensures Final(Told(was, id), files, id) == Told(files, id) <==> NotMisled(was, files, id)
  {
    if Present(was, id) && Present(files, id) {
      OneFile(FileOf(was, id), FileOf(files, id));
    }
  }

  lemma OneFile(f: File, g: File)
    requires f.mtime.Some? && g.mtime.Some?
    ensures Processed(Processed(None, f), g) == Processed(None, g) <==>
            (f.reading.Some? && (f.mtime == g.mtime || (g.reading.Some? && g.reading.value.hash == f.reading.value.hash)) ==>
               g.path == f.path && g.reading == f.reading)
  {
  }

  /** Between two looks at a folder, an unchanged mtime means an unchanged text at an unchanged path. */
  ghost predicate Honest(was: seq<File>, files: seq<File>) {
    forall id :: Present(was, id) && Present(files, id) ==>
      FileOf(was, id).path == FileOf(files, id).path
      && (FileOf(was, id).mtime == FileOf(files, id).mtime ==> FileOf(was, id).reading == FileOf(files, id).reading)
  }

  /** The same hash means the same text, and so the same document. */
  predicate Injective(was: seq<File>, files: seq<File>) {
    forall f, g :: f in was && g in files && f.reading.Some? && g.reading.Some? && f.reading.value.hash == g.reading.value.hash ==>
      f.reading == g.reading
  }

  lemma HonestIsNotMisled(was: seq<File>, files: seq<File>, id: string)
    requires Honest(was, files) && Injective(was, files)
    ensures NotMisled(was, files, id)
  {
    if Present(was, id) && Present(files, id) {
      var f, g := FileOf(was, id), FileOf(files, id);
      assert f in was && g in files;
    }
  }

  /** The entry for one id after reindexing one look at the folder after the other. */
  function After(looks: seq<seq<File>>, id: string): Option<Entry> {
    if looks == [] then None else Final(After(looks[..|looks| - 1], id), looks[|looks| - 1], id)
  }

  /** After each reindexing the index holds what a full rebuild of that look holds. */
  predicate AlwaysFull(looks: seq<seq<File>>, id: string) {
    looks == [] || (AlwaysFull(looks[..|looks| - 1], id) && After(looks, id) == Told(looks[|looks| - 1], id))
  }

  /** From no look to the next was the index misled. */
  predicate NeverMisled(looks: seq<seq<File>>, id: string) {
    |looks| <= 1 || (NeverMisled(looks[..|looks| - 1], id) && NotMisled(looks[|looks| - 2], looks[|looks| - 1], id))
  }

  /** However often a folder is reindexed: the index is each time what a full rebuild gives exactly when it was never misled. */
  lemma {:induction false} IncrementalIsFull(looks: seq<seq<File>>, id: string)
    ensures AlwaysFull(looks, id) <==> NeverMisled(looks, id)
    decreases |looks|
  {
    if looks != [] {
      var init := looks[..|looks| - 1];
      IncrementalIsFull(init, id);
      if init == [] {
        assert After(looks, id) == Final(After(init, id), looks[0], id) == Told(looks[0], id);
      } else {
        assert init[|init| - 1] == looks[|looks| - 2];
        assert AlwaysFull(init, id) ==> After(init, id) == Told(looks[|looks| - 2], id);
        SameAsRebuild(looks[|looks| - 2], looks[|looks| - 1], id);
      }
    }
  }

  ghost predicate AllHonest(looks: seq<seq<File>>) {
    forall k :: 0 < k < |looks| ==> Honest(looks[k - 1], looks[k]) && Injective(looks[k - 1], looks[k])
  }

  lemma {:induction false} HonestIsNeverMisled(looks: seq<seq<File>>, id: string)
    requires AllHonest(looks)
    ensures NeverMisled(looks, id)
    decreases |looks|
  {
    if |looks| > 1 {
      var n := |looks| - 1;
      assert forall k :: 0 <= k < n ==> looks[..n][k] == looks[k];
      HonestIsNeverMisled(looks[..n], id);
      HonestIsNotMisled(looks[n - 1], looks[n], id);
    }
  }

  /** In particular when mtimes are honest, hashes are injective and paths stay. */
  lemma HonestIsFull(looks: seq<seq<File>>, id: string)
    requires looks != [] && AllHonest(looks)
    ensures After(looks, id) == Told(looks[|looks| - 1], id)
  {
    HonestIsNeverMisled(looks, id);
    IncrementalIsFull(looks, id);
  }

  /** A text changed under an unchanged mtime stays in the index as it was. */
  lemma StaleMtime(id: string)
    ensures var was := [File(id, "p", Some(1), Some(Doc("a", "1", [])))];
            var now := [File(id, "p", Some(1), Some(Doc("b", "2", [])))];
            After([was, now], id) != Told(now, id)
  {
    var was := [File(id, "p", Some(1), Some(Doc("a", "1", [])))];
    var now := [File(id, "p", Some(1), Some(Doc("b", "2", [])))];
    FileAt(was, 0);
    FileAt(now, 0);
    assert [was, now][..1] == [was] && [was][..0] == [];
    assert After([was], id) == Final(After([], id), was, id);
    assert "a"[0] != "b"[0];
  }
}
