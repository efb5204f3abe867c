/** `followAgentEvents`: the closures that read, rotate and let go of the event file, one loop of reads at a time. */
module AgentFollower {
  import opened Common
  import opened ByteLines
  import opened AgentEvents

  const CHUNK_BYTES: nat := 65536

  /** An open file, how far into it the follower has read, and the bytes after the last newline. */
  datatype Cursor = Cursor(id: nat, ino: nat, offset: nat, rest: Bytes)

  predicate Matches(c: Cursor, m: Mark) {
    c.id == m.id && c.ino == m.ino && c.offset == m.start + |m.seen| && c.rest == Tail(m.seen)
  }

  /** The events between where a mark has read to and a later place. */
  function FoundTo(m: Mark, content: Bytes, to: nat, events: iset<Bytes>): seq<Bytes>
    requires m.start + |m.seen| <= to <= |content|
  {
    EventsIn(Lines(Tail(m.seen) + content[m.start + |m.seen|..to]), events)
  }

  /** A mark that has read up to there. */
  function MarkTo(m: Mark, content: Bytes, to: nat): Mark
    requires m.start + |m.seen| <= to <= |content|
  {
    m.(seen := m.seen + content[m.start + |m.seen|..to])
  }

  lemma Slices(content: Bytes, from: nat, at: nat, to: nat)
    requires from <= at <= to <= |content|
    ensures content[from..to] == content[from..at] + content[at..to]
  {
  }

  lemma ChunkFound(m: Mark, content: Bytes, at: nat, to: nat, events: iset<Bytes>)
    requires m.start + |m.seen| <= at <= to <= |content|
    ensures var chunk := Tail(MarkTo(m, content, at).seen) + content[at..to];
            && FoundTo(m, content, to, events) == FoundTo(m, content, at, events) + EventsIn(Lines(chunk), events)
            && Tail(MarkTo(m, content, to).seen) == Tail(chunk)
  {
    var off := m.start + |m.seen|;
    var read, more := content[off..at], content[at..to];
    var first := Tail(m.seen) + read;
    Slices(content, off, at, to);
    Rejoin(Tail(m.seen), read, more);
    Rejoin(m.seen, read, more);
    LinesOfConcat(m.seen, read);
    LinesOfConcat(first, more);
    LinesOfConcat(m.seen + read, more);
    EventsInConcat(Lines(first), Lines(Tail(first) + more), events);
  }

  lemma NothingFound(m: Mark, content: Bytes, events: iset<Bytes>)
    requires m.start + |m.seen| <= |content|
    ensures FoundTo(m, content, m.start + |m.seen|, events) == []
    ensures MarkTo(m, content, m.start + |m.seen|) == m
  {
    TailHasNoNewline(m.seen);
    assert Tail(m.seen) + [] == Tail(m.seen);
    assert m.seen + [] == m.seen;
  }

  lemma {:induction false} RunConcat(w: World, a: seq<Happening>, b: seq<Happening>, rotateBytes: nat, events: iset<Bytes>)
    requires Possible(w, a, rotateBytes, events)
    requires Possible(Run(w, a, rotateBytes, events), b, rotateBytes, events)
    ensures Possible(w, a + b, rotateBytes, events)
    ensures Run(w, a + b, rotateBytes, events) == Run(Run(w, a, rotateBytes, events), b, rotateBytes, events)
    decreases |a|
  {
    if a == [] {
      assert a + b == b;
    } else {
      assert (a + b)[1..] == a[1..] + b && (a + b)[0] == a[0];
      RunConcat(Step(w, a[0], rotateBytes, events), a[1..], b, rotateBytes, events);
    }
  }

  lemma RunOne(w: World, h: Happening, rotateBytes: nat, events: iset<Bytes>)
    requires Enabled(w, h, rotateBytes)
    ensures Possible(w, [h], rotateBytes, events)
    ensures Run(w, [h], rotateBytes, events) == Step(w, h, rotateBytes, events)
  {
    assert [h][1..] == [];
  }

  lemma {:induction false} EventsInPrefix(lines: seq<Bytes>, k: nat, events: iset<Bytes>)
    requires k < |lines|
    ensures EventsIn(lines[..k + 1], events) == EventsIn(lines[..k], events) + (if lines[k] in events then [lines[k]] else [])
    ensures EventsIn(lines[..k + 1], events) <= EventsIn(lines, events)
  {
    assert lines[..k + 1][..k] == lines[..k];
    EventsInConcat(lines[..k + 1], lines[k + 1..], events);
    assert lines == lines[..k + 1] + lines[k + 1..];
  }

  lemma OneMore(log: seq<Entry>, id: nat, lines: seq<Bytes>, k: nat, events: iset<Bytes>)
    requires k < |lines|
    ensures var done := EventsIn(lines[..k], events);
            && log + Tag(id, EventsIn(lines[..k + 1], events))
               == log + Tag(id, done) + (if lines[k] in events then [Entry(id, lines[k])] else [])
            && (lines[k] in events ==> Leaves(EventsIn(lines, events), Some(|done|)))
            && (lines[k] in events ==> Given(EventsIn(lines, events), Some(|done|)) == EventsIn(lines[..k + 1], events))
  {
    var done := EventsIn(lines[..k], events);
    EventsInPrefix(lines, k, events);
    if lines[k] in events {
      TagSnoc(id, done, lines[k]);
      Resnoc(log, Tag(id, done), Entry(id, lines[k]));
    } else {
      assert done + [] == done;
      assert log + Tag(id, done) + [] == log + Tag(id, done);
    }
  }

  lemma ReadAll(m: Mark, content: Bytes, events: iset<Bytes>)
    requires m.start + |m.seen| <= |content|
    ensures FoundTo(m, content, |content|, events) == Fresh(m, content, events)
    ensures MarkTo(m, content, |content|) == ReadTo(m, content, events)
  {
    assert content[m.start + |m.seen|..|content|] == content[m.start + |m.seen|..];
  }

  lemma LogAssociates(log: seq<Entry>, id: nat, a: seq<Bytes>, b: seq<Bytes>)
    ensures log + Tag(id, a) + Tag(id, b) == log + Tag(id, a + b)
  {
    TagConcat(id, a, b);
    Rejoin(log, Tag(id, a), Tag(id, b));
  }

  lemma PrefixLeaves(a: seq<Bytes>, b: seq<Bytes>, c: seq<Bytes>, n: nat)
    requires n < |b|
    ensures Given(a + b + c, Some(|a| + n)) == a + b[..n + 1]
    ensures Leaves(a + b + c, Some(|a| + n))
  {
  }

  /** The events found were given to the caller, as far as its patience went. */
  predicate Fed(w: World, id: nat, found: seq<Bytes>, patience: Option<nat>, after: World) {
    var next := w.(log := w.log + Tag(id, Given(found, patience)));
    after == if Leaves(found, patience) then Shut(next) else next
  }

  lemma NothingFed(w: World, id: nat)
    ensures Fed(w, id, [], None, w)
  {
    assert w.log + Tag(id, []) == w.log;
  }

  /** The world once a reading has come that far. */
  function Upto(w: World, m: Mark, content: Bytes, at: nat, events: iset<Bytes>): World
    requires m.start + |m.seen| <= at <= |content|
  {
    w.(log := w.log + Tag(m.id, FoundTo(m, content, at, events)))
  }

  function ChunkAt(m: Mark, content: Bytes, at: nat, to: nat): Bytes
    requires m.start + |m.seen| <= at < to <= |content|
  {
    Tail(MarkTo(m, content, at).seen) + content[at..to]
  }

  /** A chunk that the caller heard to its end. */
  lemma ChunkHeard(w: World, m: Mark, content: Bytes, at: nat, to: nat, patience: Option<nat>, events: iset<Bytes>, after: World)
    requires m.start + |m.seen| <= at < to <= |content|
    requires var found := EventsIn(Lines(ChunkAt(m, content, at, to)), events);
             !Leaves(found, patience) && Fed(Upto(w, m, content, at, events), m.id, found, patience, after)
    ensures after == Upto(w, m, content, to, events)
  {
    var found := EventsIn(Lines(ChunkAt(m, content, at, to)), events);
    ChunkFound(m, content, at, to, events);
    LogAssociates(w.log, m.id, FoundTo(m, content, at, events), found);
  }

  lemma FoundParts(m: Mark, content: Bytes, at: nat, to: nat, events: iset<Bytes>) returns (rest: seq<Bytes>)
    requires m.start + |m.seen| <= at < to <= |content|
    ensures Fresh(m, content, events)
            == FoundTo(m, content, at, events) + EventsIn(Lines(ChunkAt(m, content, at, to)), events) + rest
  {
    ChunkFound(m, content, at, to, events);
    ChunkFound(m, content, to, |content|, events);
    ReadAll(m, content, events);
    rest := EventsIn(Lines(Tail(MarkTo(m, content, to).seen) + content[to..|content|]), events);
  }

  lemma LeftFrom(w: World, id: nat, a: seq<Bytes>, b: seq<Bytes>, rest: seq<Bytes>, n: nat, after: World)
    requires n < |b| && Fed(w.(log := w.log + Tag(id, a)), id, b, Some(n), after)
    ensures Fed(w, id, a + b + rest, Some(|a| + n), after)
  {
    PrefixLeaves(a, b, rest, n);
    LogAssociates(w.log, id, a, b[..n + 1]);
  }

  /** A chunk inside which the caller closed the follower. */
  lemma ChunkLeft(w: World, m: Mark, content: Bytes, at: nat, to: nat, patience: Option<nat>, events: iset<Bytes>, after: World)
    requires m.start + |m.seen| <= at < to <= |content|
    requires var found := EventsIn(Lines(ChunkAt(m, content, at, to)), events);
             Leaves(found, patience) && Fed(Upto(w, m, content, at, events), m.id, found, patience, after)
    ensures Fed(w, m.id, Fresh(m, content, events), Some(|FoundTo(m, content, at, events)| + patience.value), after)
  {
    var rest := FoundParts(m, content, at, to, events);
    LeftFrom(w, m.id, FoundTo(m, content, at, events), EventsIn(Lines(ChunkAt(m, content, at, to)), events), rest, patience.value, after);
  }

  /** How far a reading has come: what was found up to there was handed over, and nothing else changed. */
  predicate Reached(w: World, m: Mark, content: Bytes, events: iset<Bytes>, c: Cursor, view: World) {
    && m.start + |m.seen| <= c.offset <= |content|
    && Matches(c, MarkTo(m, content, c.offset))
    && view == Upto(w, m, content, c.offset, events)
  }

  lemma Advance(m: Mark, content: Bytes, events: iset<Bytes>, c: Cursor, to: nat)
    requires m.start + |m.seen| <= c.offset < to <= |content| && Matches(c, MarkTo(m, content, c.offset))
    ensures Matches(c.(offset := to, rest := Tail(c.rest + content[c.offset..to])), MarkTo(m, content, to))
    ensures c.rest + content[c.offset..to] == ChunkAt(m, content, c.offset, to)
  {
    ChunkFound(m, content, c.offset, to, events);
  }

  /** A chunk's delivery, seen from where the reading began. */
  lemma ChunkTaken(
    w: World, m: Mark, content: Bytes, events: iset<Bytes>,
    c: Cursor, before: World, next: Cursor, patience: Option<nat>, after: World)
    returns (whole: Option<nat>)
    requires !w.closed && Reached(w, m, content, events, c, before) && c.offset < next.offset <= |content|
    requires next == c.(offset := next.offset, rest := Tail(c.rest + content[c.offset..next.offset]))
    requires Fed(before, c.id, EventsIn(Lines(c.rest + content[c.offset..next.offset]), events), patience, after)
    ensures !after.closed ==> Reached(w, m, content, events, next, after)
    ensures after.closed ==> Fed(w, m.id, Fresh(m, content, events), whole, after)
  {
    Advance(m, content, events, c, next.offset);
    whole := TakenAt(w, m, content, c.offset, next.offset, patience, events, after);
  }

  lemma TakenAt(w: World, m: Mark, content: Bytes, at: nat, to: nat, patience: Option<nat>, events: iset<Bytes>, after: World)
    returns (whole: Option<nat>)
    requires !w.closed && m.start + |m.seen| <= at < to <= |content|
    requires Fed(Upto(w, m, content, at, events), m.id, EventsIn(Lines(ChunkAt(m, content, at, to)), events), patience, after)
    ensures !after.closed ==> after == Upto(w, m, content, to, events)
    ensures after.closed ==> Fed(w, m.id, Fresh(m, content, events), whole, after)
  {
    whole := None;
    if after.closed {
      whole := Some(|FoundTo(m, content, at, events)| + patience.value);
      ChunkLeft(w, m, content, at, to, patience, events, after);
    } else {
      ChunkHeard(w, m, content, at, to, patience, events, after);
    }
  }

  /** One step more of a run. */
  lemma Then(w: World, steps: seq<Happening>, h: Happening, rotateBytes: nat, events: iset<Bytes>) returns (all: seq<Happening>)
    requires Possible(w, steps, rotateBytes, events) && Enabled(Run(w, steps, rotateBytes, events), h, rotateBytes)
    ensures Possible(w, all, rotateBytes, events)
    ensures Run(w, all, rotateBytes, events) == Step(Run(w, steps, rotateBytes, events), h, rotateBytes, events)
  {
    RunOne(Run(w, steps, rotateBytes, events), h, rotateBytes, events);
    RunConcat(w, steps, [h], rotateBytes, events);
    all := steps + [h];
  }

  lemma ReadAgain(m: Mark, content: Bytes, events: iset<Bytes>)
    requires |content| < m.start + |m.seen|
    ensures var again := Mark(m.id, m.ino, Expected(m, events), 0, []);
            Fresh(again, content, events) == Fresh(m, content, events) && ReadTo(again, content, events) == ReadTo(m, content, events)
  {
    assert [] + content == content;
  }

  // ---- what other processes append meanwhile ----

  datatype Addition = Addition(ino: nat, bytes: Bytes)

  /** The files once so much has been appended, each time to one of them. */
  function Appended(files: map<nat, Bytes>, more: seq<Addition>): (r: map<nat, Bytes>)
    requires forall k :: 0 <= k < |more| ==> more[k].ino in files
    ensures r.Keys == files.Keys
  {
    if more == [] then files
    else
      var before, last := Appended(files, more[..|more| - 1]), more[|more| - 1];
      before[last.ino := before[last.ino] + last.bytes]
  }

  lemma {:induction false} AppendedGrows(files: map<nat, Bytes>, more: seq<Addition>, ino: nat)
    requires (forall k :: 0 <= k < |more| ==> more[k].ino in files) && ino in files
    ensures files[ino] <= Appended(files, more)[ino]
  {
    if more != [] {
      AppendedGrows(files, more[..|more| - 1], ino);
    }
  }

  lemma {:induction false} AppendedMore(files: map<nat, Bytes>, a: seq<Addition>, b: seq<Addition>)
    requires forall k :: 0 <= k < |a| ==> a[k].ino in files
    requires forall k :: 0 <= k < |b| ==> b[k].ino in files
    ensures forall k :: 0 <= k < |a + b| ==> (a + b)[k].ino in files
    ensures Appended(files, a + b) == Appended(Appended(files, a), b)
    decreases |b|
  {
    if b == [] {
      assert a + b == a;
    } else {
      var init, last := b[..|b| - 1], b[|b| - 1];
      AppendedMore(files, a, init);
      Resnoc(a, init, last);
      assert b == init + [last];
      AppendedOne(files, a + init, last);
      AppendedOne(Appended(files, a), init, last);
    }
  }

  lemma AppendedOne(files: map<nat, Bytes>, more: seq<Addition>, one: Addition)
    requires (forall k :: 0 <= k < |more| ==> more[k].ino in files) && one.ino in files
    ensures forall k :: 0 <= k < |more + [one]| ==> (more + [one])[k].ino in files
    ensures Appended(files, more + [one]) == Appended(files, more)[one.ino := Appended(files, more)[one.ino] + one.bytes]
  {
    assert (more + [one])[..|more|] == more;
  }

  /** Up to the size it had, a file that was appended to holds what it held. */
  lemma SameSlice(content: Bytes, grown: Bytes, i: nat, j: nat)
    requires content <= grown && i <= j <= |content|
    ensures grown[i..j] == content[i..j]
  {
    assert grown[..|content|] == content;
  }

  lemma StillAppended(files: map<nat, Bytes>, more: seq<Addition>, extra: seq<Addition>, now: map<nat, Bytes>, ino: nat)
    requires (forall k :: 0 <= k < |more| ==> more[k].ino in files) && ino in files
    requires (forall k :: 0 <= k < |extra| ==> extra[k].ino in files) && now == Appended(Appended(files, more), extra)
    ensures forall k :: 0 <= k < |more + extra| ==> (more + extra)[k].ino in files
    ensures now == Appended(files, more + extra) && files[ino] <= now[ino]
  {
    AppendedMore(files, more, extra);
    AppendedGrows(files, more + extra, ino);
  }

  /** Steps more of a run, all of them appends. */
  lemma {:induction false} ThenAppends(w: World, steps: seq<Happening>, more: seq<Addition>, rotateBytes: nat, events: iset<Bytes>)
    returns (all: seq<Happening>)
    requires Possible(w, steps, rotateBytes, events)
    requires forall k :: 0 <= k < |more| ==> more[k].ino in Run(w, steps, rotateBytes, events).files
    ensures Possible(w, all, rotateBytes, events)
    ensures var now := Run(w, steps, rotateBytes, events);
            Run(w, all, rotateBytes, events) == now.(files := Appended(now.files, more))
    decreases |more|
  {
    all := steps;
    if more != [] {
      all := ThenAppends(w, steps, more[..|more| - 1], rotateBytes, events);
      all := Then(w, all, Append(more[|more| - 1].ino, more[|more| - 1].bytes), rotateBytes, events);
    }
  }

  /** The followed file was read up to the size it had, and appended to meanwhile. */
  lemma ThenRead(w: World, steps: seq<Happening>, before: World, patience: Option<nat>, more: seq<Addition>, after: World,
                 rotateBytes: nat, events: iset<Bytes>)
    returns (all: seq<Happening>)
    requires Possible(w, steps, rotateBytes, events) && Run(w, steps, rotateBytes, events) == before
    requires !before.closed && before.cur.ino in before.files && forall k :: 0 <= k < |more| ==> more[k].ino in before.files
    requires var content := before.files[before.cur.ino];
             Fed(before.(files := Appended(before.files, more), cur := ReadTo(before.cur, content, events)),
                 before.cur.id, Fresh(before.cur, content, events), patience, after)
    ensures Possible(w, all, rotateBytes, events) && Run(w, all, rotateBytes, events) == after
  {
    all := Then(w, steps, Happening.Read(patience), rotateBytes, events);
    all := ThenAppends(w, all, more, rotateBytes, events);
  }

  /** The file kept for its grace was read up to the size it had, and appended to meanwhile. */
  lemma ThenFinished(w: World, steps: seq<Happening>, before: World, patience: Option<nat>, more: seq<Addition>, after: World,
                     rotateBytes: nat, events: iset<Bytes>)
    returns (all: seq<Happening>)
    requires Possible(w, steps, rotateBytes, events) && Run(w, steps, rotateBytes, events) == before
    requires !before.closed && before.grace.Some? && before.grace.value.ino in before.files
    requires forall k :: 0 <= k < |more| ==> more[k].ino in before.files
    requires var m := before.grace.value;
             var content := before.files[m.ino];
             Fed(before.(files := Appended(before.files, more), grace := None, past := before.past + [ReadTo(m, content, events)]),
                 m.id, Fresh(m, content, events), patience, after)
    ensures Possible(w, all, rotateBytes, events) && Run(w, all, rotateBytes, events) == after
  {
    all := Then(w, steps, GraceEnds(patience), rotateBytes, events);
    all := ThenAppends(w, all, more, rotateBytes, events);
  }

  /** The path was moved away, files were appended to, and another process may have made a file of its own there. */
  lemma ThenRenamed(w: World, steps: seq<Happening>, before: World, more: seq<Addition>, files: map<nat, Bytes>, named: Option<nat>,
                    rotateBytes: nat, events: iset<Bytes>)
    returns (all: seq<Happening>)
    requires Possible(w, steps, rotateBytes, events) && Run(w, steps, rotateBytes, events) == before
    requires forall k :: 0 <= k < |more| ==> more[k].ino in before.files
    requires if named.None? then files == Appended(before.files, more)
             else named.value !in before.files && named.value in files && files == Appended(before.files, more)[named.value := files[named.value]]
    ensures Possible(w, all, rotateBytes, events) && Run(w, all, rotateBytes, events) == before.(files := files, named := named)
  {
    all := Then(w, steps, Name(None), rotateBytes, events);
    all := ThenAppends(w, all, more, rotateBytes, events);
    if named.Some? {
      all := Then(w, all, Create(named.value, files[named.value]), rotateBytes, events);
      all := Then(w, all, Name(named), rotateBytes, events);
    }
  }

  /** The path was moved away, files were appended to, and a new file is there and is followed from its start. */
  lemma ThenRotated(w: World, steps: seq<Happening>, before: World, more: seq<Addition>, ino: nat, files: map<nat, Bytes>,
                    rotateBytes: nat, events: iset<Bytes>)
    returns (all: seq<Happening>)
    requires Possible(w, steps, rotateBytes, events) && Run(w, steps, rotateBytes, events) == before
    requires forall k :: 0 <= k < |more| ==> more[k].ino in before.files
    requires ino !in before.files && ino in files && files == Appended(before.files, more)[ino := files[ino]]
    requires Enabled(before, Happening.Rotate(ino, files[ino]), rotateBytes)
    ensures Possible(w, all, rotateBytes, events)
    ensures Run(w, all, rotateBytes, events)
         == before.(files := files, named := Some(ino), grace := Some(before.cur), cur := Mark(before.count, ino, [], 0, []), count := before.count + 1)
  {
    all := ThenAppends(w, steps, more, rotateBytes, events);
    all := Then(w, all, Happening.Rotate(ino, files[ino]), rotateBytes, events);
  }

  /** What a world still has of every cursor that was let go of, or is kept for its grace. */
  predicate Keeps(before: World, after: World) {
    forall m :: m in before.past + Held(before) ==> m in after.past + Held(after)
  }

  /** The file of a cursor has been read so far. */
  predicate HasRead(w: World, id: nat, size: nat) {
    exists m :: m in Marks(w) && m.id == id && m.start + |m.seen| >= size
  }

  /** The directory the file is in: other processes share it. */
  class Disk {
    var files: map<nat, Bytes>
    var named: Option<nat>

    ghost predicate Valid()
      reads this
    {
      named.Some? ==> named.value in files
    }

    constructor (files: map<nat, Bytes>, named: Option<nat>)
      requires named.Some? ==> named.value in files
      ensures Valid() && this.files == files && this.named == named
    {
      this.files, this.named := files, named;
    }

    /** The path opened, created when it names nothing. */
    method Open() returns (ino: nat)
      requires Valid()
      modifies this
      ensures Valid() && named == Some(ino)
      ensures old(named).Some? ==> named == old(named) && files == old(files)
      ensures old(named).None? ==> ino !in old(files) && files == old(files)[ino := []]
    {
      if named.Some? {
        return named.value;
      }
      FreshNumber(files.Keys);
      ino :| ino !in files.Keys;
      files, named := files[ino := []], Some(ino);
    }

    /** The path moved away. */
    method Rename()
      requires Valid()
      modifies this
      ensures Valid() && named.None? && files == old(files)
    {
      named := None;
    }

    /** Another process may make a file of its own at a path that names nothing. */
    method Race()
      requires Valid() && named.None?
      modifies this
      ensures Valid()
      ensures named.None? ==> files == old(files)
      ensures named.Some? ==> named.value !in old(files) && files == old(files)[named.value := files[named.value]]
    {
      var raced: bool := *;
      if raced {
        FreshNumber(files.Keys);
        var ino: nat :| ino !in files.Keys;
        var content: Bytes := *;
        files, named := files[ino := content], Some(ino);
      }
    }

    /** Other processes append to the files, so often. */
    method Others() returns (ghost more: seq<Addition>)
      requires Valid()
      modifies this
      ensures Valid() && named == old(named)
      ensures forall k :: 0 <= k < |more| ==> more[k].ino in old(files)
      ensures files == Appended(old(files), more)
    {
      more := [];
      var times: int := *;
      times := if times < 0 then 0 else times;
      for t := 0 to times
        invariant Valid() && named == old(named)
        invariant forall k :: 0 <= k < |more| ==> more[k].ino in old(files)
        invariant files == Appended(old(files), more)
      {
        var ino: int := *;
        var bytes: Bytes := *;
        if ino >= 0 && ino in files {
          ghost var one := Addition(ino, bytes);
          assert (more + [one])[..|more|] == more;
          files, more := files[ino := files[ino] + bytes], more + [one];
        }
      }
    }

    /** A read returns some of what is there, never nothing before the end. */
    method Read(ino: nat, offset: nat, want: nat) returns (data: Bytes)
      requires ino in files && offset + want <= |files[ino]| && want > 0
      ensures 0 < |data| <= want && data == files[ino][offset..offset + |data|]
    {
      var n: int := *;
      n := if 0 < n <= want then n else want;
      data := files[ino][offset..offset + n];
    }
  }

  lemma FreshNumber(used: set<nat>)
    ensures exists ino: nat :: ino !in used
  {
    var bound := Beyond(used);
    assert bound !in used;
  }

  class Follower {
    const events: iset<Bytes>
    const rotateBytes: nat
    const disk: Disk
    var closed: bool
    var watching: bool
    var deaths: nat
    var count: nat
    var cur: Cursor
    /** The file the follower rotated away, while its grace timer runs. */
    var grace: Option<Cursor>
    /** What `onEvent` has been given. */
    var log: seq<Entry>
    ghost var curMark: Mark
    ghost var graceMark: Option<Mark>
    ghost var past: seq<Mark>

    ghost predicate Valid()
      reads this, disk
    {
      && disk.Valid()
      && (closed <==> !watching)
      && (closed ==> grace.None?)
      && (grace.Some? <==> graceMark.Some?)
      && (!closed ==> Matches(cur, curMark) && cur.ino in disk.files)
      && (grace.Some? ==> Matches(grace.value, graceMark.value) && grace.value.ino in disk.files)
    }

    ghost function View(): World
      reads this, disk
    {
      World(disk.files, disk.named, closed, deaths, count, curMark, graceMark, past, log)
    }

    /** Follows the file from its end on; a path that names nothing is created. */
    constructor (events: iset<Bytes>, rotateBytes: nat, disk: Disk)
      requires disk.Valid()
      modifies disk
      ensures Valid() && !closed
      ensures this.events == events && this.rotateBytes == rotateBytes && this.disk == disk
      ensures disk.named.Some? && View() == Begin(disk.files, disk.named.value)
      ensures old(disk.named).Some? ==> disk.files == old(disk.files) && disk.named == old(disk.named)
    {
      this.events, this.rotateBytes, this.disk := events, rotateBytes, disk;
      closed, watching, deaths, count := false, true, 0, 1;
      grace, log, past, graceMark := None, [], [], None;
      var ino := disk.Open();
      cur := Cursor(0, ino, |disk.files[ino]|, []);
      curMark := Mark(0, ino, [], |disk.files[ino]|, []);
    }

    /** Releases everything: nothing is delivered after it. */
    method Shutdown()
      requires closed ==> grace.None? && graceMark.None? && !watching
      requires grace.Some? <==> graceMark.Some?
      modifies this
      ensures View() == Shut(old(View()))
      ensures closed && !watching && grace.None? && graceMark.None?
    {
      if closed {
        return;
      }
      closed, watching := true, false;
      if grace.Some? {
        past := past + [graceMark.value];
        grace, graceMark := None, None;
      }
      assert past == old(past) + Held(old(View()));
    }

    /** Hands one line over when it is an event; the caller may close the follower from inside. */
    method Deliver(id: nat, line: Bytes)
      requires !closed && watching && (grace.Some? <==> graceMark.Some?)
      modifies this
      ensures var next := old(View()).(log := old(log) + (if line in events then [Entry(id, line)] else []));
              View() == if closed then Shut(next) else next
      ensures closed ==> line in events && !watching && grace.None? && graceMark.None?
      ensures !closed ==> watching && grace == old(grace) && cur == old(cur)
    {
      if line in events {
        log := log + [Entry(id, line)];
        var leaves: bool := *;
        if leaves {
          Shutdown();
        }
      } else {
        assert log + [] == log;
      }
    }

    /** Hands lines over one by one, and stops when the follower has been closed. */
    method DeliverAll(id: nat, lines: seq<Bytes>) returns (ghost patience: Option<nat>)
      requires !closed && watching && (grace.Some? <==> graceMark.Some?)
      modifies this
      ensures Delivered(old(View()), id, EventsIn(lines, events), patience)
      ensures watching == !closed && (!closed ==> grace == old(grace) && cur == old(cur)) && (closed ==> grace.None? && graceMark.None?)
    {
      patience := None;
      ghost var w := View();
      assert log + Tag(id, []) == log;
      for k := 0 to |lines|
        invariant !closed && watching && grace == old(grace) && cur == old(cur)
        invariant View() == w.(log := w.log + Tag(id, EventsIn(lines[..k], events)))
      {
        OneMore(w.log, id, lines, k, events);
        Deliver(id, lines[k]);
        if closed {
          patience := Some(|EventsIn(lines[..k], events)|);
          return;
        }
      }
      assert lines[..|lines|] == lines;
    }

    /** The events found were given to the caller, as far as its patience went. */
    ghost predicate Delivered(w: World, id: nat, found: seq<Bytes>, patience: Option<nat>)
      reads this, disk
    {
      Fed(w, id, found, patience, View())
    }

    /** What a follower that may still deliver keeps between two deliveries. */
    ghost predicate Live()
      reads this
    {
      !closed && watching && (grace.Some? <==> graceMark.Some?)
    }

    /** One read of at most a chunk, up to the size that the file was found to have: the complete lines in it are handed over, and the rest waits for the next. */
    method ReadChunk(c: Cursor, size: nat) returns (next: Cursor, ghost patience: Option<nat>)
      requires Live() && c.ino in disk.files && c.offset < size <= |disk.files[c.ino]|
      modifies this
      ensures c.offset < next.offset <= size
      ensures next == c.(offset := next.offset, rest := Tail(c.rest + disk.files[c.ino][c.offset..next.offset]))
      ensures Delivered(old(View()), c.id, EventsIn(Lines(c.rest + disk.files[c.ino][c.offset..next.offset]), events), patience)
      ensures watching == !closed && (closed ==> grace.None? && graceMark.None?)
      ensures !closed ==> Live() && grace == old(grace) && cur == old(cur)
    {
      var want := if size - c.offset < CHUNK_BYTES then size - c.offset else CHUNK_BYTES;
      var read := disk.Read(c.ino, c.offset, want);
      var found, lines, rest := CutLines(c.rest + read);
      next := c.(offset := c.offset + |read|, rest := rest);
      patience := None;
      if found {
        patience := DeliverAll(c.id, lines);
      } else {
        NothingFed(View(), c.id);
      }
    }

    /** Reads on to the size that a file was found to have, while others append to it. */
    method ReadOn(c: Cursor, ghost m: Mark) returns (next: Cursor, ghost patience: Option<nat>, ghost more: seq<Addition>)
      requires disk.Valid() && Live() && Matches(c, m) && c.ino in disk.files && c.offset <= |disk.files[c.ino]|
      modifies this, disk
      ensures disk.Valid() && disk.named == old(disk.named)
      ensures (forall k :: 0 <= k < |more| ==> more[k].ino in old(disk.files)) && disk.files == Appended(old(disk.files), more)
      ensures Delivered(old(View()).(files := disk.files), c.id, Fresh(m, old(disk.files[c.ino]), events), patience)
      ensures watching == !closed && (closed ==> grace.None? && graceMark.None?)
      ensures !closed ==> Live() && grace == old(grace) && cur == old(cur) && Matches(next, ReadTo(m, old(disk.files[c.ino]), events))
    {
      ghost var w, content := View(), disk.files[c.ino];
      var size := |disk.files[c.ino]|;
      next, patience, more := c, None, [];
      NothingFound(m, content, events);
      assert log + Tag(c.id, []) == log;
      while next.offset < size
        invariant disk.Valid() && disk.named == old(disk.named) && c.ino in disk.files && content <= disk.files[c.ino]
        invariant (forall k :: 0 <= k < |more| ==> more[k].ino in old(disk.files)) && disk.files == Appended(old(disk.files), more)
        invariant Live() && next.ino == c.ino && grace == old(grace) && cur == old(cur)
        invariant Reached(w.(files := disk.files), m, content, events, next, View())
        decreases size - next.offset
      {
        ghost var from, before := next, View();
        next, patience := ReadChunk(next, size);
        SameSlice(content, disk.files[c.ino], from.offset, next.offset);
        patience := ChunkTaken(w.(files := disk.files), m, content, events, from, before, next, patience, View());
        if closed {
          return;
        }
        ghost var extra := disk.Others();
        StillAppended(old(disk.files), more, extra, disk.files, c.ino);
        more := more + extra;
      }
      ReadAll(m, content, events);
      patience := None;
    }

    /** `pump`: reads a file to its end and hands its complete lines over; a file that is now shorter is read from its start. */
    method Pump(c: Cursor, ghost m: Mark) returns (next: Cursor, ghost patience: Option<nat>, ghost more: seq<Addition>)
      requires disk.Valid() && Live() && Matches(c, m) && c.ino in disk.files
      modifies this, disk
      ensures disk.Valid() && disk.named == old(disk.named)
      ensures (forall k :: 0 <= k < |more| ==> more[k].ino in old(disk.files)) && disk.files == Appended(old(disk.files), more)
      ensures Delivered(old(View()).(files := disk.files), c.id, Fresh(m, old(disk.files[c.ino]), events), patience)
      ensures watching == !closed && (closed ==> grace.None? && graceMark.None?)
      ensures !closed ==> Live() && grace == old(grace) && cur == old(cur) && Matches(next, ReadTo(m, old(disk.files[c.ino]), events))
    {
      var size := |disk.files[c.ino]|;
      if size < c.offset {
        ghost var again := Mark(m.id, m.ino, Expected(m, events), 0, []);
        ReadAgain(m, disk.files[c.ino], events);
        next, patience, more := ReadOn(c.(offset := 0, rest := []), again);
      } else {
        next, patience, more := ReadOn(c, m);
      }
    }

    /** The follower can no longer hear the file. */
    method Die(ghost w: World, ghost steps: seq<Happening>) returns (ghost all: seq<Happening>)
      requires Live() && Came(w, steps, View())
      modifies this
      ensures closed && !watching && grace.None? && graceMark.None?
      ensures Came(w, all, View()) && Keeps(old(View()), View())
    {
      all := Then(w, steps, Deaf, rotateBytes, events);
      Shutdown();
      deaths := deaths + 1;
    }

    ghost predicate Came(w: World, steps: seq<Happening>, after: World) {
      Possible(w, steps, rotateBytes, events) && Run(w, steps, rotateBytes, events) == after
    }

    /** `openFresh`: the path opened from its start, and created when it names nothing; the follower dies when it cannot be opened. */
    method OpenFresh(ghost w: World, ghost steps: seq<Happening>) returns (next: Option<Cursor>, ghost all: seq<Happening>)
      requires Valid() && !closed && Came(w, steps, View())
      modifies this, disk
      ensures Valid() && Came(w, all, View()) && Keeps(old(View()), View())
      ensures next.None? <==> closed
      ensures next.Some? ==>
                && grace == old(grace) && cur == old(cur) && curMark == old(curMark) && graceMark == old(graceMark)
                && count == old(count) && past == old(past) && log == old(log) && deaths == old(deaths)
                && disk.named == Some(next.value.ino) && next.value.offset == 0 && next.value.rest == [] && next.value.id == count
                && next.value.ino in disk.files && (old(disk.named).Some? ==> disk.named == old(disk.named) && disk.files == old(disk.files))
                && (old(disk.named).None? ==> next.value.ino !in old(disk.files) && disk.files == old(disk.files)[next.value.ino := []])
    {
      var fails: bool := *;
      if fails {
        all := Die(w, steps);
        return None, all;
      }
      all := steps;
      ghost var unnamed := disk.named.None?;
      var ino := disk.Open();
      if unnamed {
        all := Then(w, all, Create(ino, []), rotateBytes, events);
        all := Then(w, all, Name(Some(ino)), rotateBytes, events);
      }
      next := Some(Cursor(count, ino, 0, []));
    }

    /** `rewatch`: the path watched again; a follower that cannot is deaf for good. */
    method Rewatch(ghost w: World, ghost steps: seq<Happening>) returns (ghost all: seq<Happening>)
      requires Valid() && !closed && Came(w, steps, View())
      modifies this
      ensures Valid() && Came(w, all, View()) && Keeps(old(View()), View())
      ensures !closed ==> View() == old(View()) && cur == old(cur) && grace == old(grace)
    {
      all := steps;
      var fails: bool := *;
      if fails {
        all := Die(w, steps);
      }
    }

    /** Other processes append to the files. */
    method Elsewhere(ghost w: World, ghost steps: seq<Happening>) returns (ghost all: seq<Happening>)
      requires Valid() && Came(w, steps, View())
      modifies disk
      ensures Valid() && Came(w, all, View()) && disk.named == old(disk.named)
      ensures disk.files.Keys == old(disk.files.Keys)
    {
      ghost var more := disk.Others();
      all := ThenAppends(w, steps, more, rotateBytes, events);
    }

    /** `reopen`: the path is gone or is a different file, which is followed from its start. */
    method Reopen(ghost w: World, ghost steps: seq<Happening>) returns (ghost all: seq<Happening>)
      requires Valid() && !closed && Came(w, steps, View())
      modifies this, disk
      ensures Valid() && Came(w, all, View()) && Keeps(old(View()), View())
      ensures !closed ==> disk.named == Some(cur.ino) && grace == old(grace) && old(curMark) in past + Held(View())
    {
      var next;
      next, all := OpenFresh(w, steps);
      if next.None? {
        return;
      }
      all := Then(w, all, Happening.Reopen, rotateBytes, events);
      past := past + [curMark];
      curMark := Mark(count, next.value.ino, [], 0, []);
      cur, count := next.value, count + 1;
      all := Rewatch(w, all);
    }

    /** The file moved away, and the path opened afresh: to be gone on with as a rotation, unless the follower dies of it. */
    method MoveAway(ghost w: World, ghost steps: seq<Happening>) returns (next: Option<nat>, ghost all: seq<Happening>)
      requires Valid() && !closed && Came(w, steps, View())
      requires disk.named == Some(cur.ino) && cur.offset >= rotateBytes && grace.None?
      modifies this, disk
      ensures Valid() && Keeps(old(View()), View()) && closed == next.None?
      ensures closed ==> Came(w, all, View())
      ensures !closed ==>
        && View() == old(View()).(files := disk.files, named := next) && cur == old(cur) && grace.None? && next.value in disk.files
        && Came(w, all, View().(grace := Some(curMark), cur := Mark(count, next.value, [], 0, []), count := count + 1))
    {
      var fails: bool := *;
      ghost var before := View();
      disk.Rename();
      ghost var more := disk.Others();
      disk.Race();
      if fails {
        all := ThenRenamed(w, steps, before, more, disk.files, disk.named, rotateBytes, events);
        all := Die(w, all);
        return None, all;
      }
      var ino := disk.Open();
      all := ThenRotated(w, steps, before, more, ino, disk.files, rotateBytes, events);
      next := Some(ino);
    }

    /** `rotate`: the file moved away and kept for its grace, and a fresh one followed. */
    method Rotate(ghost w: World, ghost steps: seq<Happening>) returns (ghost all: seq<Happening>)
      requires Valid() && !closed && Came(w, steps, View())
      requires disk.named == Some(cur.ino) && cur.offset >= rotateBytes && grace.None?
      modifies this, disk
      ensures Valid() && Came(w, all, View()) && Keeps(old(View()), View())
      ensures !closed ==> disk.named == Some(cur.ino) && grace.Some? && old(curMark) in past + Held(View())
    {
      var next;
      next, all := MoveAway(w, steps);
      if next.None? {
        return;
      }
      grace, graceMark := Some(cur), Some(curMark);
      curMark := Mark(count, next.value, [], 0, []);
      cur, count := Cursor(count, next.value, 0, []), count + 1;
      all := Rewatch(w, all);
    }

    /** `finishOld`: the grace has ended, and the old file is read one last time. */
    method FinishOld(ghost w: World, ghost steps: seq<Happening>) returns (ghost all: seq<Happening>)
      requires Valid() && Came(w, steps, View())
      modifies this, disk
      ensures Valid() && grace.None? && Came(w, all, View())
      ensures old(closed) ==> View() == old(View())
    {
      all := steps;
      if closed || grace.None? {
        return;
      }
      var last := grace.value;
      ghost var m, before, content := graceMark.value, View(), disk.files[last.ino];
      grace, graceMark := None, None;
      past := past + [ReadTo(m, content, events)];
      ghost var patience, more;
      last, patience, more := Pump(last, m);
      all := ThenFinished(w, steps, before, patience, more, View(), rotateBytes, events);
    }

    /**
     `drain`: reads the file to the end it had and, when the path is by then another file or the file has grown to the size it is rotated at,
     goes on with the next; everything it does, with what others append in between, is a run of steps.
     */
    method Drain(ghost w: World, ghost steps: seq<Happening>) returns (ghost all: seq<Happening>)
      requires Valid() && Came(w, steps, View())
      modifies this, disk
      ensures Valid() && Came(w, all, View()) && Keeps(old(View()), View())
      ensures old(closed) ==> View() == old(View())
      ensures !closed ==> disk.named == Some(cur.ino) && (cur.offset < rotateBytes || grace.Some?)
      ensures !closed ==> HasRead(View(), old(cur.id), |old(disk.files[cur.ino])|)
      decreases if closed then 0 else 1 + (if disk.named != Some(cur.ino) then 1 else 0) + (if grace.None? then 1 else 0)
    {
      all := steps;
      if closed {
        return;
      }
      all := ReadCurrent(w, steps);
      if closed {
        return;
      }
      all := Elsewhere(w, all);
      if disk.named != Some(cur.ino) {
        all := Reopen(w, all);
        all := Drain(w, all);
      } else if cur.offset >= rotateBytes && grace.None? {
        all := Rotate(w, all);
        all := Drain(w, all);
      }
    }

    method ReadCurrent(ghost w: World, ghost steps: seq<Happening>) returns (ghost all: seq<Happening>)
      requires Valid() && !closed && Came(w, steps, View())
      modifies this, disk
      ensures Valid() && Came(w, all, View()) && Keeps(old(View()), View())
      ensures disk.named == old(disk.named)
      ensures curMark.id == old(curMark.id) && curMark.start + |curMark.seen| == |old(disk.files[cur.ino])|
      ensures !closed ==> cur.ino == old(cur.ino) && cur.id == old(cur.id) && grace == old(grace)
    {
      ghost var m, before, content := curMark, View(), disk.files[cur.ino];
      curMark := ReadTo(m, content, events);
      var next;
      ghost var patience, more;
      next, patience, more := Pump(cur, m);
      all := ThenRead(w, steps, before, patience, more, View(), rotateBytes, events);
      if !closed {
        cur := next;
      }
    }
  }
}
