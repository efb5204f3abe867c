/**
 The follower of the agents' event file: it reads the file as it grows, rotates it, and keeps the old one for a grace.
 Other processes only append, replace or remove files between the follower's own steps.
 */
module AgentEvents {
  import opened Common
  import opened ByteLines

  /** An event delivered from the file a cursor reads. */
  datatype Entry = Entry(id: nat, line: Bytes)

  /** What a cursor has read: the lines of what it read before the file was last truncated under it, then bytes from `start` on. */
  datatype Mark = Mark(id: nat, ino: nat, before: seq<Bytes>, start: nat, seen: Bytes)

  function EventsIn(lines: seq<Bytes>, events: iset<Bytes>): seq<Bytes> {
    if lines == [] then []
    else EventsIn(lines[..|lines| - 1], events) + (if lines[|lines| - 1] in events then [lines[|lines| - 1]] else [])
  }

  lemma {:induction false} EventsInConcat(a: seq<Bytes>, b: seq<Bytes>, events: iset<Bytes>)
    ensures EventsIn(a + b, events) == EventsIn(a, events) + EventsIn(b, events)
    decreases |b|
  {
    if b == [] {
      assert a + b == a;
    } else {
      var n := |b| - 1;
      EventsInConcat(a, b[..n], events);
      assert (a + b)[..|a + b| - 1] == a + b[..n];
    }
  }

  predicate Bounded(log: seq<Entry>, count: nat) {
    forall k :: 0 <= k < |log| ==> log[k].id < count
  }

  /** The lines delivered through one cursor, in order. */
  function LogOf(log: seq<Entry>, id: nat): seq<Bytes> {
    if log == [] then []
    else LogOf(log[..|log| - 1], id) + (if log[|log| - 1].id == id then [log[|log| - 1].line] else [])
  }

  lemma LogOfSnoc(log: seq<Entry>, e: Entry, id: nat)
    ensures LogOf(log + [e], id) == LogOf(log, id) + (if e.id == id then [e.line] else [])
  {
    assert (log + [e])[..|log|] == log;
  }

  /** Every event a mark stands for. */
  function Expected(m: Mark, events: iset<Bytes>): seq<Bytes> {
    m.before + EventsIn(Lines(m.seen), events)
  }

  /** Lines delivered through one cursor. */
  function Tag(id: nat, lines: seq<Bytes>): seq<Entry> {
    if lines == [] then [] else Tag(id, lines[..|lines| - 1]) + [Entry(id, lines[|lines| - 1])]
  }

  lemma TagSnoc(id: nat, lines: seq<Bytes>, line: Bytes)
    ensures Tag(id, lines + [line]) == Tag(id, lines) + [Entry(id, line)]
  {
    assert (lines + [line])[..|lines|] == lines;
  }

  lemma {:induction false} TagConcat(id: nat, a: seq<Bytes>, b: seq<Bytes>)
    ensures Tag(id, a + b) == Tag(id, a) + Tag(id, b)
    decreases |b|
  {
    if b == [] {
      assert a + b == a;
    } else {
      TagConcat(id, a, b[..|b| - 1]);
      assert (a + b)[..|a + b| - 1] == a + b[..|b| - 1];
    }
  }

  lemma {:induction false} LogOfTag(log: seq<Entry>, id: nat, lines: seq<Bytes>, other: nat)
    ensures LogOf(log + Tag(id, lines), other) == LogOf(log, other) + (if other == id then lines else [])
    decreases |lines|
  {
    if lines == [] {
      assert log + Tag(id, lines) == log;
    } else {
      var init, line := lines[..|lines| - 1], lines[|lines| - 1];
      LogOfTag(log, id, init, other);
      LogOfSnoc(log + Tag(id, init), Entry(id, line), other);
      Resnoc(log, Tag(id, init), Entry(id, line));
      Resnoc(LogOf(log, other), init, line);
      assert lines == init + [line];
    }
  }

  lemma Resnoc<T>(a: seq<T>, b: seq<T>, x: T)
    ensures a + (b + [x]) == a + b + [x]
  {
  }

  // ---- reading ----

  /** A mark once its file has been read to the end; a file that has become shorter is read from its start. */
  function ReadTo(m: Mark, content: Bytes, events: iset<Bytes>): Mark {
    if |content| < m.start + |m.seen| then Mark(m.id, m.ino, Expected(m, events), 0, content)
    else m.(seen := m.seen + content[m.start + |m.seen|..])
  }

  /** The events that such a read finds. */
  function Fresh(m: Mark, content: Bytes, events: iset<Bytes>): seq<Bytes> {
    if |content| < m.start + |m.seen| then EventsIn(Lines(content), events)
    else EventsIn(Lines(Tail(m.seen) + content[m.start + |m.seen|..]), events)
  }

  lemma MoreExpected(m: Mark, chunk: Bytes, events: iset<Bytes>)
    ensures Expected(m.(seen := m.seen + chunk), events) == Expected(m, events) + EventsIn(Lines(Tail(m.seen) + chunk), events)
  {
    LinesOfConcat(m.seen, chunk);
    EventsInConcat(Lines(m.seen), Lines(Tail(m.seen) + chunk), events);
    Rejoin(m.before, EventsIn(Lines(m.seen), events), EventsIn(Lines(Tail(m.seen) + chunk), events));
  }

  lemma Rejoin<T>(a: seq<T>, b: seq<T>, c: seq<T>)
    ensures a + (b + c) == a + b + c
  {
  }

  lemma FreshIsTheRest(m: Mark, content: Bytes, events: iset<Bytes>)
    ensures Expected(ReadTo(m, content, events), events) == Expected(m, events) + Fresh(m, content, events)
  {
    if |content| >= m.start + |m.seen| {
      MoreExpected(m, content[m.start + |m.seen|..], events);
    }
  }

  /** What the caller is given of the events found, when it closes the follower after so many of them. */
  function Given(found: seq<Bytes>, patience: Option<nat>): seq<Bytes> {
    if Leaves(found, patience) then found[..patience.value + 1] else found
  }

  /** Whether the caller closes the follower from inside one of the events found. */
  predicate Leaves(found: seq<Bytes>, patience: Option<nat>) {
    patience.Some? && patience.value < |found|
  }

  // ---- the follower and the directory ----

  datatype World = World(
    files: map<nat, Bytes>, named: Option<nat>,
    closed: bool, deaths: nat, count: nat, cur: Mark, grace: Option<Mark>, past: seq<Mark>, log: seq<Entry>)

  /** What other processes do to the directory, and the steps of the follower. */
  datatype Happening =
    | Append(ino: nat, bytes: Bytes)
    | Truncate(ino: nat, size: nat)
    | Create(ino: nat, bytes: Bytes)
    | Name(target: Option<nat>)
    | Read(patience: Option<nat>)
    | Reopen
    | Rotate(ino: nat, bytes: Bytes)
    | GraceEnds(patience: Option<nat>)
    | Deaf
    | Close

  predicate ReadUp(m: Mark, files: map<nat, Bytes>) {
    m.ino in files && m.start + |m.seen| == |files[m.ino]|
  }

  /** When a step can come. Other processes act between any two of them, so what the follower goes by may be out of date. */
  predicate Enabled(w: World, h: Happening, rotateBytes: nat) {
    match h
    case Append(ino, _) => ino in w.files
    case Truncate(ino, size) => ino in w.files && size <= |w.files[ino]|
    case Create(ino, _) => ino !in w.files
    case Name(target) => target.Some? ==> target.value in w.files
    case Read(_) => !w.closed && w.cur.ino in w.files
    case Reopen => !w.closed && w.named.Some? && w.named.value in w.files
    case Rotate(ino, _) =>
      !w.closed && w.grace.None? && w.named.Some? && w.cur.ino in w.files && w.cur.start + |w.cur.seen| >= rotateBytes && ino !in w.files
    case GraceEnds(_) => !w.closed && w.grace.Some? && w.grace.value.ino in w.files
    case Deaf => !w.closed
    case Close => true
  }

  function Held(w: World): seq<Mark> {
    if w.grace.Some? then [w.grace.value] else []
  }

  /** Everything is let go of. */
  function Shut(w: World): World {
    if w.closed then w else w.(closed := true, grace := None, past := w.past + Held(w))
  }

  function Step(w: World, h: Happening, rotateBytes: nat, events: iset<Bytes>): World
    requires Enabled(w, h, rotateBytes)
  {
    match h
    case Append(ino, bytes) => w.(files := w.files[ino := w.files[ino] + bytes])
    case Truncate(ino, size) => w.(files := w.files[ino := w.files[ino][..size]])
    case Create(ino, bytes) => w.(files := w.files[ino := bytes])
    case Name(target) => w.(named := target)
    case Read(patience) =>
      var found := Fresh(w.cur, w.files[w.cur.ino], events);
      var next := w.(cur := ReadTo(w.cur, w.files[w.cur.ino], events), log := w.log + Tag(w.cur.id, Given(found, patience)));
      if Leaves(found, patience) then Shut(next) else next
    case Reopen =>
      w.(cur := Mark(w.count, w.named.value, [], 0, []), past := w.past + [w.cur], count := w.count + 1)
    case Rotate(ino, bytes) =>
      w.(files := w.files[ino := bytes], named := Some(ino),
         grace := Some(w.cur), cur := Mark(w.count, ino, [], 0, []), count := w.count + 1)
    case GraceEnds(patience) =>
      var m := w.grace.value;
      var found := Fresh(m, w.files[m.ino], events);
      var next := w.(grace := None, past := w.past + [ReadTo(m, w.files[m.ino], events)],
                     log := w.log + Tag(m.id, Given(found, patience)));
      if Leaves(found, patience) then Shut(next) else next
    case Deaf => Shut(w).(deaths := w.deaths + 1)
    case Close => Shut(w)
  }

  /** The world a follow begins in: it starts at the end of the file. */
  function Begin(files: map<nat, Bytes>, ino: nat): World
    requires ino in files
  {
    World(files, Some(ino), false, 0, 1, Mark(0, ino, [], |files[ino]|, []), None, [], [])
  }

  /** A run: every step can come when it does. */
  predicate Possible(w: World, hs: seq<Happening>, rotateBytes: nat, events: iset<Bytes>)
    decreases |hs|
  {
    hs != [] ==>
      && Enabled(w, hs[0], rotateBytes)
      && Possible(Step(w, hs[0], rotateBytes, events), hs[1..], rotateBytes, events)
  }

  function Run(w: World, hs: seq<Happening>, rotateBytes: nat, events: iset<Bytes>): World
    requires Possible(w, hs, rotateBytes, events)
    decreases |hs|
  {
    if hs == [] then w else Run(Step(w, hs[0], rotateBytes, events), hs[1..], rotateBytes, events)
  }

  // ---- what every step keeps ----

  /** Every cursor there has been. */
  function Marks(w: World): seq<Mark> {
    w.past + Held(w) + [w.cur]
  }

  predicate DistinctIds(ms: seq<Mark>, count: nat) {
    && (forall k :: 0 <= k < |ms| ==> ms[k].id < count)
    && (forall j, k :: 0 <= j < k < |ms| ==> ms[j].id != ms[k].id)
  }

  /** What has been delivered through a cursor is a beginning of what it read, and all of it unless the follower was closed in between. */
  predicate Kept(m: Mark, log: seq<Entry>, closed: bool, events: iset<Bytes>) {
    && LogOf(log, m.id) <= Expected(m, events)
    && (!closed ==> LogOf(log, m.id) == Expected(m, events))
  }

  ghost predicate Sound(w: World, events: iset<Bytes>) {
    && DistinctIds(Marks(w), w.count)
    && (forall m :: m in Marks(w) ==> Kept(m, w.log, w.closed, events))
    && Bounded(w.log, w.count)
    && (w.closed ==> w.grace.None?)
    && w.deaths <= (if w.closed then 1 else 0)
  }

  lemma BeginIsSound(files: map<nat, Bytes>, ino: nat, events: iset<Bytes>)
    requires ino in files
    ensures Sound(Begin(files, ino), events)
  {
    assert Marks(Begin(files, ino)) == [Mark(0, ino, [], |files[ino]|, [])];
  }

  lemma {:induction false} NoLog(log: seq<Entry>, id: nat)
    requires Bounded(log, id)
    ensures LogOf(log, id) == []
  {
    if log != [] {
      NoLog(log[..|log| - 1], id);
    }
  }

  /** A mark whose reading was delivered, all of it or up to where the caller closed the follower. */
  lemma FedIsKept(m: Mark, content: Bytes, log: seq<Entry>, patience: Option<nat>, events: iset<Bytes>)
    requires Kept(m, log, false, events)
    ensures var found := Fresh(m, content, events);
            Kept(ReadTo(m, content, events), log + Tag(m.id, Given(found, patience)), Leaves(found, patience), events)
  {
    var found := Fresh(m, content, events);
    FreshIsTheRest(m, content, events);
    LogOfTag(log, m.id, Given(found, patience), m.id);
  }

  lemma OthersStayKept(m: Mark, log: seq<Entry>, id: nat, lines: seq<Bytes>, closed: bool, events: iset<Bytes>)
    requires Kept(m, log, false, events) && m.id != id
    ensures Kept(m, log + Tag(id, lines), closed, events)
  {
    LogOfTag(log, id, lines, m.id);
  }

  lemma {:induction false} TagIsBounded(log: seq<Entry>, id: nat, lines: seq<Bytes>, count: nat)
    requires Bounded(log, count) && id < count
    ensures Bounded(log + Tag(id, lines), count)
    decreases |lines|
  {
    if lines == [] {
      assert log + Tag(id, lines) == log;
    } else {
      var init := lines[..|lines| - 1];
      TagIsBounded(log, id, init, count);
      Resnoc(log, Tag(id, init), Entry(id, lines[|lines| - 1]));
    }
  }

  lemma ShutKeepsMarks(w: World)
    requires w.closed ==> w.grace.None?
    ensures Marks(Shut(w)) == Marks(w)
  {
  }

  /** The marks of a world after one of its cursors has been read. */
  lemma FedMarks(ms: seq<Mark>, k: nat, content: Bytes, log: seq<Entry>, patience: Option<nat>, count: nat, events: iset<Bytes>)
    requires k < |ms| && DistinctIds(ms, count) && Bounded(log, count)
    requires forall m :: m in ms ==> Kept(m, log, false, events)
    ensures var found := Fresh(ms[k], content, events);
            var all := ms[k := ReadTo(ms[k], content, events)];
            var after := log + Tag(ms[k].id, Given(found, patience));
            && DistinctIds(all, count) && Bounded(after, count)
            && forall m :: m in all ==> Kept(m, after, Leaves(found, patience), events)
  {
    var found := Fresh(ms[k], content, events);
    var all := ms[k := ReadTo(ms[k], content, events)];
    var after := log + Tag(ms[k].id, Given(found, patience));
    TagIsBounded(log, ms[k].id, Given(found, patience), count);
    forall j | 0 <= j < |all|
      ensures Kept(all[j], after, Leaves(found, patience), events)
    {
      if j == k {
        FedIsKept(ms[k], content, log, patience, events);
      } else {
        assert ms[j] in ms;
        OthersStayKept(ms[j], log, ms[k].id, Given(found, patience), Leaves(found, patience), events);
      }
    }
  }

  lemma ReadIsSound(w: World, patience: Option<nat>, rotateBytes: nat, events: iset<Bytes>)
    requires Sound(w, events) && Enabled(w, Read(patience), rotateBytes)
    ensures Sound(Step(w, Read(patience), rotateBytes, events), events)
  {
    var k := |w.past + Held(w)|;
    FedMarks(Marks(w), k, w.files[w.cur.ino], w.log, patience, w.count, events);
    var after := Step(w, Read(patience), rotateBytes, events);
    assert Marks(after) == Marks(w)[k := ReadTo(w.cur, w.files[w.cur.ino], events)];
  }

  lemma GraceEndMarks(w: World, patience: Option<nat>, rotateBytes: nat, events: iset<Bytes>)
    requires (w.closed ==> w.grace.None?) && Enabled(w, GraceEnds(patience), rotateBytes)
    ensures var m := w.grace.value;
            var k := |w.past|;
            && k < |Marks(w)| && Marks(w)[k] == m
            && Marks(Step(w, GraceEnds(patience), rotateBytes, events)) == Marks(w)[k := ReadTo(m, w.files[m.ino], events)]
  {
  }

  lemma GraceEndIsSound(w: World, patience: Option<nat>, rotateBytes: nat, events: iset<Bytes>)
    requires Sound(w, events) && Enabled(w, GraceEnds(patience), rotateBytes)
    ensures Sound(Step(w, GraceEnds(patience), rotateBytes, events), events)
  {
    GraceEndMarks(w, patience, rotateBytes, events);
    FedMarks(Marks(w), |w.past|, w.files[w.grace.value.ino], w.log, patience, w.count, events);
  }

  lemma NewMarkIsSound(ms: seq<Mark>, ino: nat, log: seq<Entry>, count: nat, events: iset<Bytes>)
    requires DistinctIds(ms, count) && Bounded(log, count)
    requires forall m :: m in ms ==> Kept(m, log, false, events)
    ensures var all := ms + [Mark(count, ino, [], 0, [])];
            && DistinctIds(all, count + 1) && Bounded(log, count + 1)
            && forall m :: m in all ==> Kept(m, log, false, events)
  {
    NoLog(log, count);
  }

  lemma Swapped(past: seq<Mark>, cur: Mark, held: seq<Mark>, count: nat)
    requires DistinctIds(past + held + [cur], count) && |held| <= 1
    ensures DistinctIds(past + [cur] + held, count)
  {
    if held != [] {
      var a, b := past + held + [cur], past + [cur] + held;
      var n := |past|;
      assert forall k :: 0 <= k < n ==> b[k] == a[k];
      assert b[n] == a[n + 1] && b[n + 1] == a[n];
    } else {
      assert past + [cur] + held == past + held + [cur];
    }
  }

  /** Every step keeps it: no event of a cursor is given twice, out of order or left out. */
  lemma StepIsSound(w: World, h: Happening, rotateBytes: nat, events: iset<Bytes>)
    requires Sound(w, events) && Enabled(w, h, rotateBytes)
    ensures Sound(Step(w, h, rotateBytes, events), events)
  {
    var after := Step(w, h, rotateBytes, events);
    match h
    case Read(patience) => ReadIsSound(w, patience, rotateBytes, events);
    case GraceEnds(patience) => GraceEndIsSound(w, patience, rotateBytes, events);
    case Reopen =>
      var ms := w.past + [w.cur] + Held(w);
      Swapped(w.past, w.cur, Held(w), w.count);
      assert forall m :: m in ms ==> m in Marks(w);
      NewMarkIsSound(ms, w.named.value, w.log, w.count, events);
      assert Marks(after) == ms + [after.cur];
    case Rotate(ino, bytes) =>
      NewMarkIsSound(Marks(w), ino, w.log, w.count, events);
      assert Marks(after) == Marks(w) + [after.cur];
    case Deaf => ShutKeepsMarks(w);
    case Close => ShutKeepsMarks(w);
    case _ => assert Marks(after) == Marks(w);
  }

  lemma {:induction false} RunIsSound(w: World, hs: seq<Happening>, rotateBytes: nat, events: iset<Bytes>)
    requires Sound(w, events) && Possible(w, hs, rotateBytes, events)
    ensures Sound(Run(w, hs, rotateBytes, events), events)
    decreases |hs|
  {
    if hs != [] {
      StepIsSound(w, hs[0], rotateBytes, events);
      RunIsSound(Step(w, hs[0], rotateBytes, events), hs[1..], rotateBytes, events);
    }
  }

  // ---- files that are only appended to ----

  /** What has been read is what the file holds from where the cursor began. */
  predicate Faithful(m: Mark, files: map<nat, Bytes>) {
    && m.before == [] && m.ino in files && m.start + |m.seen| <= |files[m.ino]|
    && files[m.ino][m.start..m.start + |m.seen|] == m.seen
  }

  /** Every cursor into a file was. */
  predicate AllFaithful(w: World, f: nat) {
    (forall m :: m in Marks(w) && m.ino == f ==> Faithful(m, w.files)) && (w.named.Some? ==> w.named.value in w.files)
  }

  /** No step truncates that file. */
  predicate Spares(hs: seq<Happening>, f: nat) {
    forall k :: 0 <= k < |hs| && hs[k].Truncate? ==> hs[k].ino != f
  }

  lemma FaithfulRead(m: Mark, files: map<nat, Bytes>, events: iset<Bytes>)
    requires Faithful(m, files)
    ensures Faithful(ReadTo(m, files[m.ino], events), files)
    ensures ReadUp(ReadTo(m, files[m.ino], events), files)
  {
    var content := files[m.ino];
    assert content[m.start..] == content[m.start..m.start + |m.seen|] + content[m.start + |m.seen|..];
  }

  /** A file keeps what it held, with more behind it. */
  predicate Grows(a: map<nat, Bytes>, b: map<nat, Bytes>, f: nat) {
    f in a ==> f in b && a[f] <= b[f]
  }

  lemma FaithfulGrows(m: Mark, a: map<nat, Bytes>, b: map<nat, Bytes>)
    requires Faithful(m, a) && Grows(a, b, m.ino)
    ensures Faithful(m, b)
  {
    assert b[m.ino][..|a[m.ino]|] == a[m.ino];
    assert b[m.ino][m.start..m.start + |m.seen|] == a[m.ino][m.start..m.start + |m.seen|];
  }

  lemma StepIsFaithful(w: World, h: Happening, rotateBytes: nat, events: iset<Bytes>, f: nat)
    requires AllFaithful(w, f) && Enabled(w, h, rotateBytes) && (h.Truncate? ==> h.ino != f)
    ensures AllFaithful(Step(w, h, rotateBytes, events), f)
  {
    var after := Step(w, h, rotateBytes, events);
    assert Grows(w.files, after.files, f);
    forall m | m in Marks(after) && m.ino == f
      ensures Faithful(m, after.files)
    {
      if m in Marks(w) {
        FaithfulGrows(m, w.files, after.files);
      } else {
        NewlyMarked(w, h, rotateBytes, events, f, m);
      }
    }
  }

  lemma NewlyMarked(w: World, h: Happening, rotateBytes: nat, events: iset<Bytes>, f: nat, m: Mark)
    requires AllFaithful(w, f) && Enabled(w, h, rotateBytes) && (h.Truncate? ==> h.ino != f)
    requires m in Marks(Step(w, h, rotateBytes, events)) && m !in Marks(w) && m.ino == f
    ensures Faithful(m, Step(w, h, rotateBytes, events).files)
  {
    var after := Step(w, h, rotateBytes, events);
    assert w.cur in Marks(w);
    match h
    case Read(_) => FaithfulRead(w.cur, w.files, events);
    case GraceEnds(_) =>
      assert w.grace.value in Held(w);
      FaithfulRead(w.grace.value, w.files, events);
    case _ =>
  }

  lemma {:induction false} RunIsFaithful(w: World, hs: seq<Happening>, rotateBytes: nat, events: iset<Bytes>, f: nat)
    requires AllFaithful(w, f) && Possible(w, hs, rotateBytes, events)
    requires Spares(hs, f)
    ensures AllFaithful(Run(w, hs, rotateBytes, events), f)
    decreases |hs|
  {
    if hs != [] {
      StepIsFaithful(w, hs[0], rotateBytes, events, f);
      RunIsFaithful(Step(w, hs[0], rotateBytes, events), hs[1..], rotateBytes, events, f);
    }
  }

  // ---- the runs of a follower ----

  /** What was delivered through a cursor, in terms of what its file holds now. */
  predicate Delivers(m: Mark, w: World, events: iset<Bytes>) {
    && Faithful(m, w.files)
    && var all := EventsIn(Lines(w.files[m.ino][m.start..m.start + |m.seen|]), events);
    && LogOf(w.log, m.id) <= all
    && (!w.closed ==> LogOf(w.log, m.id) == all)
  }

  lemma SoundDelivers(m: Mark, w: World, events: iset<Bytes>)
    requires Faithful(m, w.files) && Kept(m, w.log, w.closed, events)
    ensures Delivers(m, w, events)
  {
    var all := EventsIn(Lines(m.seen), events);
    assert [] + all == all;
  }

  /**
   Over every run: through each cursor whose file is not truncated, exactly the events of the complete lines that its file holds
   between where the cursor began and how far it has read were delivered, in order and once each; a follower that was closed delivered a beginning of them.
   */
  lemma EveryRunDelivers(files: map<nat, Bytes>, ino: nat, hs: seq<Happening>, rotateBytes: nat, events: iset<Bytes>, m: Mark)
    requires ino in files && Possible(Begin(files, ino), hs, rotateBytes, events)
    requires m in Marks(Run(Begin(files, ino), hs, rotateBytes, events)) && Spares(hs, m.ino)
    ensures Delivers(m, Run(Begin(files, ino), hs, rotateBytes, events), events)
    ensures if m.id == 0 then m.start == |files[ino]| && m.ino == ino else m.start == 0
    ensures Run(Begin(files, ino), hs, rotateBytes, events).deaths <= 1
  {
    KeptAfter(files, ino, hs, rotateBytes, events, m);
    FaithfulAfter(files, ino, hs, rotateBytes, events, m);
    SoundDelivers(m, Run(Begin(files, ino), hs, rotateBytes, events), events);
  }

  lemma KeptAfter(files: map<nat, Bytes>, ino: nat, hs: seq<Happening>, rotateBytes: nat, events: iset<Bytes>, m: Mark)
    requires ino in files && Possible(Begin(files, ino), hs, rotateBytes, events)
    requires m in Marks(Run(Begin(files, ino), hs, rotateBytes, events))
    ensures var w := Run(Begin(files, ino), hs, rotateBytes, events);
            Kept(m, w.log, w.closed, events) && w.deaths <= 1
  {
    BeginIsSound(files, ino, events);
    RunIsSound(Begin(files, ino), hs, rotateBytes, events);
  }

  lemma BeginIsFaithful(files: map<nat, Bytes>, ino: nat)
    requires ino in files
    ensures forall f :: AllFaithful(Begin(files, ino), f)
    ensures Marks(Begin(files, ino)) == [Mark(0, ino, [], |files[ino]|, [])]
  {
    assert Marks(Begin(files, ino)) == [Mark(0, ino, [], |files[ino]|, [])];
    assert Faithful(Mark(0, ino, [], |files[ino]|, []), files);
  }

  lemma FaithfulAfter(files: map<nat, Bytes>, ino: nat, hs: seq<Happening>, rotateBytes: nat, events: iset<Bytes>, m: Mark)
    requires ino in files && Possible(Begin(files, ino), hs, rotateBytes, events)
    requires m in Marks(Run(Begin(files, ino), hs, rotateBytes, events)) && Spares(hs, m.ino)
    ensures Faithful(m, Run(Begin(files, ino), hs, rotateBytes, events).files)
    ensures if m.id == 0 then m.start == |files[ino]| && m.ino == ino else m.start == 0
  {
    var w := Begin(files, ino);
    BeginIsFaithful(files, ino);
    RunIsFaithful(w, hs, rotateBytes, events, m.ino);
    RunKeepsStarts(w, hs, rotateBytes, events, m.ino, ino, |files[ino]|);
  }

  predicate Starts(w: World, f: nat, ino: nat, start: nat) {
    w.count > 0 && forall m :: m in Marks(w) && m.ino == f ==> if m.id == 0 then m.start == start && m.ino == ino else m.start == 0
  }

  lemma StepKeepsStarts(w: World, h: Happening, rotateBytes: nat, events: iset<Bytes>, f: nat, ino: nat, start: nat)
    requires AllFaithful(w, f) && Enabled(w, h, rotateBytes) && (h.Truncate? ==> h.ino != f)
    requires Starts(w, f, ino, start)
    ensures Starts(Step(w, h, rotateBytes, events), f, ino, start)
  {
    var after := Step(w, h, rotateBytes, events);
    forall m | m in Marks(after) && m.ino == f
      ensures if m.id == 0 then m.start == start && m.ino == ino else m.start == 0
    {
      if m !in Marks(w) {
        assert w.cur in Marks(w);
        if h.GraceEnds? {
          assert w.grace.value in Held(w);
          assert w.grace.value in Marks(w);
        }
      }
    }
  }

  lemma {:induction false} RunKeepsStarts(w: World, hs: seq<Happening>, rotateBytes: nat, events: iset<Bytes>, f: nat, ino: nat, start: nat)
    requires AllFaithful(w, f) && Possible(w, hs, rotateBytes, events)
    requires Spares(hs, f)
    requires Starts(w, f, ino, start)
    ensures Starts(Run(w, hs, rotateBytes, events), f, ino, start)
    decreases |hs|
  {
    if hs != [] {
      StepIsFaithful(w, hs[0], rotateBytes, events, f);
      StepKeepsStarts(w, hs[0], rotateBytes, events, f, ino, start);
      RunKeepsStarts(Step(w, hs[0], rotateBytes, events), hs[1..], rotateBytes, events, f, ino, start);
    }
  }

  /** A read leaves nothing of its file unread. */
  lemma ReadsToTheEnd(w: World, patience: Option<nat>, rotateBytes: nat, events: iset<Bytes>)
    requires AllFaithful(w, w.cur.ino) && Enabled(w, Read(patience), rotateBytes)
    ensures var after := Step(w, Read(patience), rotateBytes, events);
            ReadUp(after.cur, after.files)
  {
    assert w.cur in Marks(w);
    FaithfulRead(w.cur, w.files, events);
  }

  // ---- the grace ----

  /** Nothing more is delivered through a cursor that has been let go of. */
  lemma {:induction false} PastIsSilent(w: World, hs: seq<Happening>, rotateBytes: nat, events: iset<Bytes>, m: Mark)
    requires Sound(w, events) && Possible(w, hs, rotateBytes, events) && m in w.past
    ensures LogOf(Run(w, hs, rotateBytes, events).log, m.id) == LogOf(w.log, m.id)
    decreases |hs|
  {
    if hs != [] {
      StepIsSound(w, hs[0], rotateBytes, events);
      StepPassesBy(w, hs[0], rotateBytes, events, m);
      PastIsSilent(Step(w, hs[0], rotateBytes, events), hs[1..], rotateBytes, events, m);
    }
  }

  lemma PastIsAnother(w: World, m: Mark)
    requires DistinctIds(Marks(w), w.count) && m in w.past
    ensures m.id != w.cur.id && (w.grace.Some? ==> m.id != w.grace.value.id)
  {
    var k :| 0 <= k < |w.past| && w.past[k] == m;
    var ms := Marks(w);
    assert ms[k] == m && ms[|ms| - 1] == w.cur;
    assert w.grace.Some? ==> ms[|w.past|] == w.grace.value;
  }

  lemma StepPassesBy(w: World, h: Happening, rotateBytes: nat, events: iset<Bytes>, m: Mark)
    requires DistinctIds(Marks(w), w.count) && Enabled(w, h, rotateBytes) && m in w.past
    ensures var after := Step(w, h, rotateBytes, events);
            m in after.past && LogOf(after.log, m.id) == LogOf(w.log, m.id)
  {
    PastIsAnother(w, m);
    match h
    case Read(patience) =>
      LogOfTag(w.log, w.cur.id, Given(Fresh(w.cur, w.files[w.cur.ino], events), patience), m.id);
    case GraceEnds(patience) =>
      var last := w.grace.value;
      LogOfTag(w.log, last.id, Given(Fresh(last, w.files[last.ino], events), patience), m.id);
    case _ =>
  }

  /** The end of a grace, and everything its file held then has been delivered. */
  lemma GraceEndDelivers(w: World, patience: Option<nat>, rotateBytes: nat, events: iset<Bytes>)
    requires Sound(w, events) && Enabled(w, GraceEnds(patience), rotateBytes) && AllFaithful(w, w.grace.value.ino)
    requires !Step(w, GraceEnds(patience), rotateBytes, events).closed
    ensures var m, after := w.grace.value, Step(w, GraceEnds(patience), rotateBytes, events);
            && m.start <= |w.files[m.ino]| && ReadTo(m, w.files[m.ino], events) in after.past
            && LogOf(after.log, m.id) == EventsIn(Lines(w.files[m.ino][m.start..]), events)
  {
    var m, after := w.grace.value, Step(w, GraceEnds(patience), rotateBytes, events);
    assert m in Held(w);
    assert m in Marks(w);
    var read := ReadTo(m, w.files[m.ino], events);
    FaithfulRead(m, w.files, events);
    StepIsSound(w, GraceEnds(patience), rotateBytes, events);
    assert read in after.past;
    assert read in Marks(after);
    assert read.seen == w.files[m.ino][m.start..];
    assert [] + EventsIn(Lines(read.seen), events) == EventsIn(Lines(read.seen), events);
  }

  /**
   Over every run, whatever is appended in the middle of a rotation or after it: once a grace has ended with the follower still open, and its file was not
   truncated until then, what has been delivered through the old cursor, then and for good, is every event of the complete lines that its file held at that time,
   from where the cursor began.
   */
  lemma GraceIsDelivered(files: map<nat, Bytes>, ino: nat, before: seq<Happening>, patience: Option<nat>, rest: seq<Happening>,
                         rotateBytes: nat, events: iset<Bytes>)
    requires ino in files && Possible(Begin(files, ino), before, rotateBytes, events)
    requires Enabled(Run(Begin(files, ino), before, rotateBytes, events), GraceEnds(patience), rotateBytes)
    requires Spares(before, Run(Begin(files, ino), before, rotateBytes, events).grace.value.ino)
    requires var ended := Step(Run(Begin(files, ino), before, rotateBytes, events), GraceEnds(patience), rotateBytes, events);
             !ended.closed && Possible(ended, rest, rotateBytes, events)
    ensures var w := Run(Begin(files, ino), before, rotateBytes, events);
            var m := w.grace.value;
            && (if m.id == 0 then m.start == |files[ino]| && m.ino == ino else m.start == 0)
            && m.start <= |w.files[m.ino]|
            && LogOf(Run(Step(w, GraceEnds(patience), rotateBytes, events), rest, rotateBytes, events).log, m.id)
               == EventsIn(Lines(w.files[m.ino][m.start..]), events)
  {
    var b := Begin(files, ino);
    var w := Run(b, before, rotateBytes, events);
    var m := w.grace.value;
    BeginIsSound(files, ino, events);
    RunIsSound(b, before, rotateBytes, events);
    BeginIsFaithful(files, ino);
    RunIsFaithful(b, before, rotateBytes, events, m.ino);
    assert m in Held(w);
    assert m in Marks(w);
    FaithfulAfter(files, ino, before, rotateBytes, events, m);
    GraceEndDelivers(w, patience, rotateBytes, events);
    StepIsSound(w, GraceEnds(patience), rotateBytes, events);
    PastIsSilent(Step(w, GraceEnds(patience), rotateBytes, events), rest, rotateBytes, events, ReadTo(m, w.files[m.ino], events));
  }

  /** Nothing is delivered after a close, and nothing the follower does can come any more. */
  lemma {:induction false} ClosedIsSilent(w: World, hs: seq<Happening>, rotateBytes: nat, events: iset<Bytes>)
    requires w.closed && Possible(w, hs, rotateBytes, events)
    ensures var after := Run(w, hs, rotateBytes, events);
            after.closed && after.log == w.log && after.deaths == w.deaths && after.grace == w.grace && after.cur == w.cur
    decreases |hs|
  {
    if hs != [] {
      ClosedIsSilent(Step(w, hs[0], rotateBytes, events), hs[1..], rotateBytes, events);
    }
  }
}
