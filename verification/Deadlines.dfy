/**
 The prompt-cache scheduler: keys that wait for a moment of the wall clock, and one timer that counts only the time the machine is awake.
 A callback may arm, cancel, sweep and close, so a walk over the keys that are due can be interrupted by another.
 */
module Deadlines {
  import opened Common

  const MAX_SLEEP_MS: nat := 300000

  datatype Moment = Moment(wall: int, awake: int)

  /** One arming of a key: when it was armed, and when it was first past its time; no two have the same serial. */
  datatype Entry = Entry(idleSince: int, dueAt: int, armedAt: int, serial: nat, late: Option<Moment>)

  /** What is left of the keys that were due when the walk began. */
  datatype Walk = Walk(now: int, left: seq<(nat, Entry)>)

  datatype Firing = Firing(key: nat, entry: Entry, wall: int, awake: int)

  datatype State = State(
    wall: int, awake: int, waiting: map<nat, Entry>,
    /** When the one timer fires, in awake time. */
    timer: Option<int>,
    closed: bool, next: nat, walks: seq<Walk>, fired: seq<Firing>)

  datatype Step =
    | Arm(key: nat, idleSince: int, dueAt: int)
    | Cancel(key: nat)
    | Sweep(order: seq<nat>)
    | TimerFires(order: seq<nat>)
    | Next
    | Close
    | Pass
    | Sleep(ms: nat)

  function Dues(waiting: map<nat, Entry>): set<int> {
    set k | k in waiting :: waiting[k].dueAt
  }

  predicate Least(d: int, dues: set<int>) {
    d in dues && forall e :: e in dues ==> d <= e
  }

  lemma {:induction false} HasLeast(dues: set<int>, x: int)
    requires x in dues
    ensures exists d :: Least(d, dues)
    decreases |dues|
  {
    var rest := dues - {x};
    assert forall e :: e in dues ==> e == x || e in rest;
    if y :| y in rest {
      HasLeast(rest, y);
      var d :| Least(d, rest);
      assert Least(if d < x then d else x, dues);
    } else {
      assert Least(x, dues);
    }
  }

  function Earliest(waiting: map<nat, Entry>): (due: int)
    requires waiting != map[]
    ensures forall k :: k in waiting ==> due <= waiting[k].dueAt
    ensures exists k :: k in waiting && waiting[k].dueAt == due
  {
    assert exists d :: Least(d, Dues(waiting)) by {
      var k :| k in waiting;
      HasLeast(Dues(waiting), waiting[k].dueAt);
    }
    var d :| Least(d, Dues(waiting));
    assert forall k :: k in waiting ==> waiting[k].dueAt in Dues(waiting);
    d
  }

  function Wait(due: int, wall: int): (r: nat)
    ensures r <= MAX_SLEEP_MS
  {
    var left := if due < wall then 0 else due - wall;
    if left < MAX_SLEEP_MS then left else MAX_SLEEP_MS
  }

  /** The one place a timer is set. */
  function Scheduled(s: State): State {
    s.(timer := if s.closed || s.waiting == map[] then None else Some(s.awake + Wait(Earliest(s.waiting), s.wall)))
  }

  /** The keys that are due, each once, in some order. */
  predicate Ready(s: State, order: seq<nat>) {
    && (forall i :: 0 <= i < |order| ==> order[i] in s.waiting && s.waiting[order[i]].dueAt <= s.wall)
    && (forall k :: k in s.waiting && s.waiting[k].dueAt <= s.wall ==> k in order)
    && (forall i, j :: 0 <= i < j < |order| ==> order[i] != order[j])
  }

  function Snapshot(waiting: map<nat, Entry>, order: seq<nat>): (r: seq<(nat, Entry)>)
    requires forall i :: 0 <= i < |order| ==> order[i] in waiting
    ensures |r| == |order|
    ensures forall i :: 0 <= i < |order| ==> r[i] == (order[i], waiting[order[i]])
  {
    if order == [] then [] else [(order[0], waiting[order[0]])] + Snapshot(waiting, order[1..])
  }

  /** Time passes only between the walks, and not past a timer that is due. */
  predicate Enabled(s: State, t: Step) {
    match t
    case Sweep(order) => Ready(s, order)
    case TimerFires(order) => s.walks == [] && s.timer.Some? && s.timer.value <= s.awake && Ready(s, order)
    case Next => s.walks != []
    case Pass => s.walks == [] && (s.timer.Some? ==> s.awake < s.timer.value)
    case Sleep(_) => s.walks == [] && (s.timer.Some? ==> s.awake < s.timer.value)
    case _ => true
  }

  function Marked(e: Entry, now: Moment): Entry {
    if e.dueAt <= now.wall && e.late.None? then e.(late := Some(now)) else e
  }

  /** The armings that are past their time now and were not before. */
  function Noticed(s: State): State {
    s.(waiting := map k | k in s.waiting :: Marked(s.waiting[k], Moment(s.wall, s.awake)))
  }

  function Woken(s: State, order: seq<nat>): State
    requires Ready(s, order)
  {
    if s.closed then s.(timer := None)
    else s.(timer := None, walks := s.walks + [Walk(s.wall, Snapshot(s.waiting, order))])
  }

  /** The next of a walk: one that is still waiting as it was fires. */
  function Walked(s: State): State
    requires s.walks != []
  {
    var n := |s.walks| - 1;
    var left := s.walks[n].left;
    if s.closed || left == [] then Scheduled(s.(walks := s.walks[..n]))
    else
      var on := s.(walks := s.walks[n := s.walks[n].(left := left[1..])]);
      var (key, entry) := left[0];
      if key in s.waiting && s.waiting[key].serial == entry.serial
      then on.(waiting := s.waiting - {key}, fired := s.fired + [Firing(key, s.waiting[key], s.wall, s.awake)])
      else on
  }

  function Armed(s: State, idleSince: int, dueAt: int): Entry {
    Marked(Entry(idleSince, dueAt, s.wall, s.next, None), Moment(s.wall, s.awake))
  }

  function After(s: State, t: Step): State
    requires Enabled(s, t)
  {
    match t
    case Arm(key, idleSince, dueAt) =>
      if s.closed then s
      else Scheduled(s.(waiting := s.waiting[key := Armed(s, idleSince, dueAt)], next := s.next + 1))
    case Cancel(key) => if key in s.waiting then Scheduled(s.(waiting := s.waiting - {key})) else s
    case Sweep(order) => Woken(s, order)
    case TimerFires(order) => Woken(s, order)
    case Next => Walked(s)
    case Close => s.(closed := true, waiting := map[], timer := None)
    case Pass => Noticed(s.(wall := s.wall + 1, awake := s.awake + 1))
    case Sleep(ms) => Noticed(s.(wall := s.wall + ms))
  }

  function Begin(wall: int, awake: int): State {
    State(wall, awake, map[], None, false, 0, [], [])
  }

  predicate Possible(s: State, ts: seq<Step>)
    decreases |ts|
  {
    ts != [] ==> Enabled(s, ts[0]) && Possible(After(s, ts[0]), ts[1..])
  }

  function Run(s: State, ts: seq<Step>): State
    requires Possible(s, ts)
    decreases |ts|
  {
    if ts == [] then s else Run(After(s, ts[0]), ts[1..])
  }

  // ---- what every step keeps ----

  /** Between the walks a timer is pending exactly when the scheduler is open and something waits. */
  predicate KeptTimer(s: State) {
    && (s.closed ==> s.waiting == map[] && s.timer.None?)
    && (s.walks == [] ==> (s.timer.Some? <==> !s.closed && s.waiting != map[]))
    && (s.timer.Some? && s.walks == [] ==> s.awake <= s.timer.value)
  }

  /** Each arming is waiting or has fired, never both, and never fired twice. */
  predicate KeptSerials(s: State) {
    && (forall k :: k in s.waiting ==> s.waiting[k].serial < s.next)
    && (forall j, k :: j in s.waiting && k in s.waiting && s.waiting[j].serial == s.waiting[k].serial ==> j == k)
    && (forall i :: 0 <= i < |s.fired| ==> s.fired[i].entry.serial < s.next)
    && (forall i, j :: 0 <= i < j < |s.fired| ==> s.fired[i].entry.serial != s.fired[j].entry.serial)
    && (forall i, k :: 0 <= i < |s.fired| && k in s.waiting ==> s.fired[i].entry.serial != s.waiting[k].serial)
  }

  /** An arming knows when it was first past its time, and is at most one sleep of the timer late, in awake time. */
  predicate Timely(e: Entry, now: Moment) {
    && (e.dueAt <= now.wall <==> e.late.Some?)
    && (e.late.Some? ==> e.dueAt <= e.late.value.wall && now.awake <= e.late.value.awake + MAX_SLEEP_MS)
  }

  predicate KeptWaiting(s: State) {
    forall k :: k in s.waiting ==> Timely(s.waiting[k], Moment(s.wall, s.awake))
  }

  /** The timer will not make it later. */
  predicate KeptBound(s: State) {
    s.walks == [] && s.timer.Some? ==>
      && s.timer.value <= s.awake + MAX_SLEEP_MS
      && forall k :: k in s.waiting && s.waiting[k].late.Some? ==> s.timer.value <= s.waiting[k].late.value.awake + MAX_SLEEP_MS
  }

  /** A walk's arming, if it is still waiting, is past its time. */
  predicate WalkHolds(s: State, left: seq<(nat, Entry)>) {
    forall i :: 0 <= i < |left| ==>
      left[i].1.serial < s.next && forall k :: k in s.waiting && s.waiting[k].serial == left[i].1.serial ==> s.waiting[k].dueAt <= s.wall
  }

  predicate KeptWalks(s: State) {
    forall w :: 0 <= w < |s.walks| ==> WalkHolds(s, s.walks[w].left)
  }

  predicate WellFired(f: Firing) {
    f.entry.dueAt <= f.wall && f.entry.late.Some? && f.awake <= f.entry.late.value.awake + MAX_SLEEP_MS
  }

  predicate KeptFired(s: State) {
    forall i :: 0 <= i < |s.fired| ==> WellFired(s.fired[i])
  }

  predicate Kept(s: State) {
    KeptTimer(s) && KeptSerials(s) && KeptWaiting(s) && KeptBound(s) && KeptWalks(s) && KeptFired(s)
  }

  /** Setting the timer anew settles it, whatever it was. */
  lemma ScheduledKeeps(s: State)
    requires KeptSerials(s) && KeptWaiting(s) && KeptWalks(s) && KeptFired(s) && (s.closed ==> s.waiting == map[])
    ensures Kept(Scheduled(s))
  {
    var t := Scheduled(s);
    if t.timer.Some? {
      forall k | k in s.waiting && s.waiting[k].late.Some?
        ensures t.timer.value == s.awake
      {
        assert Earliest(s.waiting) <= s.waiting[k].dueAt <= s.wall;
      }
    }
  }

  /** The walks hold what they held when nothing older has come to wait and the clock stands. */
  lemma WalksStay(s: State, t: State)
    requires KeptWalks(s) && t.wall == s.wall && s.next <= t.next
    requires |t.walks| <= |s.walks| && forall w :: 0 <= w < |t.walks| ==> t.walks[w].left == s.walks[w].left
    requires forall k :: k in t.waiting && t.waiting[k].serial < s.next ==>
               k in s.waiting && s.waiting[k].serial == t.waiting[k].serial && s.waiting[k].dueAt == t.waiting[k].dueAt
    ensures KeptWalks(t)
  {
    forall w | 0 <= w < |t.walks|
      ensures WalkHolds(t, t.walks[w].left)
    {
      assert WalkHolds(s, s.walks[w].left);
    }
  }

  lemma ArmKeepsSerials(s: State, key: nat, e: Entry)
    requires KeptSerials(s) && KeptWaiting(s) && e.serial == s.next && Timely(e, Moment(s.wall, s.awake))
    ensures var t := s.(waiting := s.waiting[key := e], next := s.next + 1); KeptSerials(t) && KeptWaiting(t)
  {
  }

  lemma ArmKeepsWalks(s: State, key: nat, e: Entry)
    requires KeptWalks(s) && e.serial == s.next
    ensures KeptWalks(s.(waiting := s.waiting[key := e], next := s.next + 1))
  {
    WalksStay(s, s.(waiting := s.waiting[key := e], next := s.next + 1));
  }

  lemma ArmKeeps(s: State, key: nat, idleSince: int, dueAt: int)
    requires Kept(s)
    ensures Kept(After(s, Arm(key, idleSince, dueAt)))
  {
    if !s.closed {
      var t := s.(waiting := s.waiting[key := Armed(s, idleSince, dueAt)], next := s.next + 1);
      ArmKeepsSerials(s, key, Armed(s, idleSince, dueAt));
      ArmKeepsWalks(s, key, Armed(s, idleSince, dueAt));
      ScheduledKeeps(t);
    }
  }

  lemma CancelKeeps(s: State, key: nat)
    requires Kept(s)
    ensures Kept(After(s, Cancel(key)))
  {
    if key in s.waiting {
      var t := s.(waiting := s.waiting - {key});
      WalksStay(s, t);
      ScheduledKeeps(t);
    }
  }

  lemma WakeKeeps(s: State, order: seq<nat>)
    requires Kept(s) && Ready(s, order)
    ensures Kept(Woken(s, order))
  {
    if !s.closed {
      var t := Woken(s, order);
      var left := Snapshot(s.waiting, order);
      forall i, k | 0 <= i < |left| && k in s.waiting && s.waiting[k].serial == left[i].1.serial
        ensures s.waiting[k].dueAt <= s.wall
      {
        assert k == order[i];
      }
      assert WalkHolds(t, left);
      forall w | 0 <= w < |t.walks|
        ensures WalkHolds(t, t.walks[w].left)
      {
        if w < |s.walks| {
          assert WalkHolds(s, s.walks[w].left);
        }
      }
    }
  }

  lemma EndOfWalkKeeps(s: State)
    requires Kept(s) && s.walks != [] && (s.closed || s.walks[|s.walks| - 1].left == [])
    ensures Kept(Walked(s))
  {
    var t := s.(walks := s.walks[..|s.walks| - 1]);
    WalksStay(s, t);
    ScheduledKeeps(t);
  }

  lemma WalkOnKeeps(s: State)
    requires Kept(s) && s.walks != [] && !s.closed && s.walks[|s.walks| - 1].left != []
    ensures Kept(Walked(s))
  {
    var n := |s.walks| - 1;
    var left := s.walks[n].left;
    var t := Walked(s);
    assert WalkHolds(s, left);
    forall w | 0 <= w < |t.walks|
      ensures WalkHolds(t, t.walks[w].left)
    {
      assert WalkHolds(s, s.walks[w].left);
      if w == n {
        assert forall i :: 0 <= i < |left[1..]| ==> left[1..][i] == left[i + 1];
      }
    }
    var (key, entry) := left[0];
    if key in s.waiting && s.waiting[key].serial == entry.serial {
      assert s.waiting[key].dueAt <= s.wall;
      assert Timely(s.waiting[key], Moment(s.wall, s.awake));
    }
  }

  lemma CloseKeeps(s: State)
    requires Kept(s)
    ensures Kept(After(s, Close))
  {
    WalksStay(s, After(s, Close));
  }

  lemma TimeKeeps(s: State, t: Step)
    requires Kept(s) && Enabled(s, t) && (t.Pass? || t.Sleep?)
    ensures Kept(After(s, t))
  {
    var after := After(s, t);
    forall k | k in after.waiting
      ensures Timely(after.waiting[k], Moment(after.wall, after.awake))
      ensures after.waiting[k].late.Some? ==> after.timer.value <= after.waiting[k].late.value.awake + MAX_SLEEP_MS
    {
      assert Timely(s.waiting[k], Moment(s.wall, s.awake));
      assert after.waiting[k] == Marked(s.waiting[k], Moment(after.wall, after.awake));
    }
    SameKeys(s.waiting, after.waiting);
    TimeKeepsSerials(s, after);
  }

  lemma SameKeys(a: map<nat, Entry>, b: map<nat, Entry>)
    requires forall k :: k in a <==> k in b
    ensures a == map[] <==> b == map[]
  {
    assert a == map[] <==> a.Keys == {};
    assert b == map[] <==> b.Keys == {};
    assert a.Keys == b.Keys;
  }

  /** What only waits on keeps its serials, and its walks hold what they held. */
  lemma TimeKeepsSerials(s: State, t: State)
    requires KeptSerials(s) && KeptFired(s) && t.next == s.next && t.fired == s.fired && t.walks == s.walks == []
    requires t.waiting.Keys == s.waiting.Keys && forall k :: k in s.waiting ==> t.waiting[k].serial == s.waiting[k].serial
    ensures KeptSerials(t) && KeptWalks(t) && KeptFired(t)
  {
  }

  lemma StepKeeps(s: State, t: Step)
    requires Kept(s) && Enabled(s, t)
    ensures Kept(After(s, t))
  {
    match t
    case Arm(key, idleSince, dueAt) => ArmKeeps(s, key, idleSince, dueAt);
    case Cancel(key) => CancelKeeps(s, key);
    case Sweep(order) => WakeKeeps(s, order);
    case TimerFires(order) => WakeKeeps(s, order);
    case Next =>
      if s.closed || s.walks[|s.walks| - 1].left == [] { EndOfWalkKeeps(s); } else { WalkOnKeeps(s); }
    case Close => CloseKeeps(s);
    case Pass => TimeKeeps(s, t);
    case Sleep(_) => TimeKeeps(s, t);
  }

  lemma {:induction false} RunKeeps(s: State, ts: seq<Step>)
    requires Kept(s) && Possible(s, ts)
    ensures Kept(Run(s, ts))
    decreases |ts|
  {
    if ts != [] {
      StepKeeps(s, ts[0]);
      RunKeeps(After(s, ts[0]), ts[1..]);
    }
  }

  /**
   In every run, callbacks that arm, cancel, sweep and close included: between the walks a timer is pending exactly when the scheduler is open
   and something waits; nothing fires before its time, or twice for one arming, or while it waits; what fires is at most five awake minutes late,
   and so is what still waits past its time.
   */
  lemma EveryRun(wall: int, awake: int, ts: seq<Step>)
    requires Possible(Begin(wall, awake), ts)
    ensures var s := Run(Begin(wall, awake), ts);
            && (s.walks == [] ==> (s.timer.Some? <==> !s.closed && s.waiting != map[]))
            && (forall i :: 0 <= i < |s.fired| ==> s.fired[i].entry.dueAt <= s.fired[i].wall)
            && (forall i, j :: 0 <= i < j < |s.fired| ==> s.fired[i].entry.serial != s.fired[j].entry.serial)
            && (forall i, k :: 0 <= i < |s.fired| && k in s.waiting ==> s.fired[i].entry.serial != s.waiting[k].serial)
            && (forall i :: 0 <= i < |s.fired| ==>
                  s.fired[i].entry.late.Some? && s.fired[i].awake <= s.fired[i].entry.late.value.awake + MAX_SLEEP_MS)
            && (forall k :: k in s.waiting && s.waiting[k].dueAt <= s.wall ==>
                  && s.waiting[k].late.Some? && s.waiting[k].dueAt <= s.waiting[k].late.value.wall
                  && s.awake <= s.waiting[k].late.value.awake + MAX_SLEEP_MS)
  {
    RunKeeps(Begin(wall, awake), ts);
    var s := Run(Begin(wall, awake), ts);
    assert forall i :: 0 <= i < |s.fired| ==> WellFired(s.fired[i]);
    assert forall k :: k in s.waiting ==> Timely(s.waiting[k], Moment(s.wall, s.awake));
  }

  /** After the close nothing fires and nothing is armed. */
  lemma {:induction false} ClosedIsSilent(s: State, ts: seq<Step>)
    requires s.closed && s.waiting == map[] && s.timer.None? && Possible(s, ts)
    ensures var t := Run(s, ts);
            t.closed && t.waiting == map[] && t.timer.None? && t.fired == s.fired
    decreases |ts|
  {
    if ts != [] {
      var t := After(s, ts[0]);
      assert t.waiting.Keys == {};
      ClosedIsSilent(t, ts[1..]);
    }
  }

  /** A walk ends: as many steps as it holds, and one. */
  ghost function Ends(s: State): (ts: seq<Step>)
    requires s.walks != []
    ensures Possible(s, ts) && |Run(s, ts).walks| == |s.walks| - 1
    decreases if s.closed then 0 else |s.walks[|s.walks| - 1].left|
  {
    var t := After(s, Next);
    if s.closed || s.walks[|s.walks| - 1].left == [] then
      assert [Next][1..] == [];
      [Next]
    else
      var rest := Ends(t);
      assert ([Next] + rest)[1..] == rest;
      [Next] + rest
  }

  // ---- a machine that does not sleep ----

  function Max(a: int, b: int): int {
    if a < b then b else a
  }

  predicate Exact(e: Entry, now: Moment) {
    && e.armedAt <= now.wall
    && (e.late.Some? ==> e.late.value == now && now.wall == Max(e.dueAt, e.armedAt))
  }

  predicate Punctual(s: State) {
    && (forall k :: k in s.waiting ==> Exact(s.waiting[k], Moment(s.wall, s.awake)))
    && (s.walks == [] && s.timer.Some? ==> forall k :: k in s.waiting ==> s.timer.value <= s.awake + Max(s.waiting[k].dueAt - s.wall, 0))
    && (forall i :: 0 <= i < |s.fired| ==> s.fired[i].wall == Max(s.fired[i].entry.dueAt, s.fired[i].entry.armedAt))
  }

  lemma ScheduledIsPunctual(s: State)
    requires Punctual(s.(timer := None))
    ensures Punctual(Scheduled(s))
  {
  }

  lemma StepIsPunctual(s: State, t: Step)
    requires Kept(s) && Punctual(s) && Enabled(s, t) && !t.Sleep?
    ensures Punctual(After(s, t))
  {
    match t
    case Arm(key, idleSince, dueAt) =>
      if !s.closed {
        ScheduledIsPunctual(s.(waiting := s.waiting[key := Armed(s, idleSince, dueAt)], next := s.next + 1));
      }
    case Cancel(key) =>
      if key in s.waiting {
        ScheduledIsPunctual(s.(waiting := s.waiting - {key}));
      }
    case Next =>
      var n := |s.walks| - 1;
      if s.closed || s.walks[n].left == [] {
        ScheduledIsPunctual(s.(walks := s.walks[..n]));
      } else {
        NextIsPunctual(s);
      }
    case Pass => PassIsPunctual(s);
    case _ =>
  }

  lemma NextIsPunctual(s: State)
    requires Kept(s) && Punctual(s) && s.walks != [] && !s.closed && s.walks[|s.walks| - 1].left != []
    ensures Punctual(Walked(s))
  {
    var left := s.walks[|s.walks| - 1].left;
    assert WalkHolds(s, left);
    var (key, entry) := left[0];
    if key in s.waiting && s.waiting[key].serial == entry.serial {
      assert s.waiting[key].dueAt <= s.wall;
      assert Timely(s.waiting[key], Moment(s.wall, s.awake));
      assert Exact(s.waiting[key], Moment(s.wall, s.awake));
    }
  }

  lemma PassIsPunctual(s: State)
    requires Kept(s) && Punctual(s) && Enabled(s, Pass)
    ensures Punctual(After(s, Pass))
  {
    var after := After(s, Pass);
    forall k | k in after.waiting
      ensures Exact(after.waiting[k], Moment(after.wall, after.awake))
      ensures s.wall < after.waiting[k].dueAt && after.waiting[k].dueAt == s.waiting[k].dueAt
    {
      assert k in s.waiting && s.timer.Some?;
      assert Exact(s.waiting[k], Moment(s.wall, s.awake));
      assert Timely(s.waiting[k], Moment(s.wall, s.awake));
    }
  }

  lemma {:induction false} RunIsPunctual(s: State, ts: seq<Step>)
    requires Kept(s) && Punctual(s) && Possible(s, ts)
    requires forall i :: 0 <= i < |ts| ==> !ts[i].Sleep?
    ensures Punctual(Run(s, ts))
    decreases |ts|
  {
    if ts != [] {
      StepKeeps(s, ts[0]);
      StepIsPunctual(s, ts[0]);
      RunIsPunctual(After(s, ts[0]), ts[1..]);
    }
  }

  /** On a machine that never sleeps every key fires on its millisecond, or when it was armed if that was later, and none waits past that millisecond. */
  lemma OnTime(wall: int, awake: int, ts: seq<Step>)
    requires Possible(Begin(wall, awake), ts) && forall i :: 0 <= i < |ts| ==> !ts[i].Sleep?
    ensures var s := Run(Begin(wall, awake), ts);
            && (forall i :: 0 <= i < |s.fired| ==> s.fired[i].wall == Max(s.fired[i].entry.dueAt, s.fired[i].entry.armedAt))
            && (forall k :: k in s.waiting ==> s.wall <= Max(s.waiting[k].dueAt, s.waiting[k].armedAt))
  {
    var s := Run(Begin(wall, awake), ts);
    RunKeeps(Begin(wall, awake), ts);
    RunIsPunctual(Begin(wall, awake), ts);
    forall k | k in s.waiting
      ensures s.wall <= Max(s.waiting[k].dueAt, s.waiting[k].armedAt)
    {
      assert Timely(s.waiting[k], Moment(s.wall, s.awake));
      assert Exact(s.waiting[k], Moment(s.wall, s.awake));
    }
  }
}
