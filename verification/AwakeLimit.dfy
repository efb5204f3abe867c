/** The limit of one headless turn, which counts the time the machine was awake: `tick` and `schedule` of `prompt`. */
module AwakeLimit {
  import opened Common

  const AWAKE_TICK_MS: nat := 10000

  /** How long a turn may be awake, and when its caller is warned before that. */
  datatype Limits = Limits(timeoutMs: nat, warnAt: Option<nat>)

  function LimitsOf(timeoutMs: nat, warns: bool, warnBeforeMs: nat): (r: Limits)
    ensures r.warnAt.Some? ==> r.warnAt.value + warnBeforeMs == r.timeoutMs && r.warnAt.value > 0
  {
    Limits(timeoutMs, if warns && timeoutMs > warnBeforeMs then Some(timeoutMs - warnBeforeMs) else None)
  }

  datatype Awake = Awake(
    startedAt: int, lastTick: int, awakeMs: nat, warned: bool, timedOut: bool,
    /** When the pending tick is due. */
    due: Option<int>,
    /** The counted time at each warning given. */
    warnings: seq<nat>)

  /** A tick that comes: what the clock says then, and whether the turn is still without a result. */
  datatype Wake = Wake(now: int, running: bool)

  function Min(a: int, b: int): int {
    if a < b then a else b
  }

  /** How long until the next tick: never past the warning or the limit. */
  function Delay(l: Limits, awakeMs: nat, warned: bool): int {
    var next := Min(AWAKE_TICK_MS, l.timeoutMs - awakeMs);
    if l.warnAt.Some? && !warned && l.warnAt.value > awakeMs then Min(next, l.warnAt.value - awakeMs) else next
  }

  function Scheduled(l: Limits, a: Awake): Awake {
    a.(due := Some(a.lastTick + Delay(l, a.awakeMs, a.warned)))
  }

  function Begun(l: Limits, now: int): Awake {
    Scheduled(l, Awake(now, now, 0, false, false, None, []))
  }

  /** The time between two ticks that counts: a longer gap is the machine asleep. */
  function Counted(lastTick: int, now: int): (r: nat)
    ensures r <= 2 * AWAKE_TICK_MS
    ensures now >= lastTick ==> r <= now - lastTick
  {
    if now < lastTick then 0 else Min(now - lastTick, 2 * AWAKE_TICK_MS)
  }

  function Ticked(l: Limits, a: Awake, t: Wake): Awake {
    var counted := a.(lastTick := t.now, awakeMs := a.awakeMs + Counted(a.lastTick, t.now), due := None);
    if counted.awakeMs >= l.timeoutMs then counted.(timedOut := true)
    else if l.warnAt.Some? && !a.warned && counted.awakeMs >= l.warnAt.value && t.running
    then Scheduled(l, counted.(warned := true, warnings := a.warnings + [counted.awakeMs]))
    else Scheduled(l, counted)
  }

  /** A tick comes only while one is pending. */
  predicate Possible(l: Limits, a: Awake, ticks: seq<Wake>)
    decreases |ticks|
  {
    ticks != [] ==> a.due.Some? && Possible(l, Ticked(l, a, ticks[0]), ticks[1..])
  }

  function Run(l: Limits, a: Awake, ticks: seq<Wake>): Awake
    decreases |ticks|
  {
    if ticks == [] then a else Run(l, Ticked(l, a, ticks[0]), ticks[1..])
  }

  // ---- on any clock ----

  /** The kill comes only at the limit of counted time, and the one warning before it. */
  predicate Kept(l: Limits, a: Awake) {
    && (a.timedOut ==> a.due.None? && l.timeoutMs <= a.awakeMs)
    && (!a.timedOut ==> a.awakeMs < l.timeoutMs || a.awakeMs == 0)
    && a.awakeMs <= l.timeoutMs + 2 * AWAKE_TICK_MS
    && a.warned == (a.warnings != []) && |a.warnings| <= 1
    && (a.warned ==> l.warnAt.Some? && l.warnAt.value <= a.warnings[0] < l.timeoutMs)
  }

  lemma {:induction false} EveryRunKeeps(l: Limits, a: Awake, ticks: seq<Wake>)
    requires Kept(l, a) && Possible(l, a, ticks)
    ensures Kept(l, Run(l, a, ticks))
    decreases |ticks|
  {
    if ticks != [] {
      EveryRunKeeps(l, Ticked(l, a, ticks[0]), ticks[1..]);
    }
  }

  /** Over every run of ticks, whatever the clock says: killed exactly when the counted time has reached the limit, with no warning at or after it. */
  lemma KilledAtTheLimit(l: Limits, now: int, ticks: seq<Wake>)
    requires ticks != [] && Possible(l, Begun(l, now), ticks)
    ensures var a := Run(l, Begun(l, now), ticks);
            && (a.timedOut <==> a.awakeMs >= l.timeoutMs)
            && |a.warnings| <= 1 && (a.warnings != [] ==> l.warnAt.Some? && l.warnAt.value <= a.warnings[0] < l.timeoutMs)
            && (a.timedOut <==> a.due.None?)
  {
    EveryRunKeeps(l, Begun(l, now), ticks);
    NeverIdle(l, Begun(l, now), ticks);
  }

  /** A tick is pending until the kill. */
  lemma {:induction false} NeverIdle(l: Limits, a: Awake, ticks: seq<Wake>)
    requires Possible(l, a, ticks) && (a.timedOut <==> a.due.None?)
    ensures var b := Run(l, a, ticks);
            && (b.timedOut <==> b.due.None?)
            && (ticks != [] && !b.timedOut ==> b.awakeMs < l.timeoutMs)
    decreases |ticks|
  {
    if ticks != [] {
      NeverIdle(l, Ticked(l, a, ticks[0]), ticks[1..]);
    }
  }

  // ---- counted time and the clock ----

  /** How far the clock went back between the ticks, all in all. */
  function Back(from: int, ticks: seq<Wake>): nat
    decreases |ticks|
  {
    if ticks == [] then 0
    else (if ticks[0].now < from then from - ticks[0].now else 0) + Back(ticks[0].now, ticks[1..])
  }

  /** What the gaps exceed two tick lengths by, all in all. */
  function Asleep(from: int, ticks: seq<Wake>): nat
    decreases |ticks|
  {
    if ticks == [] then 0
    else
      var gap := ticks[0].now - from;
      (if gap > 2 * AWAKE_TICK_MS then gap - 2 * AWAKE_TICK_MS else 0) + Asleep(ticks[0].now, ticks[1..])
  }

  /** On any clock: the counted time is the time that passed on it, and what it was set back by, less what was slept. */
  lemma {:induction false} TimeIsAccountedFor(l: Limits, a: Awake, ticks: seq<Wake>)
    ensures var b := Run(l, a, ticks);
            b.awakeMs - a.awakeMs == b.lastTick - a.lastTick + Back(a.lastTick, ticks) - Asleep(a.lastTick, ticks)
    decreases |ticks|
  {
    if ticks != [] {
      TimeIsAccountedFor(l, Ticked(l, a, ticks[0]), ticks[1..]);
    }
  }

  /** So counted awake time exceeds the wall time exactly when the clock was set back by more than was slept. */
  lemma CountedIsAtMostTheWall(l: Limits, a: Awake, ticks: seq<Wake>)
    ensures var b := Run(l, a, ticks);
            b.awakeMs - a.awakeMs <= b.lastTick - a.lastTick <==> Back(a.lastTick, ticks) <= Asleep(a.lastTick, ticks)
  {
    TimeIsAccountedFor(l, a, ticks);
  }

  predicate Monotone(from: int, ticks: seq<Wake>)
    decreases |ticks|
  {
    ticks != [] ==> from <= ticks[0].now && Monotone(ticks[0].now, ticks[1..])
  }

  predicate NoSleep(from: int, ticks: seq<Wake>)
    decreases |ticks|
  {
    ticks != [] ==> ticks[0].now - from <= 2 * AWAKE_TICK_MS && NoSleep(ticks[0].now, ticks[1..])
  }

  /** A clock is never set back exactly when it is monotone, and nothing is slept exactly when no two ticks are more than two tick lengths apart. */
  lemma {:induction false} NeverBack(from: int, ticks: seq<Wake>)
    ensures Back(from, ticks) == 0 <==> Monotone(from, ticks)
    ensures Asleep(from, ticks) == 0 <==> NoSleep(from, ticks)
    decreases |ticks|
  {
    if ticks != [] {
      NeverBack(ticks[0].now, ticks[1..]);
    }
  }

  /** On a monotone clock it never does, and the two are the same exactly when nothing was slept. */
  lemma MonotoneCountsAtMostTheWall(l: Limits, a: Awake, ticks: seq<Wake>)
    requires Monotone(a.lastTick, ticks)
    ensures var b := Run(l, a, ticks);
            && b.awakeMs - a.awakeMs <= b.lastTick - a.lastTick
            && (b.awakeMs - a.awakeMs == b.lastTick - a.lastTick <==> NoSleep(a.lastTick, ticks))
  {
    TimeIsAccountedFor(l, a, ticks);
    NeverBack(a.lastTick, ticks);
  }

  /** The machine asleep for however long counts for at most two tick lengths. */
  lemma {:induction false} SleepCountsTwoTicks(l: Limits, a: Awake, ticks: seq<Wake>)
    ensures Run(l, a, ticks).awakeMs <= a.awakeMs + |ticks| * (2 * AWAKE_TICK_MS)
    decreases |ticks|
  {
    if ticks != [] {
      SleepCountsTwoTicks(l, Ticked(l, a, ticks[0]), ticks[1..]);
    }
  }

  /** A clock that is set back: ten seconds of it are counted twice. */
  lemma SetBackCountsTwice()
    ensures var l := Limits(60000, None);
            var b := Run(l, Begun(l, 0), [Wake(10000, true), Wake(0, true), Wake(10000, true)]);
            b.awakeMs == 20000 && b.lastTick - b.startedAt == 10000
  {
    var l := Limits(60000, None);
    var t0, t1, t2 := Wake(10000, true), Wake(0, true), Wake(10000, true);
    assert [t0, t1, t2][1..] == [t1, t2] && [t1, t2][1..] == [t2] && [t2][1..] == [];
  }

  // ---- on a clock that does not sleep ----

  /** Every tick comes when it is due. */
  predicate OnTime(l: Limits, a: Awake, ticks: seq<Wake>)
    decreases |ticks|
  {
    ticks != [] ==> a.due == Some(ticks[0].now) && OnTime(l, Ticked(l, a, ticks[0]), ticks[1..])
  }

  predicate AllRunning(ticks: seq<Wake>) {
    forall k :: 0 <= k < |ticks| ==> ticks[k].running
  }

  /** A turn that has a result, or has ended, does not run again. */
  predicate Settles(ticks: seq<Wake>) {
    forall j, k :: 0 <= j < k < |ticks| && ticks[k].running ==> ticks[j].running
  }

  /** The warning has been passed by: there is no telling it later. */
  predicate TooLate(l: Limits, a: Awake, ticks: seq<Wake>) {
    l.warnAt.Some? && l.warnAt.value <= a.awakeMs && !a.warned ==> forall k :: 0 <= k < |ticks| ==> !ticks[k].running
  }

  predicate Exact(l: Limits, a: Awake) {
    && a.awakeMs == a.lastTick - a.startedAt && a.awakeMs <= l.timeoutMs
    && (a.timedOut ==> a.awakeMs == l.timeoutMs && a.due.None?)
    && (a.warned ==> l.warnAt.Some? && a.warnings == [l.warnAt.value] && l.warnAt.value <= a.awakeMs)
    && (!a.warned ==> a.warnings == [])
    && (!a.timedOut ==> a.due == Some(a.lastTick + Delay(l, a.awakeMs, a.warned)))
  }

  predicate WarnedInTime(l: Limits, a: Awake) {
    l.warnAt.Some? && l.warnAt.value <= a.awakeMs && !a.timedOut ==> a.warned
  }

  lemma OnTimeTick(l: Limits, a: Awake, t: Wake)
    requires Exact(l, a) && a.due == Some(t.now)
    requires l.warnAt.Some? && l.warnAt.value <= a.awakeMs && !a.warned ==> !t.running
    ensures Exact(l, Ticked(l, a, t)) && Ticked(l, a, t).startedAt == a.startedAt
    ensures t.running && WarnedInTime(l, a) ==> WarnedInTime(l, Ticked(l, a, t))
    ensures !t.running || WarnedInTime(l, Ticked(l, a, t))
  {
  }

  lemma {:induction false} OnTimeIsExact(l: Limits, a: Awake, ticks: seq<Wake>)
    requires Exact(l, a) && OnTime(l, a, ticks) && Settles(ticks) && TooLate(l, a, ticks)
    ensures Exact(l, Run(l, a, ticks)) && Run(l, a, ticks).startedAt == a.startedAt
    ensures AllRunning(ticks) && WarnedInTime(l, a) ==> WarnedInTime(l, Run(l, a, ticks))
    decreases |ticks|
  {
    if ticks != [] {
      OnTimeTick(l, a, ticks[0]);
      assert AllRunning(ticks) ==> AllRunning(ticks[1..]) && ticks[0].running;
      assert ticks[0].running || forall k :: 0 <= k < |ticks[1..]| ==> !ticks[1..][k].running;
      OnTimeIsExact(l, Ticked(l, a, ticks[0]), ticks[1..]);
    }
  }

  /** Ticks that come on time until the kill. */
  function Awaited(l: Limits, a: Awake): (ticks: seq<Wake>)
    requires Exact(l, a) && WarnedInTime(l, a)
    ensures OnTime(l, a, ticks) && AllRunning(ticks)
    ensures Run(l, a, ticks).timedOut
    decreases if a.timedOut then 0 else 1, l.timeoutMs - a.awakeMs
  {
    if a.timedOut then [] else
      var t := Wake(a.due.value, true);
      OnTimeTick(l, a, t);
      var rest := Awaited(l, Ticked(l, a, t));
      assert ([t] + rest)[1..] == rest;
      [t] + rest
  }

  /** On a clock that does not sleep the kill lands on its millisecond, and so does the warning of a turn that has no result by then. */
  lemma BothLandOnTheirMillisecond(l: Limits, now: int, ticks: seq<Wake>)
    requires OnTime(l, Begun(l, now), ticks) && Settles(ticks)
    requires l.warnAt.Some? ==> l.warnAt.value > 0
    ensures var a := Run(l, Begun(l, now), ticks);
            && (a.timedOut ==> a.lastTick == now + l.timeoutMs)
            && a.lastTick <= now + l.timeoutMs
            && (forall w :: w in a.warnings ==> l.warnAt == Some(w))
            && (AllRunning(ticks) && l.warnAt.Some? && a.lastTick >= now + l.warnAt.value && !a.timedOut ==> a.warnings == [l.warnAt.value])
  {
    OnTimeIsExact(l, Begun(l, now), ticks);
  }

  /** It does come: after the ticks up to it the turn has been killed. */
  lemma TheKillComes(l: Limits, now: int)
    requires l.warnAt.Some? ==> l.warnAt.value > 0
    ensures exists ticks :: OnTime(l, Begun(l, now), ticks) && Run(l, Begun(l, now), ticks).timedOut
  {
    var ticks := Awaited(l, Begun(l, now));
  }

  /** The closures of one turn. */
  class Limiter {
    const limits: Limits
    const startedAt: int
    var lastTick: int
    var awakeMs: nat
    var warned: bool
    var timedOut: bool
    var due: Option<int>
    var warnings: seq<nat>

    ghost function View(): Awake
      reads this
    {
      Awake(startedAt, lastTick, awakeMs, warned, timedOut, due, warnings)
    }

    constructor (timeoutMs: nat, warns: bool, warnBeforeMs: nat, now: int)
      ensures limits == LimitsOf(timeoutMs, warns, warnBeforeMs)
      ensures View() == Begun(limits, now)
    {
      limits := LimitsOf(timeoutMs, warns, warnBeforeMs);
      startedAt, lastTick := now, now;
      awakeMs, warned, timedOut, due, warnings := 0, false, false, None, [];
      new;
      Schedule();
    }

    method Schedule()
      modifies this`due
      ensures View() == Scheduled(limits, old(View()))
    {
      var delay := AWAKE_TICK_MS as int;
      if limits.timeoutMs - awakeMs < delay {
        delay := limits.timeoutMs - awakeMs;
      }
      if limits.warnAt.Some? && !warned && limits.warnAt.value > awakeMs && limits.warnAt.value - awakeMs < delay {
        delay := limits.warnAt.value - awakeMs;
      }
      due := Some(lastTick + delay);
    }

    /** The pending tick comes. */
    method Tick(now: int, running: bool)
      modifies this
      ensures View() == Ticked(limits, old(View()), Wake(now, running))
    {
      var gap := if now < lastTick then 0 else now - lastTick;
      var counted := if gap < 2 * AWAKE_TICK_MS then gap else 2 * AWAKE_TICK_MS;
      lastTick, awakeMs, due := now, awakeMs + counted, None;
      if awakeMs >= limits.timeoutMs {
        timedOut := true;
        return;
      }
      if limits.warnAt.Some? && !warned && awakeMs >= limits.warnAt.value && running {
        warned := true;
        warnings := warnings + [awakeMs];
      }
      Schedule();
    }

    /** A result, or the end of the turn, takes the pending tick away. */
    method Cancel()
      modifies this`due
      ensures View() == old(View()).(due := None)
    {
      due := None;
    }
  }
}
