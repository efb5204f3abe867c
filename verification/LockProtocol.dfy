/** The lock file of the notify service: any number of processes that take it, judge it, remove it, release it and die. */
module LockProtocol {
  import opened Common

  const LOCK_TRIES: nat := 3

  /** What the file says: the pid of its writer, and the start of that process when the writer knew it. */
  datatype Text = Junk(n: nat) | Names(pid: nat, started: Option<nat>)

  datatype Lock = Lock(text: Text, beforeBoot: bool)

  datatype Phase =
    | Idle
    | Trying(n: nat)
    | Reading(n: nat)
    | Judging(n: nat, seen: Lock)
    | Stale(n: nat, seen: Lock)
    | Holding
    | Refused(holder: nat)
    | GaveUp

  /** A process: when it was born, and whether it could find that out for its own lock. */
  datatype Proc = Proc(pid: nat, born: nat, knows: bool, alive: bool, phase: Phase)

  datatype State = State(procs: map<nat, Proc>, lock: Option<Lock>)

  function TextOf(p: Proc): Text {
    Names(p.pid, if p.knows then Some(p.born) else None)
  }

  datatype Step =
    | Start(p: nat, pid: nat, born: nat, knows: bool)
    | Take(p: nat)
    | Create(p: nat)
    | Read(p: nat)
    | Judge(p: nat, ps: Option<nat>)
    | Remove(p: nat)
    | Release(p: nat)
    | Crash(p: nat)
    | Reboot

  predicate Runs(s: State, p: nat) {
    p in s.procs && s.procs[p].alive
  }

  predicate IsAlive(s: State, pid: nat) {
    exists q :: q in s.procs && s.procs[q].alive && s.procs[q].pid == pid
  }

  /** What `ps` answers about a pid is true, when it answers. */
  predicate Truthful(s: State, pid: nat, ps: Option<nat>) {
    ps.Some? ==> exists q :: q in s.procs && s.procs[q].alive && s.procs[q].pid == pid && s.procs[q].born == ps.value
  }

  /** A new process has a pid that no live process has, and each does one thing after the other. */
  predicate Can(s: State, t: Step) {
    match t
    case Start(p, pid, _, _) => p !in s.procs && !IsAlive(s, pid)
    case Take(p) => Runs(s, p) && s.procs[p].phase.Idle?
    case Create(p) => Runs(s, p) && s.procs[p].phase.Trying?
    case Read(p) => Runs(s, p) && s.procs[p].phase.Reading?
    case Judge(p, ps) =>
      && Runs(s, p) && s.procs[p].phase.Judging?
      && (s.procs[p].phase.seen.text.Names? ==> Truthful(s, s.procs[p].phase.seen.text.pid, ps))
    case Remove(p) => Runs(s, p) && s.procs[p].phase.Stale?
    case Release(p) => Runs(s, p) && s.procs[p].phase.Holding?
    case Crash(p) => Runs(s, p)
    case Reboot => true
  }

  /** A live process has judged that text to be stale, or is judging it as one from before the boot. */
  predicate Condemns(p: Proc, text: Text) {
    && p.alive && (p.phase.Stale? || (p.phase.Judging? && p.phase.seen.beforeBoot)) && p.phase.seen.text == text
  }

  /** A lock from before the boot says that text, or a live process is about to remove a lock that says it. */
  predicate InUse(s: State, text: Text) {
    || (s.lock.Some? && s.lock.value.beforeBoot && s.lock.value.text == text)
    || exists p :: p in s.procs && Condemns(s.procs[p], text)
  }

  /** And a new process does not write a text that is still in use. */
  predicate Enabled(s: State, t: Step) {
    Can(s, t) && (t.Start? ==> !InUse(s, TextOf(Proc(t.pid, t.born, t.knows, true, Idle))))
  }

  /** `holds`: is the process that the lock names still the one that wrote it? */
  predicate Holds(s: State, self: Proc, seen: Lock, ps: Option<nat>) {
    && seen.text.Names? && seen.text.pid != self.pid && IsAlive(s, seen.text.pid)
    && if seen.text.started.Some? && ps.Some? then ps == seen.text.started else !seen.beforeBoot
  }

  function Again(n: nat): Phase {
    if n + 1 < LOCK_TRIES then Trying(n + 1) else GaveUp
  }

  function At(s: State, p: nat, phase: Phase): State
    requires p in s.procs
  {
    s.(procs := s.procs[p := s.procs[p].(phase := phase)])
  }

  function Killed(procs: map<nat, Proc>): map<nat, Proc> {
    map p | p in procs :: procs[p].(alive := false)
  }

  function Next(s: State, t: Step): State
    requires Can(s, t)
  {
    match t
    case Start(p, pid, born, knows) =>
      s.(procs := s.procs[p := Proc(pid, born, knows, true, Idle)])
    case Take(p) => At(s, p, Trying(0))
    case Create(p) =>
      if s.lock.None? then At(s, p, Holding).(lock := Some(Lock(TextOf(s.procs[p]), false)))
      else At(s, p, Reading(s.procs[p].phase.n))
    case Read(p) =>
      if s.lock.None? then At(s, p, Again(s.procs[p].phase.n)) else At(s, p, Judging(s.procs[p].phase.n, s.lock.value))
    case Judge(p, ps) =>
      var seen := s.procs[p].phase.seen;
      if Holds(s, s.procs[p], seen, ps) then At(s, p, Refused(seen.text.pid)) else At(s, p, Stale(s.procs[p].phase.n, seen))
    case Remove(p) =>
      var same := s.lock.Some? && s.lock.value.text == s.procs[p].phase.seen.text;
      At(s, p, Again(s.procs[p].phase.n)).(lock := if same then None else s.lock)
    case Release(p) =>
      var ours := s.lock.Some? && s.lock.value.text.Names? && s.lock.value.text.pid == s.procs[p].pid;
      At(s, p, Idle).(lock := if ours then None else s.lock)
    case Crash(p) => s.(procs := s.procs[p := s.procs[p].(alive := false)])
    case Reboot =>
      s.(procs := Killed(s.procs), lock := if s.lock.Some? then Some(s.lock.value.(beforeBoot := true)) else None)
  }

  predicate Possible(s: State, ts: seq<Step>)
    decreases |ts|
  {
    ts != [] ==> Enabled(s, ts[0]) && Possible(Next(s, ts[0]), ts[1..])
  }

  function Run(s: State, ts: seq<Step>): State
    requires Possible(s, ts)
    decreases |ts|
  {
    if ts == [] then s else Run(Next(s, ts[0]), ts[1..])
  }

  /** No process yet, and whatever lies at the path from before. */
  function Begin(lock: Option<Lock>): State {
    State(map[], lock)
  }

  // ---- what every step keeps ----

  predicate Holder(s: State, p: nat) {
    Runs(s, p) && s.procs[p].phase.Holding?
  }

  /** Nobody alive would write that text. */
  ghost predicate Dead(s: State, text: Text) {
    forall p :: p in s.procs && TextOf(s.procs[p]) == text ==> !s.procs[p].alive
  }

  /** Nobody else alive would: what a process finds under its own pid is left over from one that is gone. */
  ghost predicate DeadButFor(s: State, text: Text, q: nat) {
    forall p :: p in s.procs && p != q && TextOf(s.procs[p]) == text ==> !s.procs[p].alive
  }

  /** No two live processes have one pid, and so none have one text. */
  ghost predicate OwnTexts(s: State) {
    forall p, q :: Runs(s, p) && Runs(s, q) && s.procs[p].pid == s.procs[q].pid ==> p == q
  }

  /** The lock of a live process is there while it holds. */
  ghost predicate LockStands(s: State) {
    && (forall p :: Holder(s, p) ==> s.lock.Some? && s.lock.value.text == TextOf(s.procs[p]))
    && (s.lock.Some? && s.lock.value.beforeBoot ==> Dead(s, s.lock.value.text))
  }

  /** What a process has read or judged. */
  ghost predicate Knows(s: State, p: nat)
    requires p in s.procs
  {
    match s.procs[p].phase
    case Judging(_, seen) => seen.beforeBoot ==> Dead(s, seen.text)
    case Stale(_, seen) => DeadButFor(s, seen.text, p)
    case _ => true
  }

  ghost predicate Kept(s: State) {
    OwnTexts(s) && LockStands(s) && forall p :: Runs(s, p) ==> Knows(s, p)
  }

  /** The text of another live process is judged to be held. */
  lemma LiveIsHeld(s: State, p: nat, ps: Option<nat>, q: nat)
    requires Kept(s) && Enabled(s, Judge(p, ps))
    requires Runs(s, q) && q != p && TextOf(s.procs[q]) == s.procs[p].phase.seen.text
    ensures Holds(s, s.procs[p], s.procs[p].phase.seen, ps)
  {
    var seen := s.procs[p].phase.seen;
    assert Knows(s, p);
    assert Runs(s, p);
    assert IsAlive(s, seen.text.pid);
    assert s.procs[q].pid != s.procs[p].pid;
    if ps.Some? {
      var r :| r in s.procs && s.procs[r].alive && s.procs[r].pid == seen.text.pid && s.procs[r].born == ps.value;
      assert Runs(s, r);
    }
  }

  /** A text that is judged stale is nobody else's who is alive. */
  lemma StaleIsDead(s: State, p: nat, ps: Option<nat>)
    requires Kept(s) && Enabled(s, Judge(p, ps)) && !Holds(s, s.procs[p], s.procs[p].phase.seen, ps)
    ensures DeadButFor(s, s.procs[p].phase.seen.text, p)
  {
    forall q | q in s.procs && q != p && TextOf(s.procs[q]) == s.procs[p].phase.seen.text
      ensures !s.procs[q].alive
    {
      if s.procs[q].alive {
        LiveIsHeld(s, p, ps, q);
      }
    }
  }

  // ---- each kind of step ----

  /** The processes are those of before, with the same texts, and nobody came to life. */
  ghost predicate Later(s: State, t: State) {
    && t.procs.Keys == s.procs.Keys
    && (forall p :: p in s.procs ==>
          && t.procs[p].pid == s.procs[p].pid && TextOf(t.procs[p]) == TextOf(s.procs[p])
          && (t.procs[p].alive ==> s.procs[p].alive))
  }

  lemma DeadStays(s: State, t: State, text: Text)
    requires Later(s, t) && Dead(s, text)
    ensures Dead(t, text)
  {
  }

  lemma OwnTextsStay(s: State, t: State)
    requires Later(s, t) && OwnTexts(s)
    ensures OwnTexts(t)
  {
    forall p, q | Runs(t, p) && Runs(t, q) && t.procs[p].pid == t.procs[q].pid
      ensures p == q
    {
      assert Runs(s, p) && Runs(s, q);
    }
  }

  /** What the others know stays true when one process moves. */
  lemma OthersKnow(s: State, t: State, p: nat)
    requires Later(s, t) && forall q :: Runs(s, q) ==> Knows(s, q)
    requires forall q :: Runs(t, q) && q != p ==> t.procs[q].phase == s.procs[q].phase
    ensures forall q :: Runs(t, q) && q != p ==> Knows(t, q)
  {
    forall q | Runs(t, q) && q != p
      ensures Knows(t, q)
    {
      assert Runs(s, q) && Knows(s, q);
      match s.procs[q].phase
      case Judging(_, seen) => if seen.beforeBoot { DeadStays(s, t, seen.text); }
      case Stale(_, seen) =>
      case _ =>
    }
  }

  lemma LockStaysDead(s: State, t: State)
    requires Later(s, t) && LockStands(s) && t.lock == s.lock
    ensures t.lock.Some? && t.lock.value.beforeBoot ==> Dead(t, t.lock.value.text)
  {
    if t.lock.Some? && t.lock.value.beforeBoot {
      DeadStays(s, t, t.lock.value.text);
    }
  }

  /** A step of one process that neither starts nor ends to hold. */
  lemma MoveKeeps(s: State, p: nat, phase: Phase)
    requires Kept(s) && Runs(s, p) && !s.procs[p].phase.Holding? && !phase.Holding?
    requires Knows(At(s, p, phase), p)
    ensures Kept(At(s, p, phase))
  {
    var t := At(s, p, phase);
    assert Later(s, t);
    OwnTextsStay(s, t);
    OthersKnow(s, t, p);
    LockStaysDead(s, t);
    forall q
      ensures Runs(t, q) <==> Runs(s, q)
      ensures Holder(t, q) <==> Holder(s, q)
    {
    }
  }

  lemma CreateKeeps(s: State, p: nat)
    requires Kept(s) && Enabled(s, Create(p)) && s.lock.None?
    ensures Kept(Next(s, Create(p)))
  {
    var t := Next(s, Create(p));
    assert Later(s, t);
    OwnTextsStay(s, t);
    OthersKnow(s, t, p);
    forall q
      ensures Runs(t, q) <==> Runs(s, q)
      ensures Holder(t, q) <==> q == p
    {
      assert Holder(s, q) ==> s.lock.Some?;
    }
  }

  /** The lock of nobody alive is taken away. */
  lemma RemoveKeeps(s: State, p: nat)
    requires Kept(s) && Enabled(s, Remove(p)) && s.lock.Some? && s.lock.value.text == s.procs[p].phase.seen.text
    ensures Kept(Next(s, Remove(p)))
  {
    var t := Next(s, Remove(p));
    assert Later(s, t);
    assert Knows(s, p);
    OwnTextsStay(s, t);
    OthersKnow(s, t, p);
    forall q
      ensures !Holder(t, q)
    {
      assert q != p && Runs(s, q) ==> TextOf(s.procs[q]) != s.procs[p].phase.seen.text;
      assert Holder(t, q) ==> q != p && Holder(s, q);
    }
  }

  lemma ReleaseKeeps(s: State, p: nat)
    requires Kept(s) && Enabled(s, Release(p))
    ensures Kept(Next(s, Release(p))) && Next(s, Release(p)).lock.None?
  {
    var t := Next(s, Release(p));
    assert Holder(s, p);
    assert Later(s, t);
    OwnTextsStay(s, t);
    OthersKnow(s, t, p);
    forall q
      ensures !Holder(t, q)
    {
      if q != p && Holder(t, q) {
        assert Holder(s, q);
      }
    }
  }

  lemma StartKeeps(s: State, h: Step)
    requires Kept(s) && Enabled(s, h) && h.Start?
    ensures Kept(Next(s, h))
  {
    var t := Next(s, h);
    var text := TextOf(t.procs[h.p]);
    assert !InUse(s, text);
    forall q | Runs(t, q)
      ensures q != h.p ==> Runs(s, q)
      ensures Knows(t, q)
    {
      if q != h.p {
        assert Runs(s, q) && Knows(s, q);
      }
    }
    forall q
      ensures Holder(t, q) <==> Holder(s, q)
    {
    }
    assert forall q :: Runs(s, q) ==> s.procs[q].pid != h.pid;
  }

  lemma DeathKeeps(s: State, h: Step)
    requires Kept(s) && Enabled(s, h) && (h.Crash? || h.Reboot?)
    ensures Kept(Next(s, h))
  {
    var t := Next(s, h);
    assert Later(s, t);
    OwnTextsStay(s, t);
    forall q | Runs(t, q)
      ensures Runs(s, q) && t.procs[q].phase == s.procs[q].phase
    {
    }
    if h.Crash? {
      OthersKnow(s, t, h.p);
      LockStaysDead(s, t);
      forall q | Runs(t, q)
        ensures Holder(t, q) <==> Holder(s, q)
      {
      }
    }
  }

  lemma StepKeeps(s: State, h: Step)
    requires Kept(s) && Enabled(s, h)
    ensures Kept(Next(s, h))
  {
    match h
    case Start(_, _, _, _) => StartKeeps(s, h);
    case Take(p) => MoveKeeps(s, p, Trying(0));
    case Create(p) =>
      if s.lock.None? { CreateKeeps(s, p); } else { MoveKeeps(s, p, Reading(s.procs[p].phase.n)); }
    case Read(p) =>
      if s.lock.None? {
        MoveKeeps(s, p, Again(s.procs[p].phase.n));
      } else {
        var t := At(s, p, Judging(s.procs[p].phase.n, s.lock.value));
        assert Later(s, t);
        LockStaysDead(s, t);
        assert Runs(s, p) && !Holder(s, p);
        MoveKeeps(s, p, Judging(s.procs[p].phase.n, s.lock.value));
      }
    case Judge(p, ps) =>
      var seen := s.procs[p].phase.seen;
      assert Knows(s, p);
      if Holds(s, s.procs[p], seen, ps) {
        MoveKeeps(s, p, Refused(seen.text.pid));
      } else {
        StaleIsDead(s, p, ps);
        assert Later(s, At(s, p, Stale(s.procs[p].phase.n, seen)));
        MoveKeeps(s, p, Stale(s.procs[p].phase.n, seen));
      }
    case Remove(p) =>
      if s.lock.Some? && s.lock.value.text == s.procs[p].phase.seen.text {
        RemoveKeeps(s, p);
      } else {
        MoveKeeps(s, p, Again(s.procs[p].phase.n));
      }
    case Release(p) => ReleaseKeeps(s, p);
    case Crash(_) => DeathKeeps(s, h);
    case Reboot => DeathKeeps(s, h);
  }

  lemma {:induction false} RunKeeps(s: State, ts: seq<Step>)
    requires Kept(s) && Possible(s, ts)
    ensures Kept(Run(s, ts))
    decreases |ts|
  {
    if ts != [] {
      StepKeeps(s, ts[0]);
      RunKeeps(Next(s, ts[0]), ts[1..]);
    }
  }

  /** Over every run of any number of processes, with crashes, reboots and pids used again: at most one live holder, and the lock names it. */
  lemma OneLiveHolder(lock: Option<Lock>, ts: seq<Step>, p: nat, q: nat)
    requires Possible(Begin(lock), ts)
    requires Holder(Run(Begin(lock), ts), p) && Holder(Run(Begin(lock), ts), q)
    ensures p == q
    ensures Run(Begin(lock), ts).lock.Some? && Run(Begin(lock), ts).lock.value.text == TextOf(Run(Begin(lock), ts).procs[p])
  {
    BeginIsKept(lock);
    RunKeeps(Begin(lock), ts);
  }

  lemma BeginIsKept(lock: Option<Lock>)
    ensures Kept(Begin(lock))
  {
  }

  /** Neither a takeover nor a release by another process takes a live holder's lock away. */
  lemma NobodyRobs(lock: Option<Lock>, ts: seq<Step>, h: Step, p: nat)
    requires Possible(Begin(lock), ts) && Enabled(Run(Begin(lock), ts), h)
    requires Holder(Run(Begin(lock), ts), p) && h != Release(p) && h != Crash(p) && h != Reboot
    ensures Holder(Next(Run(Begin(lock), ts), h), p)
    ensures Next(Run(Begin(lock), ts), h).lock == Run(Begin(lock), ts).lock
  {
    BeginIsKept(lock);
    RunKeeps(Begin(lock), ts);
    var s := Run(Begin(lock), ts);
    if h.Remove? {
      assert Knows(s, h.p);
    }
    if h.Release? {
      OneLiveHolder(lock, ts, p, h.p);
    }
  }

  /** Who is refused is refused for a process that is alive, and that was born when the lock says, as far as that is known. */
  lemma RefusedForTheLiving(s: State, p: nat, ps: Option<nat>)
    requires Enabled(s, Judge(p, ps)) && Next(s, Judge(p, ps)).procs[p].phase.Refused?
    ensures var holder, started := Next(s, Judge(p, ps)).procs[p].phase.holder, s.procs[p].phase.seen.text.started;
            exists q :: Runs(s, q) && s.procs[q].pid == holder && (ps.Some? && started.Some? ==> Some(s.procs[q].born) == started)
  {
    var text := s.procs[p].phase.seen.text;
    if ps.Some? {
      var q :| q in s.procs && s.procs[q].alive && s.procs[q].pid == text.pid && s.procs[q].born == ps.value;
      assert Runs(s, q);
    } else {
      var q :| q in s.procs && s.procs[q].alive && s.procs[q].pid == text.pid;
      assert Runs(s, q);
    }
  }

  predicate CanAll(s: State, ts: seq<Step>)
    decreases |ts|
  {
    ts != [] ==> Can(s, ts[0]) && CanAll(Next(s, ts[0]), ts[1..])
  }

  function After(s: State, ts: seq<Step>): State
    requires CanAll(s, ts)
    decreases |ts|
  {
    if ts == [] then s else After(Next(s, ts[0]), ts[1..])
  }

  lemma {:induction false} OneMore(s: State, ts: seq<Step>, h: Step)
    requires CanAll(s, ts) && Can(After(s, ts), h)
    ensures CanAll(s, ts + [h]) && After(s, ts + [h]) == Next(After(s, ts), h)
    decreases |ts|
  {
    if ts == [] {
      assert [h][1..] == [];
    } else {
      assert (ts + [h])[1..] == ts[1..] + [h];
      OneMore(Next(s, ts[0]), ts[1..], h);
    }
  }

  function Alive(pid: nat, knows: bool, phase: Phase): Proc {
    Proc(pid, 1, knows, true, phase)
  }

  const GONE := Proc(5, 1, false, false, Holding)

  const SHARED := Lock(Names(5, None), false)

  /** The first process took the lock and died. */
  lemma Left() returns (ts: seq<Step>)
    ensures CanAll(Begin(None), ts)
    ensures After(Begin(None), ts).procs == map[0 := GONE] && After(Begin(None), ts).lock == Some(SHARED)
  {
    var s := Begin(None);
    ts := [];
    OneMore(s, ts, Start(0, 5, 1, false)); ts := ts + [Start(0, 5, 1, false)];
    OneMore(s, ts, Take(0)); ts := ts + [Take(0)];
    OneMore(s, ts, Create(0)); ts := ts + [Create(0)];
    OneMore(s, ts, Crash(0)); ts := ts + [Crash(0)];
  }

  /** Another process comes, and judges what the first one left. */
  lemma JudgedBy(before: seq<Step>, p: nat, pid: nat) returns (ts: seq<Step>)
    requires CanAll(Begin(None), before) && pid != 5
    requires After(Begin(None), before).lock == Some(SHARED)
    requires p !in After(Begin(None), before).procs && !IsAlive(After(Begin(None), before), pid) && !IsAlive(After(Begin(None), before), 5)
    ensures CanAll(Begin(None), ts)
    ensures After(Begin(None), ts).procs == After(Begin(None), before).procs[p := Alive(pid, true, Stale(0, SHARED))]
    ensures After(Begin(None), ts).lock == Some(SHARED)
  {
    var s := Begin(None);
    ts := before;
    OneMore(s, ts, Start(p, pid, 1, true)); ts := ts + [Start(p, pid, 1, true)];
    OneMore(s, ts, Take(p)); ts := ts + [Take(p)];
    OneMore(s, ts, Create(p)); ts := ts + [Create(p)];
    OneMore(s, ts, Read(p)); ts := ts + [Read(p)];
    OneMore(s, ts, Judge(p, None)); ts := ts + [Judge(p, None)];
  }

  /**
   A pid used again by a process that, like the first, could not find out when it was born: both write the same text.
   What was judged of the dead one is then done to the lock of the living, and two processes hold.
   */
  lemma SameTextsRob() returns (ts: seq<Step>)
    ensures CanAll(Begin(None), ts) && Holder(After(Begin(None), ts), 1) && Holder(After(Begin(None), ts), 3)
  {
    ts := Left();
    ts := JudgedBy(ts, 1, 6);
    ts := JudgedBy(ts, 2, 7);
    var s := Begin(None);
    OneMore(s, ts, Remove(2)); ts := ts + [Remove(2)];
    OneMore(s, ts, Start(3, 5, 1, false)); ts := ts + [Start(3, 5, 1, false)];
    OneMore(s, ts, Take(3)); ts := ts + [Take(3)];
    OneMore(s, ts, Create(3)); ts := ts + [Create(3)];
    assert After(s, ts).lock == Some(SHARED);
    OneMore(s, ts, Remove(1)); ts := ts + [Remove(1)];
    OneMore(s, ts, Create(1)); ts := ts + [Create(1)];
  }
}
