/**
 A pid used again, by a process that writes the very text that one before it wrote: which starts of that kind can end with two holders, and which cannot.
 */
module LockReuse {
  import opened Common
  import opened LockProtocol

  ghost predicate TwoHold(s: State) {
    exists p, q :: p != q && Holder(s, p) && Holder(s, q)
  }

  ghost predicate Reaches(s: State, t: State) {
    exists ts :: Possible(s, ts) && Run(s, ts) == t
  }

  lemma {:induction false} RunSnoc(s: State, ts: seq<Step>, h: Step)
    requires Possible(s, ts) && Enabled(Run(s, ts), h)
    ensures Possible(s, ts + [h]) && Run(s, ts + [h]) == Next(Run(s, ts), h)
    decreases |ts|
  {
    if ts == [] {
      assert [h][1..] == [];
    } else {
      assert (ts + [h])[1..] == ts[1..] + [h];
      RunSnoc(Next(s, ts[0]), ts[1..], h);
    }
  }

  lemma Onward(s: State, t: State, h: Step)
    requires Reaches(s, t) && Enabled(t, h)
    ensures Reaches(s, Next(t, h))
  {
    var ts :| Possible(s, ts) && Run(s, ts) == t;
    RunSnoc(s, ts, h);
  }

  lemma Stands(s: State)
    ensures Reaches(s, s)
  {
    assert Possible(s, []) && Run(s, []) == s;
  }

  // ---- what a process that judges a lock knows of its own pid ----

  /** A lock under the pid of a process that has read one is the one it has read. */
  ghost predicate LastRead(s: State) {
    forall p :: Runs(s, p) && (s.procs[p].phase.Judging? || s.procs[p].phase.Stale?) && s.lock.Some? && PidOf(s.lock.value.text) == s.procs[p].pid + 1 ==>
      s.lock.value.text == s.procs[p].phase.seen.text
  }

  /** The pid that a text names, counted from one. */
  function PidOf(text: Text): nat {
    if text.Names? then text.pid + 1 else 0
  }

  lemma StepKeepsRead(s: State, h: Step)
    requires Kept(s) && LastRead(s) && Enabled(s, h)
    ensures LastRead(Next(s, h))
  {
    var t := Next(s, h);
    forall p | Runs(t, p) && (t.procs[p].phase.Judging? || t.procs[p].phase.Stale?) && t.lock.Some? && PidOf(t.lock.value.text) == t.procs[p].pid + 1
      ensures t.lock.value.text == t.procs[p].phase.seen.text
    {
      assert Runs(s, p);
    }
  }

  lemma {:induction false} RunKeepsRead(s: State, ts: seq<Step>)
    requires Kept(s) && LastRead(s) && Possible(s, ts)
    ensures Kept(Run(s, ts)) && LastRead(Run(s, ts))
    decreases |ts|
  {
    if ts != [] {
      StepKeeps(s, ts[0]);
      StepKeepsRead(s, ts[0]);
      RunKeepsRead(Next(s, ts[0]), ts[1..]);
    }
  }

  // ---- a process that takes the lock with nobody in between ----

  /** Nobody that `p` would take for the holder is there. */
  predicate Free(s: State, p: nat)
    requires p in s.procs
  {
    s.lock.Some? && s.lock.value.text.Names? && s.lock.value.text.pid != s.procs[p].pid ==> !IsAlive(s, s.lock.value.text.pid)
  }

  lemma AliveAt(s: State, p: nat, phase: Phase, pid: nat)
    requires p in s.procs
    ensures IsAlive(At(s, p, phase), pid) <==> IsAlive(s, pid)
  {
    var t := At(s, p, phase);
    forall q | q in s.procs
      ensures t.procs[q].alive == s.procs[q].alive && t.procs[q].pid == s.procs[q].pid
    {
    }
    if IsAlive(s, pid) {
      var q :| q in s.procs && s.procs[q].alive && s.procs[q].pid == pid;
      assert q in t.procs;
    }
  }

  /** One step of `p`, which changes its phase, and nothing else of the processes. */
  lemma Moves(s: State, t: State, h: Step, p: nat, phase: Phase, lock: Option<Lock>) returns (u: State)
    requires Reaches(s, t) && p in t.procs && Enabled(t, h) && Next(t, h) == At(t, p, phase).(lock := lock)
    ensures Reaches(s, u) && u == At(t, p, phase).(lock := lock)
  {
    Onward(s, t, h);
    u := Next(t, h);
  }

  lemma AtTwice(t: State, p: nat, a: Phase, b: Phase, lock: Option<Lock>, later: Option<Lock>)
    requires p in t.procs
    ensures At(At(t, p, a).(lock := lock), p, b).(lock := later) == At(t, p, b).(lock := later)
  {
    assert t.procs[p := t.procs[p].(phase := a)][p := t.procs[p].(phase := b)] == t.procs[p := t.procs[p].(phase := b)];
  }

  /** A process finds a lock and judges it stale. */
  lemma Judges(s: State, t: State, p: nat) returns (u: State)
    requires Reaches(s, t) && Runs(t, p) && t.procs[p].phase.Idle? && t.lock.Some?
    requires t.lock.value.beforeBoot || Free(t, p)
    ensures Reaches(s, u) && u == At(t, p, Stale(0, t.lock.value))
  {
    var lock := t.lock.value;
    var t1 := Moves(s, t, Take(p), p, Trying(0), t.lock);
    var t2 := Moves(s, t1, Create(p), p, Reading(0), t.lock);
    AtTwice(t, p, Trying(0), Reading(0), t.lock, t.lock);
    var t3 := Moves(s, t2, Read(p), p, Judging(0, lock), t.lock);
    AtTwice(t, p, Reading(0), Judging(0, lock), t.lock, t.lock);
    if lock.text.Names? {
      AliveAt(t, p, Judging(0, lock), lock.text.pid);
    }
    assert !Holds(t3, t3.procs[p], lock, None);
    u := Moves(s, t3, Judge(p, None), p, Stale(0, lock), t.lock);
    AtTwice(t, p, Judging(0, lock), Stale(0, lock), t.lock, t.lock);
  }

  lemma Seizes(s: State, t: State, p: nat) returns (u: State)
    requires Reaches(s, t) && Runs(t, p) && t.procs[p].phase.Idle? && Free(t, p)
    ensures Reaches(s, u) && u == At(t, p, Holding).(lock := Some(Lock(TextOf(t.procs[p]), false)))
  {
    var own := Some(Lock(TextOf(t.procs[p]), false));
    if t.lock.None? {
      var t1 := Moves(s, t, Take(p), p, Trying(0), None);
      u := Moves(s, t1, Create(p), p, Holding, own);
      AtTwice(t, p, Trying(0), Holding, None, own);
    } else {
      var stale := Stale(0, t.lock.value);
      var t1 := Judges(s, t, p);
      var t2 := Moves(s, t1, Remove(p), p, Trying(1), None);
      AtTwice(t, p, stale, Trying(1), t.lock, None);
      u := Moves(s, t2, Create(p), p, Holding, own);
      AtTwice(t, p, Trying(1), Holding, None, own);
    }
  }

  // ---- a process of which nothing is known yet ----

  function SeenPid(p: Proc): nat {
    if p.phase.Judging? || p.phase.Stale? then PidOf(p.phase.seen.text) else 0
  }

  lemma Stranger(s: State, t: State) returns (u: State, r: nat)
    requires Reaches(s, t)
    ensures r !in t.procs && u.lock == t.lock && r in u.procs && u.procs == t.procs[r := u.procs[r]] && Reaches(s, u)
    ensures Runs(u, r) && u.procs[r].phase.Idle? && u.procs[r].knows
    ensures forall p :: p in t.procs ==> t.procs[p].pid != u.procs[r].pid
    ensures t.lock.Some? ==> PidOf(t.lock.value.text) != u.procs[r].pid + 1
  {
    r := Beyond(t.procs.Keys);
    var pids := set p | p in t.procs :: t.procs[p].pid;
    var read := set p | p in t.procs :: SeenPid(t.procs[p]);
    var locked := if t.lock.Some? then {PidOf(t.lock.value.text)} else {};
    var pid := Beyond(pids + read + locked);
    forall p | p in t.procs
      ensures t.procs[p].pid < pid && SeenPid(t.procs[p]) < pid
    {
      assert t.procs[p].pid in pids && SeenPid(t.procs[p]) in read;
    }
    assert t.lock.Some? ==> PidOf(t.lock.value.text) in locked;
    var h := Start(r, pid, 1, true);
    assert !InUse(t, Names(pid, Some(1))) by {
      forall p | p in t.procs
        ensures !Condemns(t.procs[p], Names(pid, Some(1)))
      {
      }
    }
    Onward(s, t, h);
    u := Next(t, h);
  }

  // ---- two holders ----

  /** Whoever could be taken for the holder is gone: at most one process, and neither `p` nor `q`. */
  lemma Clears(s: State, t: State, p: nat, q: nat) returns (u: State)
    requires Reaches(s, t) && OwnTexts(t) && Runs(t, p) && Runs(t, q)
    requires t.lock.Some? ==> PidOf(t.lock.value.text) != t.procs[q].pid + 1
    ensures Reaches(s, u) && Runs(u, p) && Runs(u, q) && u.procs[p] == t.procs[p] && u.procs[q] == t.procs[q] && Free(u, p)
  {
    if Free(t, p) {
      u := t;
    } else {
      var pid := t.lock.value.text.pid;
      var x :| x in t.procs && t.procs[x].alive && t.procs[x].pid == pid;
      Onward(s, t, Crash(x));
      u := Next(t, Crash(x));
      forall y | y in u.procs && u.procs[y].alive
        ensures u.procs[y].pid != pid
      {
        assert y != x && Runs(t, y) && Runs(t, x);
      }
    }
  }

  /** A process lives whose text another has judged to be stale: it takes the lock, loses it to that judgement, and a third process takes it. */
  lemma Condemned(s: State, t: State, p: nat, q: nat)
    requires Reaches(s, t) && OwnTexts(t) && p != q && Runs(t, p) && t.procs[p].phase.Idle?
    requires Runs(t, q) && t.procs[q].phase.Stale? && t.procs[q].phase.seen.text == TextOf(t.procs[p])
    requires t.lock.Some? ==> PidOf(t.lock.value.text) != t.procs[q].pid + 1
    ensures exists u :: Reaches(s, u) && TwoHold(u)
  {
    var t1 := Clears(s, t, p, q);
    var t2 := Seizes(s, t1, p);
    Onward(s, t2, Remove(q));
    var t3 := Next(t2, Remove(q));
    var t4, r := Stranger(s, t3);
    var t5 := Seizes(s, t4, r);
    assert Holder(t5, p) && Holder(t5, r) && p != r;
  }

  lemma StillOwnTexts(s: State, h: Step)
    requires OwnTexts(s) && h.Start? && Can(s, h)
    ensures OwnTexts(Next(s, h))
  {
    var t := Next(s, h);
    forall x, y | Runs(t, x) && Runs(t, y) && t.procs[x].pid == t.procs[y].pid
      ensures x == y
    {
      assert x != h.p ==> Runs(s, x);
      assert y != h.p ==> Runs(s, y);
    }
  }

  /** A judge of a lock from before the boot does not ask when the process of its pid was born. */
  lemma JudgesAnyway(s: State, t: State, p: nat, q: nat) returns (u: State)
    requires Reaches(s, t) && OwnTexts(t) && p != q && Runs(t, p) && Runs(t, q) && Condemns(t.procs[q], TextOf(t.procs[p]))
    ensures Reaches(s, u) && OwnTexts(u) && u.lock == t.lock && Runs(u, p) && u.procs[p] == t.procs[p] && Runs(u, q) && u.procs[q].pid == t.procs[q].pid
    ensures u.procs[q].phase.Stale? && u.procs[q].phase.seen == t.procs[q].phase.seen
  {
    u := t;
    if t.procs[q].phase.Judging? {
      assert !Holds(t, t.procs[q], t.procs[q].phase.seen, None);
      Onward(s, t, Judge(q, None));
      u := Next(t, Judge(q, None));
      OwnTextsStay(t, u);
    }
  }

  lemma WrongByJudgement(s: State, h: Step, q: nat)
    requires Kept(s) && LastRead(s) && h.Start? && Can(s, h) && q in s.procs && Condemns(s.procs[q], TextOf(Next(s, h).procs[h.p]))
    ensures exists u :: Reaches(Next(s, h), u) && TwoHold(u)
  {
    var t := Next(s, h);
    Stands(t);
    StillOwnTexts(s, h);
    assert Runs(s, q) && Runs(t, q) && t.procs[q] == s.procs[q];
    assert s.procs[q].pid != h.pid;
    var u := JudgesAnyway(t, t, h.p, q);
    Condemned(t, u, h.p, q);
  }

  lemma WrongByBoot(s: State, h: Step)
    requires OwnTexts(s) && h.Start? && Can(s, h)
    requires s.lock.Some? && s.lock.value.beforeBoot && s.lock.value.text == TextOf(Next(s, h).procs[h.p])
    ensures exists u :: Reaches(Next(s, h), u) && TwoHold(u)
  {
    var t := Next(s, h);
    Stands(t);
    StillOwnTexts(s, h);
    var t1, q := Stranger(t, t);
    assert OwnTexts(t1);
    var t2 := Judges(t, t1, q);
    OwnTextsStay(t1, t2);
    Condemned(t, t2, h.p, q);
  }

  lemma StartsWrong(s: State, h: Step)
    requires Kept(s) && LastRead(s) && h.Start? && Can(s, h) && InUse(s, TextOf(Next(s, h).procs[h.p]))
    ensures exists u :: Reaches(Next(s, h), u) && TwoHold(u)
  {
    if q :| q in s.procs && Condemns(s.procs[q], TextOf(Next(s, h).procs[h.p])) {
      WrongByJudgement(s, h, q);
    } else {
      WrongByBoot(s, h);
    }
  }

  lemma OneAtATime(s: State)
    requires Kept(s)
    ensures !TwoHold(s)
  {
    forall p, q | Holder(s, p) && Holder(s, q)
      ensures p == q
    {
      assert TextOf(s.procs[p]) == TextOf(s.procs[q]);
    }
  }

  /**
   After any run without a start of that kind, a process can start and two come to hold the lock in some run from there, with no other such start,
   exactly when its text is in use: when a lock from before the boot says it, or a live process is about to remove a lock that says it.
   */
  lemma GuardIsExact(lock: Option<Lock>, ts: seq<Step>, h: Step)
    requires Possible(Begin(lock), ts) && h.Start? && Can(Run(Begin(lock), ts), h)
    ensures var s := Run(Begin(lock), ts);
            InUse(s, TextOf(Next(s, h).procs[h.p])) <==> exists u :: Reaches(Next(s, h), u) && TwoHold(u)
  {
    var s := Run(Begin(lock), ts);
    BeginIsKept(lock);
    RunKeepsRead(Begin(lock), ts);
    if InUse(s, TextOf(Next(s, h).procs[h.p])) {
      StartsWrong(s, h);
    } else {
      StepKeeps(s, h);
      forall u | Reaches(Next(s, h), u)
        ensures !TwoHold(u)
      {
        var more :| Possible(Next(s, h), more) && Run(Next(s, h), more) == u;
        RunKeeps(Next(s, h), more);
        OneAtATime(u);
      }
    }
  }
}
