/** `takeLock` and `releaseLock` as one process runs them, with every other process free to act between two of its steps. */
module LockTaking {
  import opened Common
  import opened LockProtocol

  function By(t: Step): Option<nat> {
    match t
    case Start(p, _, _, _) => Some(p)
    case Take(p) => Some(p)
    case Create(p) => Some(p)
    case Read(p) => Some(p)
    case Judge(p, _) => Some(p)
    case Remove(p) => Some(p)
    case Release(p) => Some(p)
    case Crash(p) => Some(p)
    case Reboot => None
  }

  /** Steps of other processes, while this one lives. */
  predicate Elsewhere(ts: seq<Step>, p: nat) {
    forall k :: 0 <= k < |ts| ==> By(ts[k]).Some? && By(ts[k]) != Some(p)
  }

  lemma {:induction false} ElsewhereLeaves(s: State, ts: seq<Step>, p: nat)
    requires Possible(s, ts) && Elsewhere(ts, p) && p in s.procs
    ensures p in Run(s, ts).procs && Run(s, ts).procs[p] == s.procs[p]
    decreases |ts|
  {
    if ts != [] {
      assert By(ts[0]) != Some(p);
      ElsewhereLeaves(Next(s, ts[0]), ts[1..], p);
    }
  }

  lemma {:induction false} RunConcat(s: State, a: seq<Step>, b: seq<Step>)
    requires Possible(s, a) && Possible(Run(s, a), b)
    ensures Possible(s, a + b) && Run(s, a + b) == Run(Run(s, a), b)
    decreases |a|
  {
    if a == [] {
      assert a + b == b;
    } else {
      assert (a + b)[1..] == a[1..] + b;
      RunConcat(Next(s, a[0]), a[1..], b);
    }
  }

  lemma RunOne(s: State, t: Step)
    requires Enabled(s, t)
    ensures Possible(s, [t]) && Run(s, [t]) == Next(s, t)
  {
    assert [t][1..] == [];
  }

  datatype LockResult = Taken | HeldBy(pid: nat) | TakenAgainAndAgain

  /** The file system and the process table, which all processes share. */
  class Machine {
    var s: State
    /** Everything that has happened. */
    ghost var history: seq<Step>
    ghost var start: State

    ghost predicate Valid()
      reads this
    {
      Possible(start, history) && Run(start, history) == s && Kept(start)
    }

    constructor (lock: Option<Lock>)
      ensures Valid() && s == Begin(lock)
    {
      s, start, history := Begin(lock), Begin(lock), [];
      BeginIsKept(lock);
    }

    /** One step of one process. */
    method Do(t: Step)
      requires Valid() && Enabled(s, t)
      modifies this
      ensures Valid() && s == Next(old(s), t) && start == old(start)
    {
      RunOne(s, t);
      RunConcat(start, history, [t]);
      history := history + [t];
      s := Next(s, t);
    }

    /** The other processes act, and this one lives on. */
    method Others(p: nat)
      requires Valid() && Runs(s, p)
      modifies this
      ensures Valid() && start == old(start) && Runs(s, p) && s.procs[p] == old(s).procs[p]
    {
      assert Possible(s, []) && Elsewhere([], p);
      var ts: seq<Step> :| Possible(s, ts) && Elsewhere(ts, p);
      ElsewhereLeaves(s, ts, p);
      RunConcat(start, history, ts);
      history := history + ts;
      s := Run(s, ts);
    }

    /** `createLock`: the lock is there whole, or what was there stays. */
    method CreateLock(p: nat) returns (created: bool)
      requires Valid() && Runs(s, p) && s.procs[p].phase.Trying?
      modifies this
      ensures Valid() && start == old(start) && Runs(s, p)
      ensures created <==> old(s).lock.None?
      ensures s.procs[p].phase == if created then Holding else Reading(old(s).procs[p].phase.n)
    {
      created := s.lock.None?;
      Do(Create(p));
      if !created {
        Others(p);
      }
    }

    method ReadLock(p: nat) returns (seen: Option<Lock>)
      requires Valid() && Runs(s, p) && s.procs[p].phase.Reading?
      modifies this
      ensures Valid() && start == old(start) && Runs(s, p)
      ensures s.procs[p].phase == if seen.None? then Again(old(s).procs[p].phase.n) else Judging(old(s).procs[p].phase.n, seen.value)
    {
      seen := s.lock;
      Do(Read(p));
      Others(p);
    }

    /** `holds`, which asks for the live pid and for its start. */
    method JudgeLock(p: nat) returns (held: bool)
      requires Valid() && Runs(s, p) && s.procs[p].phase.Judging?
      modifies this
      ensures Valid() && start == old(start) && Runs(s, p)
      ensures var seen := old(s).procs[p].phase.seen;
              if held then seen.text.Names? && s.procs[p].phase == Refused(seen.text.pid)
              else s.procs[p].phase == Stale(old(s).procs[p].phase.n, seen)
    {
      var seen := s.procs[p].phase.seen;
      var ps: Option<nat> := None;
      if seen.text.Names? && IsAlive(s, seen.text.pid) {
        var answers: bool := *;
        if answers {
          var q :| q in s.procs && s.procs[q].alive && s.procs[q].pid == seen.text.pid;
          ps := Some(s.procs[q].born);
        }
      }
      held := Holds(s, s.procs[p], seen, ps);
      Do(Judge(p, ps));
      Others(p);
    }

    /** The lock removed only while it still says what was judged. */
    method RemoveIfSame(p: nat)
      requires Valid() && Runs(s, p) && s.procs[p].phase.Stale?
      modifies this
      ensures Valid() && start == old(start) && Runs(s, p)
      ensures s.procs[p].phase == Again(old(s).procs[p].phase.n)
    {
      Do(Remove(p));
      Others(p);
    }

    /**
     `takeLock`: whatever the others do meanwhile, the process that is told it took the lock is the one live holder, the lock names it,
     and who is told otherwise does not hold.
     */
    method TakeLock(p: nat) returns (result: LockResult)
      requires Valid() && Runs(s, p) && s.procs[p].phase.Idle?
      modifies this
      ensures Valid() && start == old(start) && Runs(s, p)
      ensures result.Taken? <==> Holder(s, p)
      ensures result.Taken? ==> s.lock.Some? && s.lock.value.text == TextOf(s.procs[p]) && forall q :: Holder(s, q) ==> q == p
      ensures result.HeldBy? ==> s.procs[p].phase == Refused(result.pid)
    {
      Do(Take(p));
      var attempt := 0;
      while attempt < LOCK_TRIES
        invariant Valid() && start == old(start) && Runs(s, p) && attempt <= LOCK_TRIES
        invariant s.procs[p].phase == if attempt < LOCK_TRIES then Trying(attempt) else GaveUp
      {
        Others(p);
        var created := CreateLock(p);
        if created {
          RunKeeps(start, history);
          return Taken;
        }
        var seen := ReadLock(p);
        if seen.Some? {
          var held := JudgeLock(p);
          if held {
            return HeldBy(seen.value.text.pid);
          }
          RemoveIfSame(p);
        }
        attempt := attempt + 1;
      }
      result := TakenAgainAndAgain;
    }

    /** `releaseLock`: the holder's lock is gone, and nobody else's was touched. */
    method ReleaseLock(p: nat)
      requires Valid() && Holder(s, p)
      modifies this
      ensures Valid() && start == old(start) && s == Next(old(s), Release(p)) && s.lock.None?
    {
      RunKeeps(start, history);
      ReleaseKeeps(s, p);
      Do(Release(p));
    }
  }
}
