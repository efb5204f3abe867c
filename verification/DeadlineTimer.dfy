/** `createDeadlines`: the map of what waits, the one timer and the walk over what is due, with callbacks that use the scheduler themselves. */
module DeadlineTimer {
  import opened Common
  import opened Deadlines

  lemma RunOne(s: State, t: Step)
    requires Enabled(s, t)
    ensures Possible(s, [t]) && Run(s, [t]) == After(s, t)
  {
    assert [t][1..] == [];
  }

  lemma {:induction false} RunConcat(s: State, a: seq<Step>, b: seq<Step>)
    requires Possible(s, a) && Possible(Run(s, a), b)
    ensures Possible(s, a + b) && Run(s, a + b) == Run(Run(s, a), b)
    decreases |a|
  {
    if a == [] {
      assert a + b == b;
    } else {
      assert (a + b)[1..] == a[1..] + b;
      RunConcat(After(s, a[0]), a[1..], b);
    }
  }

  /** What a callback does: whatever it begins it ends, and the walks that were under way stay where they were. */
  predicate Nested(s: State, ts: seq<Step>, depth: nat)
    requires Possible(s, ts)
    decreases |ts|
  {
    if ts == [] then |s.walks| == depth
    else (ts[0].Next? ==> |s.walks| > depth) && Nested(After(s, ts[0]), ts[1..], depth)
  }

  lemma {:induction false} NestedLeaves(s: State, ts: seq<Step>, depth: nat)
    requires Possible(s, ts) && 0 < depth <= |s.walks| && Nested(s, ts, depth)
    ensures Run(s, ts).walks == s.walks[..depth]
    ensures Run(s, ts).wall == s.wall && Run(s, ts).awake == s.awake
    decreases |ts|
  {
    if ts == [] {
      assert s.walks[..depth] == s.walks;
    } else {
      var t := After(s, ts[0]);
      assert |t.walks| >= depth && t.walks[..depth] == s.walks[..depth];
      NestedLeaves(t, ts[1..], depth);
    }
  }

  /** An order of the keys that are due. */
  lemma {:induction false} HasOrder(keys: set<nat>)
    ensures exists order: seq<nat> :: Orders(order, keys)
    decreases |keys|
  {
    if keys == {} {
      assert Orders([], keys);
    } else {
      var k :| k in keys;
      HasOrder(keys - {k});
      var rest :| Orders(rest, keys - {k});
      assert k !in rest;
      assert Orders([k] + rest, keys) by {
        forall x | x in keys
          ensures x in [k] + rest
        {
          assert x == k || x in rest;
        }
      }
    }
  }

  predicate Orders(order: seq<nat>, keys: set<nat>) {
    && (forall k :: k in order ==> k in keys) && (forall k :: k in keys ==> k in order)
    && (forall i, j :: 0 <= i < j < |order| ==> order[i] != order[j])
  }

  lemma CanWake(s: State)
    ensures exists order :: Ready(s, order)
  {
    var due := set k | k in s.waiting && s.waiting[k].dueAt <= s.wall;
    HasOrder(due);
    var order :| Orders(order, due);
    assert forall i :: 0 <= i < |order| ==> order[i] in due;
    assert Ready(s, order);
  }

  class Scheduler {
    var wall: int
    var awake: int
    var waiting: map<nat, Entry>
    var cancelTimer: Option<nat>
    var closed: bool
    var next: nat
    /** The walks under way, each in a call of its own. */
    var walks: seq<Walk>
    var fired: seq<Firing>
    /** The clock's timers that this scheduler has set and not cancelled, and the number of the next. */
    var pending: map<nat, int>
    var timers: nat
    ghost var start: State
    ghost var history: seq<Step>

    /** One timer at most, and it is the one that can be cancelled. */
    ghost predicate OneTimer()
      reads this
    {
      && pending.Keys == (if cancelTimer.Some? then {cancelTimer.value} else {})
      && forall t :: t in pending ==> t < timers
    }

    ghost predicate Valid()
      reads this
    {
      OneTimer() && Possible(start, history) && Run(start, history) == View() && Kept(start)
    }

    function View(): State
      requires cancelTimer.Some? ==> cancelTimer.value in pending
      reads this
    {
      State(wall, awake, waiting, if cancelTimer.Some? then Some(pending[cancelTimer.value]) else None, closed, next, walks, fired)
    }

    constructor (wall: int, awake: int)
      ensures Valid() && View() == Begin(wall, awake)
    {
      this.wall, this.awake, waiting, cancelTimer, closed, next := wall, awake, map[], None, false, 0;
      walks, fired, pending, timers := [], [], map[], 0;
      start, history := Begin(wall, awake), [];
    }

    ghost method Record(was: State, t: Step)
      requires OneTimer() && Possible(start, history) && Run(start, history) == was && Kept(start)
      requires Enabled(was, t) && View() == After(was, t)
      modifies this`history
      ensures Valid()
    {
      RunOne(was, t);
      RunConcat(start, history, [t]);
      history := history + [t];
    }

    method ClearTimer()
      requires OneTimer()
      modifies this`cancelTimer, this`pending
      ensures OneTimer() && cancelTimer.None? && View() == old(View()).(timer := None)
    {
      if cancelTimer.Some? {
        pending := pending - {cancelTimer.value};
      }
      cancelTimer := None;
    }

    method Schedule()
      requires OneTimer()
      modifies this`cancelTimer, this`pending, this`timers
      ensures OneTimer() && View() == Scheduled(old(View()))
    {
      ClearTimer();
      if closed || waiting == map[] {
        return;
      }
      var earliest := Soonest();
      var left := if earliest < wall then 0 else earliest - wall;
      var wait := if left < MAX_SLEEP_MS then left else MAX_SLEEP_MS;
      pending := pending[timers := awake + wait];
      cancelTimer, timers := Some(timers), timers + 1;
    }

    /** The minimum over everything that waits. */
    method Soonest() returns (earliest: int)
      requires waiting != map[]
      ensures earliest == Earliest(waiting)
    {
      var left := waiting.Keys;
      var first :| first in left;
      earliest := waiting[first].dueAt;
      ghost var at := first;
      while left != {}
        invariant left <= waiting.Keys && at in waiting && waiting[at].dueAt == earliest
        invariant forall k :: k in waiting && k !in left ==> earliest <= waiting[k].dueAt
      {
        var k :| k in left;
        if waiting[k].dueAt < earliest {
          earliest, at := waiting[k].dueAt, k;
        }
        left := left - {k};
      }
    }

    method ArmKey(key: nat, idleSince: int, dueAt: int)
      requires Valid()
      modifies this
      ensures Valid() && View() == After(old(View()), Arm(key, idleSince, dueAt)) && start == old(start)
    {
      ghost var was := View();
      if !closed {
        waiting := waiting[key := Armed(View(), idleSince, dueAt)];
        next := next + 1;
        Schedule();
      }
      Record(was, Arm(key, idleSince, dueAt));
    }

    method CancelKey(key: nat)
      requires Valid()
      modifies this
      ensures Valid() && View() == After(old(View()), Cancel(key)) && start == old(start)
    {
      ghost var was := View();
      if key in waiting {
        waiting := waiting - {key};
        Schedule();
      }
      Record(was, Cancel(key));
    }

    method CloseAll()
      requires Valid()
      modifies this
      ensures Valid() && View() == After(old(View()), Close) && start == old(start)
    {
      ghost var was := View();
      closed, waiting := true, map[];
      ClearTimer();
      Record(was, Close);
    }

    /** The callback of a key that fired: it uses the scheduler as it likes. */
    method OnDue()
      requires Valid() && walks != []
      modifies this
      ensures Valid() && walks == old(walks) && wall == old(wall) && awake == old(awake) && start == old(start)
    {
      ghost var was := View();
      assert Possible(was, []) && Nested(was, [], |walks|);
      var ts: seq<Step> :| Possible(View(), ts) && Nested(View(), ts, |walks|);
      NestedLeaves(was, ts, |walks|);
      RunConcat(start, history, ts);
      assert walks[..|walks|] == walks;
      Adopt(Run(View(), ts));
      history := history + ts;
    }

    method Adopt(s: State)
      requires s.wall == wall && s.awake == awake && s.walks == walks
      modifies this`waiting, this`closed, this`next, this`fired, this`pending, this`cancelTimer, this`timers
      ensures OneTimer() && View() == s
    {
      waiting, closed, next, fired := s.waiting, s.closed, s.next, s.fired;
      if s.timer.Some? {
        var id: nat := timers;
        pending, cancelTimer, timers := map[id := s.timer.value], Some(id), timers + 1;
      } else {
        pending, cancelTimer := map[], None;
      }
    }

    /** A millisecond passes, or the machine sleeps for a while, which the timer does not see. */
    method TimePasses(asleep: nat)
      requires Valid() && walks == [] && (cancelTimer.Some? ==> awake < pending[cancelTimer.value])
      modifies this
      ensures Valid() && View() == After(old(View()), if asleep > 0 then Sleep(asleep) else Pass) && start == old(start)
    {
      ghost var was := View();
      if asleep > 0 {
        wall := wall + asleep;
      } else {
        wall, awake := wall + 1, awake + 1;
      }
      waiting := Noticed(View()).waiting;
      Record(was, if asleep > 0 then Sleep(asleep) else Pass);
    }

    /** `wake`: whatever its callbacks do, it ends with its own walk done and the timer set anew. */
    method Wake(ghost was: State, ghost t: Step, order: seq<nat>)
      requires OneTimer() && Possible(start, history) && Run(start, history) == was && Kept(start)
      requires cancelTimer.None? && View() == was.(timer := None) && Ready(was, order) && Enabled(was, t)
      requires t == Sweep(order) || t == TimerFires(order)
      modifies this
      ensures Valid() && walks == old(walks) && start == old(start) && wall == old(wall) && awake == old(awake)
    {
      if closed {
        Record(was, t);
        return;
      }
      var ready := Snapshot(waiting, order);
      walks := walks + [Walk(wall, ready)];
      Record(was, t);
      WalkAll(ready, old(walks));
    }

    /** The keys of the snapshot one after the other, until the scheduler is closed. */
    method WalkAll(ready: seq<(nat, Entry)>, ghost below: seq<Walk>)
      requires Valid() && walks == below + [Walk(wall, ready)]
      modifies this
      ensures Valid() && walks == below && start == old(start) && wall == old(wall) && awake == old(awake)
    {
      for k := 0 to |ready|
        invariant Valid() && start == old(start) && wall == old(wall) && awake == old(awake)
        invariant walks == below + [Walk(wall, ready[k..])]
      {
        if closed {
          break;
        }
        assert ready[k..][0] == ready[k] && ready[k..][1..] == ready[k + 1..];
        WalkOn(ready[k]);
      }
      EndWalk();
      assert walks == below;
    }

    /** One key of the snapshot: a callback may have cancelled it or armed it again. */
    method WalkOn(item: (nat, Entry))
      requires Valid() && walks != [] && !closed && walks[|walks| - 1].left != [] && walks[|walks| - 1].left[0] == item
      modifies this
      ensures Valid() && start == old(start) && wall == old(wall) && awake == old(awake)
      ensures var n := |old(walks)| - 1;
              walks == old(walks)[n := old(walks)[n].(left := old(walks)[n].left[1..])]
    {
      ghost var was := View();
      var n := |walks| - 1;
      var (key, entry) := item;
      walks := walks[n := walks[n].(left := walks[n].left[1..])];
      if key in waiting && waiting[key].serial == entry.serial {
        fired := fired + [Firing(key, waiting[key], wall, awake)];
        waiting := waiting - {key};
        Record(was, Next);
        OnDue();
      } else {
        Record(was, Next);
      }
    }

    /** What comes after the walk in any case. */
    method EndWalk()
      requires Valid() && walks != [] && (closed || walks[|walks| - 1].left == [])
      modifies this
      ensures Valid() && start == old(start) && walks == old(walks)[..|old(walks)| - 1] && wall == old(wall) && awake == old(awake)
    {
      ghost var was := View();
      walks := walks[..|walks| - 1];
      Schedule();
      Record(was, Next);
    }

    /** `sweep`: every key whose time has passed fires now, without waiting for the timer. */
    method SweepNow()
      requires Valid()
      modifies this
      ensures Valid() && walks == old(walks) && start == old(start)
    {
      ghost var was := View();
      CanWake(View());
      var order :| Ready(View(), order);
      ClearTimer();
      Wake(was, Sweep(order), order);
    }

    /** The clock fires the timer: by then it is none of its own any more. */
    method OnTimer()
      requires Valid() && walks == [] && cancelTimer.Some? && pending[cancelTimer.value] <= awake
      modifies this
      ensures Valid() && walks == [] && start == old(start)
      ensures cancelTimer.Some? <==> !closed && waiting != map[]
    {
      ghost var was := View();
      CanWake(View());
      var order :| Ready(View(), order);
      pending, cancelTimer := map[], None;
      Wake(was, TimerFires(order), order);
      RunKeeps(start, history);
    }
  }
}
