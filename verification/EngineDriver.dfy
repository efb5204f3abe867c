/** `createEngine`: the closures that run one job at a time, and the follower that the engine lives by. */
module EngineDriver {
  import opened Common
  import opened Engine

  class NoticeEngine {
    var stopped: bool
    var now: int
    var queue: seq<Job>
    /** The deadlines that wait, by key. */
    var waiting: map<Key, Deadline>
    var armedBy: map<Key, Event>
    var questions: map<Key, int>
    var up: set<Key>
    /** What the notifier was told, and the warnings among it. */
    var ops: seq<Op>
    var warnings: seq<Warning>
    var book: seq<Deed>
    ghost var begun: int
    ghost var history: seq<Happening>

    /** Everything that has happened to it is a run of the engine. */
    ghost predicate Valid()
      reads this
    {
      Possible(Begin(begun), history) && Run(Begin(begun), history) == View()
    }

    ghost function View(): State
      reads this
    {
      State(stopped, Ledger(now, queue, waiting, armedBy, book, warnings), Screen(up, questions, ops))
    }

    constructor (now: int)
      ensures Valid() && View() == Begin(now)
    {
      this.now, stopped, queue, waiting, armedBy := now, false, [], map[], map[];
      questions, up, ops, warnings, book := map[], {}, [], [], [];
      begun, history := now, [];
    }

    ghost method Record(was: State, h: Happening)
      requires Possible(Begin(begun), history) && Run(Begin(begun), history) == was
      requires Enabled(was, h) && View() == Step(was, h)
      modifies this`history
      ensures Valid() && history == old(history) + [h]
    {
      RunOne(was, h);
      RunConcat(Begin(begun), history, [h]);
      history := history + [h];
    }

    /** Whatever it has been through: its warnings are true and no more than its armings, and what it takes for up is what is on screen. */
    lemma TellsTheTruth(key: Key)
      requires Valid()
      ensures forall i :: 0 <= i < |warnings| ==> Well(warnings[i])
      ensures WarningsOf(warnings, key) <= Armings(book, key)
      ensures key in up <==> OnScreen(ops, key)
    {
      WarningsAreTrue(begun, history, key);
      RunKnowsUp(Begin(begun), history);
    }

    method Withdraw(key: Key)
      modifies this`up, this`ops
      ensures View() == old(View()).(screen := TakenDown(old(View()).screen, key))
    {
      if key !in up {
        return;
      }
      up, ops := up - {key}, ops + [Withdrawn(key)];
    }

    /** `post`, which finds the pane first; whether the notifier was reached. */
    method Post(kind: Kind, e: Event, a: Answer) returns (sent: bool)
      modifies this`up, this`ops, this`questions
      ensures View() == old(View()).(screen := Posted(old(View()).screen, kind, e, a))
      ensures sent == (a.posted && !(a.paneGone && kind.CacheExpiring?))
    {
      if a.paneGone {
        questions := questions - {e.key};
        if kind.CacheExpiring? {
          return false;
        }
      }
      if !a.posted {
        return false;
      }
      if a.shown {
        up, ops := up + {e.key}, ops + [Shown(e.key)];
        if kind.Question? && e.hook.PreToolUse? && !a.paneGone {
          questions := questions[e.key := e.at];
        }
      } else {
        ops := ops + [Dropped(e.key)];
        Withdraw(e.key);
      }
      sent := true;
    }

    method ArmKey(e: Event, opts: Options)
      modifies this`armedBy, this`waiting, this`book
      ensures View() == old(View()).(ledger := Arm(old(View()).ledger, e, opts))
    {
      if CacheExpiring !in opts.enabled {
        return;
      }
      armedBy := armedBy[e.key := e];
      waiting := waiting[e.key := Deadline(e.at, e.at + opts.after)];
      book := book + [Armed(e, opts.after)];
    }

    method CancelKey(key: Key)
      modifies this`armedBy, this`waiting, this`book
      ensures View() == old(View()).(ledger := Cancel(old(View()).ledger, key))
    {
      waiting, armedBy, book := waiting - {key}, armedBy - {key}, book + [Cancelled(key)];
    }

    /** `step`. */
    method Clear(v: Verdict, key: Key)
      modifies this`armedBy, this`waiting, this`book, this`up, this`ops, this`questions
      ensures var s := old(View());
              View() == s.(ledger := if v.cancel then Cancel(s.ledger, key) else s.ledger, screen := Cleared(s.screen, v, key))
    {
      if v.cancel || v.kind == Some(TurnDone) {
        questions := questions - {key};
      }
      if v.cancel {
        CancelKey(key);
      }
      if v.withdraw {
        Withdraw(key);
      }
    }

    method OnEvent(e: Event, opts: Options, a: Answer)
      modifies this`armedBy, this`waiting, this`book, this`up, this`ops, this`questions
      ensures View() == Stepped(old(View()), e, opts, a)
    {
      if stopped {
        return;
      }
      var verdict := Classify(e);
      if verdict.None? {
        return;
      }
      var v := verdict.value;
      if v.kind == Some(Permission) && e.key in questions && e.at - questions[e.key] <= QUESTION_PROMPT_WINDOW_MS {
        return;
      }
      Clear(v, e.key);
      if v.arms {
        ArmKey(e, opts);
      }
      if v.kind.Some? && v.kind.value in opts.enabled {
        var _ := Post(v.kind.value, e, a);
      }
    }

    /** `due`. */
    method OnDue(key: Key, idleSince: int, opts: Options, a: Answer)
      modifies this`armedBy, this`warnings, this`up, this`ops, this`questions
      ensures View() == Due(old(View()), key, idleSince, opts, a)
    {
      if stopped || key !in armedBy || armedBy[key].at != idleSince {
        return;
      }
      var e := armedBy[key];
      armedBy := armedBy - {key};
      if CacheExpiring !in opts.enabled || key.Paneless? {
        return;
      }
      if a.row.None? || a.row.value.New? || a.row.value.Gone? {
        return;
      }
      if a.row.value.Working? && a.rowAt > idleSince {
        return;
      }
      if now - idleSince >= opts.ttl {
        return;
      }
      if !a.paneGone {
        warnings := warnings + [Warning(e, now, opts.ttl, book)];
      }
      var _ := Post(CacheExpiring, e, a);
    }

    /** The next job of the chain. */
    method RunJob(opts: Options, a: Answer)
      requires Valid() && queue != []
      modifies this
      ensures Valid() && View() == Step(old(View()), Runs(opts, a)) && begun == old(begun)
    {
      ghost var was := View();
      var job := queue[0];
      queue := queue[1..];
      match job {
        case StepJob(e) => OnEvent(e, opts, a);
        case DueJob(key, idleSince) => OnDue(key, idleSince, opts, a);
      }
      Record(was, Runs(opts, a));
    }

    /** `handle`. */
    method Handle(e: Event)
      requires Valid()
      modifies this
      ensures Valid() && View() == Step(old(View()), Arrives(e)) && begun == old(begun)
    {
      ghost var was := View();
      queue := queue + [StepJob(e)];
      Record(was, Arrives(e));
    }

    /** A deadline is past its time, and its job waits its turn behind the others. */
    method FallDue(key: Key)
      requires Valid() && key in waiting && waiting[key].dueAt <= now
      modifies this
      ensures Valid() && View() == Step(old(View()), FallsDue(key)) && begun == old(begun)
    {
      ghost var was := View();
      queue := queue + [DueJob(key, waiting[key].idleSince)];
      waiting := waiting - {key};
      Record(was, FallsDue(key));
    }

    /** `armFromStates`, for one row: a session that was idle before a restart, while its cache is alive. */
    method Restore(e: Event, opts: Options)
      requires Valid() && !stopped
      modifies this
      ensures Valid() && begun == old(begun)
      ensures View() == if e.key.Pane? && old(now) - e.at < opts.ttl then Step(old(View()), Restores(e, opts)) else old(View())
    {
      if e.key.Paneless? || now - e.at >= opts.ttl {
        return;
      }
      ghost var was := View();
      ArmKey(e, opts);
      Record(was, Restores(e, opts));
    }

    method Pass(ms: nat)
      requires Valid()
      modifies this
      ensures Valid() && View() == Step(old(View()), TimePasses(ms)) && begun == old(begun)
    {
      ghost var was := View();
      now := now + ms;
      Record(was, TimePasses(ms));
    }

    method ShutDown()
      requires Valid()
      modifies this
      ensures Valid() && View() == Step(old(View()), Stops) && begun == old(begun)
    {
      ghost var was := View();
      stopped := true;
      waiting, armedBy, questions := map[], map[], map[];
      Record(was, Stops);
    }
  }

  // ---- the follower ----

  const REFOLLOW_MIN_MS: nat := 1000
  const REFOLLOW_MAX_MS: nat := 300000

  datatype Life = Life(
    started: bool, stopped: bool, follower: bool, refollow: Option<nat>,
    refollowAfter: nat, followedAt: int, followedAfter: nat, heard: bool)

  datatype Turn =
    | Start(now: int, throws: bool)
    | Hears
    | Dies(now: int)
    | Again(now: int, throws: bool)
    | Stop(throws: bool)

  function Born(): Life {
    Life(false, false, false, None, REFOLLOW_MIN_MS, 0, 0, false)
  }

  function Double(ms: nat): nat {
    if ms * 2 < REFOLLOW_MAX_MS then ms * 2 else REFOLLOW_MAX_MS
  }

  function Soon(l: Life): Life {
    l.(refollow := Some(l.refollowAfter), refollowAfter := Double(l.refollowAfter))
  }

  function Followed(l: Life, precededBy: nat, now: int): Life {
    l.(follower := true, followedAt := now, followedAfter := precededBy, heard := false)
  }

  predicate CanTurn(l: Life, t: Turn) {
    match t
    case Hears => l.follower
    case Dies(_) => l.follower
    case Again(_, _) => l.refollow.Some?
    case _ => true
  }

  function Turned(l: Life, t: Turn): Life
    requires CanTurn(l, t)
  {
    match t
    case Start(now, throws) =>
      if l.stopped || l.follower || l.refollow.Some? || throws then l else Followed(l, 0, now).(started := true)
    case Hears => l.(heard := true)
    case Dies(now) =>
      if l.stopped then l.(follower := false)
      else Soon(l.(follower := false, refollowAfter := if l.heard || now - l.followedAt > l.followedAfter then REFOLLOW_MIN_MS else l.refollowAfter))
    case Again(now, throws) =>
      var fired := l.(refollow := None);
      if l.stopped then fired else if throws then Soon(fired) else Followed(fired, l.refollow.value, now)
    case Stop(_) => l.(stopped := true, follower := false, refollow := None)
  }

  predicate Turns(l: Life, ts: seq<Turn>)
    decreases |ts|
  {
    ts != [] ==> CanTurn(l, ts[0]) && Turns(Turned(l, ts[0]), ts[1..])
  }

  function Lived(l: Life, ts: seq<Turn>): Life
    requires Turns(l, ts)
    decreases |ts|
  {
    if ts == [] then l else Lived(Turned(l, ts[0]), ts[1..])
  }

  /** Once started and until stopped, exactly one of the follower and the timer that follows again is there. */
  predicate OneOfTwo(l: Life) {
    && (l.started && !l.stopped ==> (l.follower <==> l.refollow.None?))
    && (l.stopped || !l.started ==> !l.follower && l.refollow.None?)
    && REFOLLOW_MIN_MS <= l.refollowAfter <= REFOLLOW_MAX_MS
    && (l.refollow.Some? ==> REFOLLOW_MIN_MS <= l.refollow.value <= REFOLLOW_MAX_MS)
  }

  lemma {:induction false} StaysOneOfTwo(ts: seq<Turn>, l: Life)
    requires OneOfTwo(l) && Turns(l, ts)
    ensures OneOfTwo(Lived(l, ts))
    decreases |ts|
  {
    if ts != [] {
      StaysOneOfTwo(ts[1..], Turned(l, ts[0]));
    }
  }

  /** Over every life of an engine, follows and closes that throw included. */
  lemma AlwaysOneOfTwo(ts: seq<Turn>)
    requires Turns(Born(), ts)
    ensures OneOfTwo(Lived(Born(), ts))
  {
    StaysOneOfTwo(ts, Born());
  }

  function Power(n: nat): (r: nat)
    ensures r >= 1
  {
    if n == 0 then 1 else 2 * Power(n - 1)
  }

  /** A follow that fails as soon as it is tried again waits twice as long each time, up to five minutes. */
  lemma {:induction false} FailuresDouble(l: Life, ts: seq<Turn>)
    requires Turns(l, ts) && !l.stopped && l.refollow.Some?
    requires forall i :: 0 <= i < |ts| ==> ts[i].Again? && ts[i].throws
    ensures Lived(l, ts).refollow.Some? && !Lived(l, ts).stopped
    ensures REFOLLOW_MIN_MS <= l.refollowAfter <= REFOLLOW_MAX_MS ==>
              Lived(l, ts).refollowAfter == Capped(l.refollowAfter * Power(|ts|))
    decreases |ts|
  {
    if ts != [] {
      var t := Turned(l, ts[0]);
      FailuresDouble(t, ts[1..]);
      if REFOLLOW_MIN_MS <= l.refollowAfter <= REFOLLOW_MAX_MS {
        CappedTwice(l.refollowAfter, Power(|ts| - 1));
      }
    }
  }

  function Capped(ms: nat): nat {
    if ms < REFOLLOW_MAX_MS then ms else REFOLLOW_MAX_MS
  }

  lemma CappedTwice(ms: nat, p: nat)
    requires p >= 1
    ensures Capped(Double(ms) * p) == Capped(ms * (2 * p))
  {
    if ms * 2 < REFOLLOW_MAX_MS {
      assert Double(ms) * p == ms * (2 * p);
    } else {
      assert Double(ms) * p >= Double(ms) by { Grows(Double(ms), p); }
      assert ms * 2 * p >= ms * 2 by { Grows(ms * 2, p); }
      assert ms * (2 * p) == ms * 2 * p;
    }
  }

  lemma Grows(a: nat, p: nat)
    requires p >= 1
    ensures a * p >= a
  {
  }
}
