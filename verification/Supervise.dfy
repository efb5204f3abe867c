/** `supervise`: one call followed to its end, on whatever order its stop, its pipes, its exit and its deadlines come in. */
module Supervise {
  import opened Common

  const DRAIN_STEP: nat := 10
  const READER_WAIT: nat := 2000

  datatype Policy = Policy(timeout: nat, killGrace: Option<nat>, drain: nat)

  datatype Stream = Out | Err

  datatype Reason = Timeout | Cancelled

  datatype Signal = Term | Kill

  datatype Exit = Exit(code: Option<int>, at: nat)

  datatype Event =
    | Stop
    | Eof(stream: Stream)
    | Exited(code: Option<int>)
    /** Nothing came by the deadline; whether a pipe is readable then. */
    | Elapsed(readable: bool)
    | Disconnected

  /** An event, and what the clock says when it is handled. */
  datatype Arrival = Arrival(event: Event, now: nat)

  datatype State = State(
    reason: Option<Reason>, exited: Option<Exit>, deadline: Option<nat>,
    open: set<Stream>, over: bool, signals: seq<(Signal, nat)>)

  function Begin(p: Policy, start: nat): State {
    State(None, None, Some(start + p.timeout), {Out, Err}, false, [])
  }

  /** SIGTERM and then the grace, or SIGKILL with nothing to wait for but the exit. */
  function Stopping(p: Policy, s: State, why: Reason, now: nat): State {
    match p.killGrace
    case Some(grace) => s.(reason := Some(why), signals := s.signals + [(Term, now)], deadline := Some(now + grace))
    case None => s.(reason := Some(why), signals := s.signals + [(Kill, now)], deadline := None)
  }

  /** The last moment that an exit at that time is waited on. */
  function Bound(p: Policy, at: nat): nat {
    at + p.drain + if p.killGrace.Some? then p.killGrace.value else READER_WAIT
  }

  function Min(a: nat, b: nat): nat {
    if a < b then a else b
  }

  function Step(p: Policy, s: State, a: Arrival): State {
    match a.event
    case Stop => if s.exited.None? && s.reason.None? then Stopping(p, s, Cancelled, a.now) else s
    case Eof(stream) =>
      var left := s.open - {stream};
      s.(open := left, over := left == {} && s.exited.Some?)
    case Exited(code) =>
      s.(exited := Some(Exit(code, a.now)), signals := s.signals + [(Kill, a.now)],
         over := s.open == {}, deadline := if s.open == {} then s.deadline else Some(a.now + p.drain))
    case Elapsed(readable) =>
      if s.exited.Some? then
        var bound := Bound(p, s.exited.value.at);
        if s.reason.Some? || a.now >= bound || !readable then s.(over := true)
        else s.(deadline := Some(Min(a.now + DRAIN_STEP, bound)))
      else if s.reason.None? then Stopping(p, s, Timeout, a.now)
      else s.(signals := s.signals + [(Kill, a.now)], deadline := None)
    case Disconnected => s.(over := true)
  }

  /** The program exits once, a pipe ends once, and a deadline elapses when it is past. */
  predicate Enabled(s: State, a: Arrival) {
    && !s.over
    && match a.event
       case Eof(stream) => stream in s.open
       case Exited(_) => s.exited.None?
       case Elapsed(_) => s.deadline.Some? && s.deadline.value <= a.now
       case _ => true
  }

  predicate Possible(p: Policy, s: State, arrivals: seq<Arrival>)
    decreases |arrivals|
  {
    arrivals != [] ==> Enabled(s, arrivals[0]) && Possible(p, Step(p, s, arrivals[0]), arrivals[1..])
  }

  function Run(p: Policy, s: State, arrivals: seq<Arrival>): State
    decreases |arrivals|
  {
    if arrivals == [] then s else Run(p, Step(p, s, arrivals[0]), arrivals[1..])
  }

  // ---- what every step keeps ----

  predicate Kept(p: Policy, s: State) {
    && (s.exited.Some? ==> s.signals != [] && s.signals[|s.signals| - 1] == (Kill, s.exited.value.at))
    && (s.exited.Some? && !s.over ==>
          && s.open != {} && s.deadline.Some?
          && s.exited.value.at + p.drain <= s.deadline.value <= Bound(p, s.exited.value.at))
    && (s.exited.None? && s.reason.None? ==> s.signals == [] && s.deadline.Some?)
    && (s.exited.None? && s.reason.Some? && !s.over ==>
          && s.signals != []
          && (s.deadline.Some? ==> p.killGrace.Some? && |s.signals| == 1 && s.signals[0].0 == Term
                                    && s.deadline.value == s.signals[0].1 + p.killGrace.value)
          && (s.deadline.None? ==> s.signals[|s.signals| - 1].0 == Kill))
  }

  lemma StepKeeps(p: Policy, s: State, a: Arrival)
    requires Kept(p, s) && Enabled(s, a)
    ensures Kept(p, Step(p, s, a))
  {
  }

  lemma {:induction false} RunKeeps(p: Policy, s: State, arrivals: seq<Arrival>)
    requires Kept(p, s) && Possible(p, s, arrivals)
    ensures Kept(p, Run(p, s, arrivals))
    decreases |arrivals|
  {
    if arrivals != [] {
      StepKeeps(p, s, arrivals[0]);
      RunKeeps(p, Step(p, s, arrivals[0]), arrivals[1..]);
    }
  }

  /** The reason is set at most once and never after the exit, and after the exit nothing more is signalled: the process group is no longer the call's. */
  lemma {:induction false} SetOnce(p: Policy, s: State, arrivals: seq<Arrival>)
    requires Possible(p, s, arrivals)
    ensures var t := Run(p, s, arrivals);
            && (s.reason.Some? || s.exited.Some? ==> t.reason == s.reason)
            && (s.exited.Some? ==> t.exited == s.exited && t.signals == s.signals)
    decreases |arrivals|
  {
    if arrivals != [] {
      SetOnce(p, Step(p, s, arrivals[0]), arrivals[1..]);
    }
  }

  /** In every run SIGKILL is the last thing the group gets, at the moment of the exit. */
  lemma KilledAtTheExit(p: Policy, start: nat, arrivals: seq<Arrival>)
    requires Possible(p, Begin(p, start), arrivals)
    ensures var s := Run(p, Begin(p, start), arrivals);
            s.exited.Some? ==> s.signals != [] && s.signals[|s.signals| - 1] == (Kill, s.exited.value.at)
  {
    RunKeeps(p, Begin(p, start), arrivals);
  }

  /** A program that is being stopped and has not exited has been killed, or its grace is running. */
  lemma StoppedIsKilled(p: Policy, start: nat, arrivals: seq<Arrival>)
    requires Possible(p, Begin(p, start), arrivals)
    ensures var s := Run(p, Begin(p, start), arrivals);
            s.exited.None? && s.reason.Some? && !s.over ==>
              && s.signals != []
              && (s.signals[|s.signals| - 1].0 == Kill
                  || (p.killGrace.Some? && s.deadline == Some(s.signals[0].1 + p.killGrace.value)))
  {
    RunKeeps(p, Begin(p, start), arrivals);
  }

  // ---- what a call comes to, told by what arrived ----

  /** The first of a stop and a deadline, if it came before the exit. */
  function ReasonOf(arrivals: seq<Arrival>): Option<Reason> {
    if arrivals == [] then None
    else
      match arrivals[0].event
      case Stop => Some(Cancelled)
      case Elapsed(_) => Some(Timeout)
      case Exited(_) => None
      case _ => ReasonOf(arrivals[1..])
  }

  /** The exit, and when it was seen. */
  function ExitOf(arrivals: seq<Arrival>): Option<Exit> {
    if arrivals == [] then None
    else if arrivals[0].event.Exited? then Some(Exit(arrivals[0].event.code, arrivals[0].now))
    else ExitOf(arrivals[1..])
  }

  /** The pipes that have ended. */
  function EndedOf(arrivals: seq<Arrival>): set<Stream> {
    if arrivals == [] then {}
    else (if arrivals[0].event.Eof? then {arrivals[0].event.stream} else {}) + EndedOf(arrivals[1..])
  }

  lemma {:induction false} RunTells(p: Policy, s: State, arrivals: seq<Arrival>)
    requires Possible(p, s, arrivals)
    ensures var t := Run(p, s, arrivals);
            && t.reason == (if s.reason.Some? || s.exited.Some? then s.reason else ReasonOf(arrivals))
            && t.exited == (if s.exited.Some? then s.exited else ExitOf(arrivals))
            && t.open == s.open - EndedOf(arrivals)
    decreases |arrivals|
  {
    if arrivals != [] {
      RunTells(p, Step(p, s, arrivals[0]), arrivals[1..]);
    }
  }

  lemma {:induction false} RunConcat(p: Policy, s: State, a: seq<Arrival>, b: seq<Arrival>)
    ensures Possible(p, s, a + b) <==> Possible(p, s, a) && Possible(p, Run(p, s, a), b)
    ensures Run(p, s, a + b) == Run(p, Run(p, s, a), b)
    decreases |a|
  {
    if a == [] {
      assert a + b == b;
    } else {
      assert (a + b)[1..] == a[1..] + b;
      RunConcat(p, Step(p, s, a[0]), a[1..], b);
    }
  }

  lemma RunOne(p: Policy, s: State, a: Arrival)
    ensures Possible(p, s, [a]) <==> Enabled(s, a)
    ensures Run(p, s, [a]) == Step(p, s, a)
  {
    assert [a][1..] == [];
  }

  /**
   In every run the call ends with the first reason to stop it and the exit of its program; and one that ends after the exit, with the channel still
   connected, ends when both pipes have, or once the drain is over and it had stopped the program itself, no pipe is readable, or the bound has come.
   */
  lemma HowACallEnds(p: Policy, start: nat, arrivals: seq<Arrival>)
    requires Possible(p, Begin(p, start), arrivals)
    ensures var s := Run(p, Begin(p, start), arrivals);
            && s.reason == ReasonOf(arrivals) && s.exited == ExitOf(arrivals)
            && (s.over && ExitOf(arrivals).Some? && arrivals[|arrivals| - 1].event != Disconnected ==>
                  var last, at := arrivals[|arrivals| - 1], ExitOf(arrivals).value.at;
                  || EndedOf(arrivals) == {Out, Err}
                  || (&& last.event.Elapsed? && at + p.drain <= last.now
                      && (ReasonOf(arrivals).Some? || !last.event.readable || Bound(p, at) <= last.now)))
  {
    var b := Begin(p, start);
    RunTells(p, b, arrivals);
    if arrivals != [] {
      var n := |arrivals| - 1;
      var before, last := arrivals[..n], arrivals[n];
      assert arrivals == before + [last];
      RunConcat(p, b, before, [last]);
      RunOne(p, Run(p, b, before), last);
      RunKeeps(p, b, before);
      if Run(p, b, arrivals).over && ExitOf(arrivals).Some? && last.event != Disconnected {
        LastEnds(p, Run(p, b, before), last);
        if Run(p, b, arrivals).open == {} {
          EndedIsBoth(EndedOf(arrivals));
        }
      }
    }
  }

  lemma EndedIsBoth(ended: set<Stream>)
    requires {Out, Err} - ended == {}
    ensures ended == {Out, Err}
  {
    assert Out in ended || Out in {Out, Err} - ended;
    assert Err in ended || Err in {Out, Err} - ended;
    forall x: Stream | x in ended
      ensures x in {Out, Err}
    {
      match x
      case Out =>
      case Err =>
    }
  }

  lemma LastEnds(p: Policy, s: State, a: Arrival)
    requires Kept(p, s) && Enabled(s, a) && Step(p, s, a).over && Step(p, s, a).exited.Some? && a.event != Disconnected
    ensures var t := Step(p, s, a);
            var at := t.exited.value.at;
            t.open == {} || (a.event.Elapsed? && at + p.drain <= a.now && (t.reason.Some? || !a.event.readable || Bound(p, at) <= a.now))
  {
  }

  // ---- on time ----

  /** Nothing comes after the deadline, and the deadline elapses at its moment. */
  predicate OnTime(p: Policy, s: State, arrivals: seq<Arrival>)
    decreases |arrivals|
  {
    arrivals != [] ==>
      var a := arrivals[0];
      && (s.deadline.Some? ==> a.now <= s.deadline.value)
      && OnTime(p, Step(p, s, a), arrivals[1..])
  }

  /** Nothing after the exit is handled past the bound, and a deadline that elapses there ends the call. */
  lemma {:induction false} NothingAfterTheBound(p: Policy, s: State, arrivals: seq<Arrival>)
    requires Kept(p, s) && s.exited.Some? && Possible(p, s, arrivals) && OnTime(p, s, arrivals)
    ensures forall k :: 0 <= k < |arrivals| ==> arrivals[k].now <= Bound(p, s.exited.value.at)
    ensures forall k :: 0 <= k < |arrivals| && arrivals[k].event.Elapsed? && arrivals[k].now == Bound(p, s.exited.value.at) ==> k == |arrivals| - 1
    decreases |arrivals|
  {
    if arrivals != [] {
      var t := Step(p, s, arrivals[0]);
      StepKeeps(p, s, arrivals[0]);
      NothingAfterTheBound(p, t, arrivals[1..]);
      forall k | 0 <= k < |arrivals|
        ensures arrivals[k].now <= Bound(p, s.exited.value.at)
        ensures arrivals[k].event.Elapsed? && arrivals[k].now == Bound(p, s.exited.value.at) ==> k == |arrivals| - 1
      {
        if k > 0 {
          assert arrivals[k] == arrivals[1..][k - 1];
        }
      }
    }
  }

  lemma {:induction false} OnTimeRest(p: Policy, s: State, a: seq<Arrival>, b: seq<Arrival>)
    requires OnTime(p, s, a + b)
    ensures OnTime(p, Run(p, s, a), b)
    decreases |a|
  {
    if a == [] {
      assert a + b == b;
    } else {
      assert (a + b)[1..] == a[1..] + b;
      OnTimeRest(p, Step(p, s, a[0]), a[1..], b);
    }
  }

  /** Over every run with deadlines that elapse at their moment: the call waits at most the drain and the grace past the exit, and a deadline that elapses then ends it. */
  lemma OverInTime(p: Policy, start: nat, before: seq<Arrival>, exit: Arrival, rest: seq<Arrival>)
    requires exit.event.Exited? && Possible(p, Begin(p, start), before + ([exit] + rest)) && OnTime(p, Begin(p, start), before + ([exit] + rest))
    ensures forall k :: 0 <= k < |rest| ==> rest[k].now <= Bound(p, exit.now)
    ensures forall k :: 0 <= k < |rest| && rest[k].event.Elapsed? && rest[k].now == Bound(p, exit.now) ==>
              k == |rest| - 1 && Run(p, Begin(p, start), before + ([exit] + rest)).over
  {
    var b := Begin(p, start);
    RunConcat(p, b, before, [exit] + rest);
    var s := Run(p, b, before);
    RunConcat(p, s, [exit], rest);
    RunOne(p, s, exit);
    RunKeeps(p, b, before);
    StepKeeps(p, s, exit);
    OnTimeRest(p, b, before, [exit] + rest);
    OnTimeRest(p, s, [exit], rest);
    NothingAfterTheBound(p, Step(p, s, exit), rest);
    AtTheBoundItEnds(p, Step(p, s, exit), rest);
  }

  lemma {:induction false} AtTheBoundItEnds(p: Policy, s: State, arrivals: seq<Arrival>)
    requires s.exited.Some? && Possible(p, s, arrivals)
    ensures arrivals != [] && arrivals[|arrivals| - 1].event.Elapsed? && arrivals[|arrivals| - 1].now == Bound(p, s.exited.value.at) ==>
              Run(p, s, arrivals).over
    decreases |arrivals|
  {
    if |arrivals| == 1 {
      assert arrivals[1..] == [];
    } else if arrivals != [] {
      AtTheBoundItEnds(p, Step(p, s, arrivals[0]), arrivals[1..]);
    }
  }

  /** And it does end: as long as it is not over, the deadline is on its way to the bound. */
  lemma {:induction false} SomethingElapses(p: Policy, s: State, now: nat)
    requires Kept(p, s) && s.exited.Some? && !s.over && now <= s.deadline.value
    ensures exists arrivals :: Possible(p, s, arrivals) && OnTime(p, s, arrivals) && Run(p, s, arrivals).over
    decreases Bound(p, s.exited.value.at) - s.deadline.value
  {
    var a := Arrival(Elapsed(true), s.deadline.value);
    var t := Step(p, s, a);
    StepKeeps(p, s, a);
    if t.over {
      assert [a][1..] == [];
      assert Possible(p, s, [a]) && OnTime(p, s, [a]) && Run(p, s, [a]).over;
    } else {
      SomethingElapses(p, t, a.now);
      var rest :| Possible(p, t, rest) && OnTime(p, t, rest) && Run(p, t, rest).over;
      var all := [a] + rest;
      assert all[1..] == rest;
      assert Possible(p, s, all) && OnTime(p, s, all) && Run(p, s, all).over;
    }
  }

  datatype Ended = Ended(reason: Option<Reason>, code: Option<int>)

  /** The loop, over what arrives; a channel that has nothing more to give is disconnected. */
  method Follow(p: Policy, start: nat, arrivals: seq<Arrival>) returns (ended: Ended, signals: seq<(Signal, nat)>, handled: nat)
    requires Possible(p, Begin(p, start), arrivals)
    ensures handled <= |arrivals|
    ensures var s := Run(p, Begin(p, start), arrivals[..handled]);
            && (handled < |arrivals| ==> s.over)
            && ended == Ended(s.reason, if s.exited.Some? then s.exited.value.code else None) && signals == s.signals
  {
    var reason: Option<Reason> := None;
    var exited: Option<Exit> := None;
    var deadline: Option<nat> := Some(start + p.timeout);
    var open := {Out, Err};
    signals, handled := [], 0;
    ghost var s := Begin(p, start);
    while handled < |arrivals|
      invariant handled <= |arrivals| && !s.over
      invariant s == State(reason, exited, deadline, open, false, signals)
      invariant s == Run(p, Begin(p, start), arrivals[..handled])
      invariant Possible(p, s, arrivals[handled..])
    {
      var a := arrivals[handled];
      OneMore(p, Begin(p, start), arrivals, handled);
      assert arrivals[handled..][1..] == arrivals[handled + 1..];
      s := Step(p, s, a);
      handled := handled + 1;
      match a.event {
        case Stop =>
          if exited.None? && reason.None? {
            reason := Some(Cancelled);
            deadline, signals := StopGroup(p, signals, a.now);
          }
        case Eof(stream) =>
          open := open - {stream};
          if open == {} && exited.Some? {
            break;
          }
        case Exited(code) =>
          exited := Some(Exit(code, a.now));
          signals := signals + [(Kill, a.now)];
          if open == {} {
            break;
          }
          deadline := Some(a.now + p.drain);
        case Elapsed(readable) =>
          if exited.Some? {
            var bound := exited.value.at + p.drain + if p.killGrace.Some? then p.killGrace.value else READER_WAIT;
            if reason.Some? || a.now >= bound || !readable {
              break;
            }
            deadline := Some(if a.now + DRAIN_STEP < bound then a.now + DRAIN_STEP else bound);
          } else if reason.None? {
            reason := Some(Timeout);
            deadline, signals := StopGroup(p, signals, a.now);
          } else {
            signals, deadline := signals + [(Kill, a.now)], None;
          }
        case Disconnected => break;
      }
    }
    assert handled == |arrivals| ==> arrivals[..handled] == arrivals;
    ended := Ended(reason, if exited.Some? then exited.value.code else None);
  }

  lemma {:induction false} OneMore(p: Policy, s: State, arrivals: seq<Arrival>, k: nat)
    requires k < |arrivals|
    ensures Run(p, s, arrivals[..k + 1]) == Step(p, Run(p, s, arrivals[..k]), arrivals[k])
    decreases k
  {
    if k == 0 {
      assert arrivals[..1][1..] == [] && arrivals[..0] == [];
    } else {
      OneMore(p, Step(p, s, arrivals[0]), arrivals[1..], k - 1);
      assert arrivals[..k + 1][1..] == arrivals[1..][..k];
      assert arrivals[..k][1..] == arrivals[1..][..k - 1];
    }
  }

  /** `stopping`. */
  method StopGroup(p: Policy, before: seq<(Signal, nat)>, now: nat) returns (deadline: Option<nat>, signals: seq<(Signal, nat)>)
    ensures signals == before + [(if p.killGrace.Some? then Term else Kill, now)]
    ensures deadline == if p.killGrace.Some? then Some(now + p.killGrace.value) else None
  {
    match p.killGrace
    case Some(grace) => deadline, signals := Some(now + grace), before + [(Term, now)];
    case None => deadline, signals := None, before + [(Kill, now)];
  }
}
