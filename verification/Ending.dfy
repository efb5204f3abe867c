/** `Stop`: the token that tells calls to end, shared by threads that stop it and threads that watch it. */
module Ending {

  /** The state under the lock, the watchers that each thread has taken out of it to run, and those that ran. */
  datatype State = State(stopped: bool, watchers: seq<nat>, taken: seq<seq<nat>>, ran: seq<nat>)

  /** What a thread does in one piece: with the lock, or one watcher outside of it. */
  datatype Step =
    | Stop(thread: nat)
    | Watch(thread: nat, watcher: nat)
    | Call(thread: nat)

  function Begin(threads: nat): State {
    State(false, [], Empty(threads), [])
  }

  function Empty(threads: nat): (r: seq<seq<nat>>)
    ensures |r| == threads && forall k :: 0 <= k < threads ==> r[k] == []
  {
    if threads == 0 then [] else Empty(threads - 1) + [[]]
  }

  /** A watcher runs outside of the lock, so it may itself stop the token or give it another watcher, which runs before those its thread had taken. */
  predicate Enabled(s: State, t: Step) {
    t.thread < |s.taken| && (t.Call? ==> s.taken[t.thread] != [])
  }

  function Next(s: State, t: Step): State
    requires Enabled(s, t)
  {
    match t
    case Stop(thread) => s.(stopped := true, watchers := [], taken := s.taken[thread := s.watchers + s.taken[thread]])
    case Watch(thread, watcher) =>
      if s.stopped then s.(taken := s.taken[thread := [watcher] + s.taken[thread]]) else s.(watchers := s.watchers + [watcher])
    case Call(thread) => s.(taken := s.taken[thread := s.taken[thread][1..]], ran := s.ran + [s.taken[thread][0]])
  }

  predicate Possible(s: State, ts: seq<Step>)
    decreases |ts|
  {
    ts != [] ==> Enabled(s, ts[0]) && Possible(Next(s, ts[0]), ts[1..])
  }

  function Run(s: State, ts: seq<Step>): State
    requires Possible(s, ts)
    decreases |ts|
  {
    if ts == [] then s else Run(Next(s, ts[0]), ts[1..])
  }

  /** How often a watcher was given to the token. */
  function Given(ts: seq<Step>, w: nat): nat {
    if ts == [] then 0 else (if ts[0].Watch? && ts[0].watcher == w then 1 else 0) + Given(ts[1..], w)
  }

  function Count(ws: seq<nat>, w: nat): nat {
    if ws == [] then 0 else (if ws[0] == w then 1 else 0) + Count(ws[1..], w)
  }

  /** How often the threads still have to run it. */
  function Due(taken: seq<seq<nat>>, w: nat): nat {
    if taken == [] then 0 else Count(taken[0], w) + Due(taken[1..], w)
  }

  lemma {:induction false} DueSet(taken: seq<seq<nat>>, k: nat, ws: seq<nat>, w: nat)
    requires k < |taken|
    ensures Due(taken[k := ws], w) + Count(taken[k], w) == Due(taken, w) + Count(ws, w)
    decreases |taken|
  {
    if k > 0 {
      DueSet(taken[1..], k - 1, ws, w);
      assert taken[k := ws][1..] == taken[1..][k - 1 := ws];
    } else {
      assert taken[k := ws][1..] == taken[1..];
    }
  }

  lemma {:induction false} CountSnoc(ws: seq<nat>, x: nat, w: nat)
    ensures Count(ws + [x], w) == Count(ws, w) + (if x == w then 1 else 0)
  {
    if ws != [] {
      CountSnoc(ws[1..], x, w);
      assert (ws + [x])[1..] == ws[1..] + [x];
    } else {
      assert [x][1..] == [];
    }
  }

  lemma {:induction false} CountConcat(a: seq<nat>, b: seq<nat>, w: nat)
    ensures Count(a + b, w) == Count(a, w) + Count(b, w)
  {
    if a == [] {
      assert a + b == b;
    } else {
      CountConcat(a[1..], b, w);
      assert (a + b)[1..] == a[1..] + b;
    }
  }

  /** However often a watcher is somewhere: kept, taken to run, or run. */
  function All(s: State, w: nat): nat {
    Count(s.watchers, w) + Due(s.taken, w) + Count(s.ran, w)
  }

  /** Every watcher given is kept, taken to run or has run: none is lost and none is there twice. */
  lemma StepConserves(s: State, t: Step, w: nat)
    requires Enabled(s, t) && (s.stopped ==> s.watchers == [])
    ensures All(Next(s, t), w) == All(s, w) + (if t.Watch? && t.watcher == w then 1 else 0)
    ensures Next(s, t).stopped ==> Next(s, t).watchers == []
  {
    match t
    case Stop(thread) =>
      DueSet(s.taken, thread, s.watchers + s.taken[thread], w);
      CountConcat(s.watchers, s.taken[thread], w);
    case Watch(thread, watcher) =>
      DueSet(s.taken, thread, [watcher] + s.taken[thread], w);
      CountConcat([watcher], s.taken[thread], w);
      CountSnoc(s.watchers, watcher, w);
      assert [watcher][1..] == [];
    case Call(thread) =>
      DueSet(s.taken, thread, s.taken[thread][1..], w);
      CountSnoc(s.ran, s.taken[thread][0], w);
  }

  lemma {:induction false} RunConserves(s: State, ts: seq<Step>, w: nat)
    requires Possible(s, ts) && (s.stopped ==> s.watchers == [])
    ensures All(Run(s, ts), w) == All(s, w) + Given(ts, w)
    ensures Run(s, ts).stopped ==> Run(s, ts).watchers == []
    decreases |ts|
  {
    if ts != [] {
      StepConserves(s, ts[0], w);
      RunConserves(Next(s, ts[0]), ts[1..], w);
    }
  }

  lemma {:induction false} NothingDue(taken: seq<seq<nat>>, w: nat)
    requires forall k :: 0 <= k < |taken| ==> taken[k] == []
    ensures Due(taken, w) == 0
  {
    if taken != [] {
      NothingDue(taken[1..], w);
    }
  }

  /** Every thread has run what it took. */
  predicate Through(s: State) {
    forall k :: 0 <= k < |s.taken| ==> s.taken[k] == []
  }

  /** Under any interleaving of stops and watches, those of the watchers themselves included: if the stop has come, then once the threads are through each watcher has run exactly once. */
  lemma EachRunsOnce(threads: nat, ts: seq<Step>, w: nat)
    requires Possible(Begin(threads), ts) && Run(Begin(threads), ts).stopped && Through(Run(Begin(threads), ts))
    ensures Count(Run(Begin(threads), ts).ran, w) == Given(ts, w)
  {
    RunConserves(Begin(threads), ts, w);
    NothingDue(Begin(threads).taken, w);
    NothingDue(Run(Begin(threads), ts).taken, w);
  }

  /** Without a stop none of them runs. */
  lemma {:induction false} NoneWithoutAStop(s: State, ts: seq<Step>)
    requires Possible(s, ts) && !s.stopped && Through(s)
    requires forall k :: 0 <= k < |ts| ==> !ts[k].Stop?
    ensures Run(s, ts).ran == s.ran
    decreases |ts|
  {
    if ts != [] {
      NoneWithoutAStop(Next(s, ts[0]), ts[1..]);
    }
  }

  /** The token, as one thread uses it while no other is inside, with watchers that leave it alone. */
  class StopToken {
    var stopped: bool
    var watchers: seq<nat>
    var ran: seq<nat>

    ghost predicate Valid()
      reads this
    {
      stopped ==> watchers == []
    }

    constructor ()
      ensures Valid() && !stopped && watchers == [] && ran == []
    {
      stopped, watchers, ran := false, [], [];
    }

    /** `stop`: idempotent, and it runs the watchers in the order they came. */
    method Stop()
      requires Valid()
      modifies this
      ensures Valid() && stopped && watchers == [] && ran == old(ran) + old(watchers)
    {
      var taken := watchers;
      stopped, watchers := true, [];
      for k := 0 to |taken|
        invariant stopped && watchers == [] && ran == old(ran) + taken[..k]
      {
        ran := ran + [taken[k]];
        assert taken[..k + 1] == taken[..k] + [taken[k]];
      }
      assert taken[..|taken|] == taken;
    }

    /** `watch`: kept until the stop comes, run at once when it has come. */
    method Watch(watcher: nat)
      requires Valid()
      modifies this
      ensures Valid() && stopped == old(stopped)
      ensures if stopped then ran == old(ran) + [watcher] else ran == old(ran) && watchers == old(watchers) + [watcher]
    {
      if stopped {
        ran := ran + [watcher];
      } else {
        watchers := watchers + [watcher];
      }
    }
  }
}
