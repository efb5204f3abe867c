/** `TurnScope`: the timers and listeners of one turn, owned in one place. */
module TurnScope {
  import opened Common

  datatype Handle = Timer(id: nat) | Listener(id: nat) | Release(id: nat)

  /** What the scope owns, in the order it was handed out, with the clock and the signals it hands to. */
  datatype State = State(
    closed: bool, owned: seq<Handle>, next: nat,
    pending: set<nat>, listening: set<nat>, ran: seq<nat>, released: seq<nat>)

  datatype Happening =
    | After
    | Cancel(id: nat)
    | Fire(id: nat)
    | OnAbort
    | Aborted(id: nat)
    | Own(id: nat)
    | Dispose

  function Begin(): State {
    State(false, [], 0, {}, {}, [], [])
  }

  function Without(owned: seq<Handle>, h: Handle): seq<Handle> {
    if owned == [] then []
    else Without(owned[..|owned| - 1], h) + (if owned[|owned| - 1] == h then [] else [owned[|owned| - 1]])
  }

  function Releases(owned: seq<Handle>): seq<nat> {
    if owned == [] then []
    else Releases(owned[..|owned| - 1]) + (if owned[|owned| - 1].Release? then [owned[|owned| - 1].id] else [])
  }

  /** The clock fires only what is pending, a signal calls only who listens. */
  predicate Enabled(s: State, h: Happening) {
    match h
    case Fire(id) => id in s.pending
    case Aborted(id) => id in s.listening
    case _ => true
  }

  function Step(s: State, h: Happening): State {
    match h
    case After =>
      if s.closed then s else s.(owned := s.owned + [Timer(s.next)], pending := s.pending + {s.next}, next := s.next + 1)
    case Cancel(id) => s.(owned := Without(s.owned, Timer(id)), pending := s.pending - {id})
    case Fire(id) =>
      s.(owned := Without(s.owned, Timer(id)), pending := s.pending - {id}, ran := if s.closed then s.ran else s.ran + [id])
    case OnAbort =>
      if s.closed then s else s.(owned := s.owned + [Listener(s.next)], listening := s.listening + {s.next}, next := s.next + 1)
    case Aborted(id) => s.(listening := s.listening - {id}, ran := s.ran + [id])
    case Own(id) =>
      if s.closed then s.(released := s.released + [id])
      else if Release(id) in s.owned then s
      else s.(owned := s.owned + [Release(id)])
    case Dispose =>
      if s.closed then s
      else s.(closed := true, owned := [], pending := {}, listening := {}, released := s.released + Releases(s.owned))
  }

  predicate Possible(s: State, hs: seq<Happening>)
    decreases |hs|
  {
    hs != [] ==> Enabled(s, hs[0]) && Possible(Step(s, hs[0]), hs[1..])
  }

  function Run(s: State, hs: seq<Happening>): State
    decreases |hs|
  {
    if hs == [] then s else Run(Step(s, hs[0]), hs[1..])
  }

  /** The timers pending are those owned, and nobody listens but who is owned; a disposed scope owns nothing. */
  ghost predicate Kept(s: State) {
    && (forall id :: id in s.pending <==> Timer(id) in s.owned)
    && (forall id :: id in s.listening ==> Listener(id) in s.owned)
    && (forall h :: h in s.owned && !h.Release? ==> h.id < s.next)
    && (s.closed ==> s.owned == [])
  }

  lemma {:induction false} WithoutKeeps(owned: seq<Handle>, h: Handle)
    ensures forall g :: g in Without(owned, h) <==> g in owned && g != h
  {
    if owned != [] {
      var init, last := owned[..|owned| - 1], owned[|owned| - 1];
      WithoutKeeps(init, h);
      assert owned == init + [last];
    }
  }

  lemma StepKeeps(s: State, h: Happening)
    requires Kept(s) && Enabled(s, h)
    ensures Kept(Step(s, h))
  {
    match h
    case Cancel(id) => WithoutKeeps(s.owned, Timer(id));
    case Fire(id) => WithoutKeeps(s.owned, Timer(id));
    case _ =>
  }

  lemma {:induction false} RunKeeps(s: State, hs: seq<Happening>)
    requires Kept(s) && Possible(s, hs)
    ensures Kept(Run(s, hs))
    decreases |hs|
  {
    if hs != [] {
      StepKeeps(s, hs[0]);
      RunKeeps(Step(s, hs[0]), hs[1..]);
    }
  }

  /** After the dispose nothing is owned, nothing is pending and nothing runs any more, whatever is asked of the scope. */
  lemma {:induction false} DisposedIsSilent(s: State, hs: seq<Happening>)
    requires Kept(s) && s.closed && Possible(s, hs)
    ensures var after := Run(s, hs);
            after.closed && after.owned == [] && after.pending == {} && after.listening == {} && after.ran == s.ran
    decreases |hs|
  {
    assert s.pending == {} && s.listening == {};
    if hs != [] {
      assert Without([], Timer(0)) == [];
      StepKeeps(s, hs[0]);
      DisposedIsSilent(Step(s, hs[0]), hs[1..]);
    }
  }

  lemma ReleasesSnoc(owned: seq<Handle>, h: Handle)
    ensures Releases(owned + [h]) == Releases(owned) + (if h.Release? then [h.id] else [])
  {
    assert (owned + [h])[..|owned|] == owned;
  }

  /** What the scope was given to release: until the dispose one thing given twice is one, and after it each is released as it comes. */
  function Owned(hs: seq<Happening>): seq<nat> {
    if hs == [] then []
    else
      var init, last := hs[..|hs| - 1], hs[|hs| - 1];
      if last.Own? && (Dispose in init || last.id !in Owned(init)) then Owned(init) + [last.id] else Owned(init)
  }

  lemma {:induction false} ReleasesHas(owned: seq<Handle>, id: nat)
    ensures id in Releases(owned) <==> Release(id) in owned
  {
    if owned != [] {
      var init, last := owned[..|owned| - 1], owned[|owned| - 1];
      ReleasesHas(init, id);
      assert owned == init + [last];
    }
  }

  lemma {:induction false} WithoutReleases(owned: seq<Handle>, id: nat)
    ensures Releases(Without(owned, Timer(id))) == Releases(owned)
  {
    if owned != [] {
      var init, last := owned[..|owned| - 1], owned[|owned| - 1];
      WithoutReleases(init, id);
      var kept := Without(init, Timer(id));
      assert kept + [] == kept && Releases(init) + [] == Releases(init);
      ReleasesSnoc(kept, last);
    }
  }

  lemma StepReleases(s: State, h: Happening)
    requires s.closed ==> s.owned == []
    ensures var after := Step(s, h);
            && after.released + Releases(after.owned)
               == s.released + Releases(s.owned) + (if h.Own? && (s.closed || Release(h.id) !in s.owned) then [h.id] else [])
            && (after.closed ==> after.owned == [])
  {
    match h
    case After => ReleasesSnoc(s.owned, Timer(s.next));
    case OnAbort => ReleasesSnoc(s.owned, Listener(s.next));
    case Own(id) => ReleasesSnoc(s.owned, Release(id));
    case Cancel(id) => WithoutReleases(s.owned, id);
    case Fire(id) => WithoutReleases(s.owned, id);
    case _ =>
  }

  /** Everything it was given to release is released once, in order, and by the dispose and not before it. */
  lemma {:induction false} ReleasedOnce(hs: seq<Happening>)
    ensures var s := Run(Begin(), hs);
            && s.released + Releases(s.owned) == Owned(hs)
            && (s.closed <==> Dispose in hs)
            && (if s.closed then s.owned == [] && s.released == Owned(hs) else s.released == [])
    decreases |hs|
  {
    if hs == [] {
      assert Run(Begin(), hs) == Begin();
    } else {
      var init, last := hs[..|hs| - 1], hs[|hs| - 1];
      ReleasedOnce(init);
      RunSnoc(Begin(), init, last);
      assert hs == init + [last];
      StepReleases(Run(Begin(), init), last);
      if last.Own? {
        ReleasesHas(Run(Begin(), init).owned, last.id);
      }
      assert [] + Releases(Run(Begin(), init).owned) == Releases(Run(Begin(), init).owned);
      var s := Run(Begin(), hs);
      assert s.closed ==> s.released + [] == s.released;
    }
  }

  lemma {:induction false} RunSnoc(s: State, hs: seq<Happening>, h: Happening)
    ensures Run(s, hs + [h]) == Step(Run(s, hs), h)
    decreases |hs|
  {
    if hs == [] {
      assert [h][1..] == [];
    } else {
      assert (hs + [h])[1..] == hs[1..] + [h];
      RunSnoc(Step(s, hs[0]), hs[1..], h);
    }
  }

  class Scope {
    var closed: bool
    var owned: seq<Handle>
    var next: nat
    /** The clock's timers of this scope, and the listeners on the signals it was given. */
    var pending: set<nat>
    var listening: set<nat>
    var ran: seq<nat>
    var released: seq<nat>

    ghost function View(): State
      reads this
    {
      State(closed, owned, next, pending, listening, ran, released)
    }

    constructor ()
      ensures View() == Begin()
    {
      closed, owned, next, pending, listening, ran, released := false, [], 0, {}, {}, [], [];
    }

    /** `after`: on a disposed scope nothing is scheduled. */
    method Schedule() returns (id: Option<nat>)
      modifies this
      ensures View() == Step(old(View()), After)
      ensures id == if old(closed) then None else Some(old(next))
    {
      if closed {
        return None;
      }
      id := Some(next);
      owned, pending, next := owned + [Timer(next)], pending + {next}, next + 1;
    }

    method CancelTimer(id: nat)
      modifies this
      ensures View() == Step(old(View()), Cancel(id))
    {
      owned, pending := Without(owned, Timer(id)), pending - {id};
    }

    /** The clock calls back. */
    method FireTimer(id: nat)
      requires id in pending
      modifies this
      ensures View() == Step(old(View()), Fire(id))
    {
      owned, pending := Without(owned, Timer(id)), pending - {id};
      if !closed {
        ran := ran + [id];
      }
    }

    method Listen()
      modifies this
      ensures View() == Step(old(View()), OnAbort)
    {
      if !closed {
        owned, listening, next := owned + [Listener(next)], listening + {next}, next + 1;
      }
    }

    method OwnRelease(id: nat)
      modifies this
      ensures View() == Step(old(View()), Own(id))
    {
      if closed {
        released := released + [id];
      } else if Release(id) !in owned {
        owned := owned + [Release(id)];
      }
    }

    /** Tears down everything owned, in order; false when that had been done. */
    method DisposeAll() returns (first: bool)
      requires Kept(View())
      modifies this
      ensures View() == Step(old(View()), Dispose)
      ensures first == !old(closed)
    {
      if closed {
        return false;
      }
      closed := true;
      var all := owned;
      TearDownAll(all);
      owned := [];
      first := true;
    }

    method TearDownAll(all: seq<Handle>)
      requires forall id :: id in pending ==> Timer(id) in all
      requires forall id :: id in listening ==> Listener(id) in all
      modifies this`pending, this`listening, this`released
      ensures pending == {} && listening == {} && released == old(released) + Releases(all)
    {
      assert released + [] == released;
      for k := 0 to |all|
        invariant released == old(released) + Releases(all[..k])
        invariant forall id :: id in pending ==> Timer(id) in all[k..]
        invariant forall id :: id in listening ==> Listener(id) in all[k..]
      {
        assert all[..k + 1] == all[..k] + [all[k]] && all[k..] == [all[k]] + all[k + 1..];
        ReleasesSnoc(all[..k], all[k]);
        TearDown(all[k]);
        assert released == old(released) + Releases(all[..k + 1]);
      }
      assert all[..|all|] == all;
    }

    method TearDown(h: Handle)
      modifies this`pending, this`listening, this`released
      ensures pending == old(pending) - (if h.Timer? then {h.id} else {})
      ensures listening == old(listening) - (if h.Listener? then {h.id} else {})
      ensures released == old(released) + (if h.Release? then [h.id] else [])
    {
      match h
      case Timer(id) => pending := pending - {id};
      case Listener(id) => listening := listening - {id};
      case Release(id) => released := released + [id];
    }
  }
}
