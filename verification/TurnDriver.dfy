/** `prompt`: the callbacks of one turn, which share the items they were given between two lists. */
module TurnDriver {
  import opened Common
  import opened Turn

  class Item {
    const id: nat
    var replayed: bool
    const written: bool

    constructor (id: nat, written: bool)
      ensures this.id == id && !replayed && this.written == written
    {
      this.id, replayed, this.written := id, false, written;
    }

    function Value(): Slot
      reads this
    {
      Slot(id, replayed, written)
    }
  }

  function Concluded(t: State, now: int): State {
    match t.phase
    case Running => t.(phase := Resulted(now), timers := t.timers.(tick := false, grace := !t.timers.disposed))
    case Exited(at, code) => t.(phase := Exited(if at.None? then Some(now) else at, code), timers := t.timers.(tick := false))
    case Resulted(_) => t
  }

  /** A result, the way the callback takes it. */
  function Handled(t: State, p: Payload, now: int): State {
    var told := t.(results := Tell(t.results, t.input, p, now));
    if !t.input || !t.phase.Running? then Concluded(told, now)
    else
      var read := told.(feed := PromptRead(t.feed));
      if read.feed.unread != [] then read else Concluded(read.(feed := CloseInput(read.feed)), now)
  }

  lemma HandledIsAStep(t: State, p: Payload, now: int)
    ensures Step(t, Result(p, now)) == Handled(t, p, now)
  {
  }

  function Flushed(t: State, flush: Flush, now: int): State {
    match flush
    case Nothing => t
    case Echo => Step(t, Replay)
    case Last(p) => Handled(t, p, now)
  }

  function Settled(t: State, spawnFailed: bool): State {
    t.(settled := true, feed := CloseInput(t.feed),
       outcome := Some(Verdict(t.input, t.phase, t.results, t.feed.delivered, t.timedOut, spawnFailed)))
  }

  /** The end of a turn, one part after the other. */
  function Ending(t: State, spawnFailed: bool, flush: Flush, now: int): State {
    if t.timers.disposed then t else Settled(Flushed(t.(timers := Timers(true, false, false, false)), flush, now), spawnFailed)
  }

  lemma EndingIsAStep(t: State, h: Happening, flush: Flush, now: int)
    requires h == Close(flush, now) || h == SpawnError(flush, now) || h == DrainEnds(flush, now)
    ensures Step(t, h) == Ending(t, h.SpawnError?, flush, now)
  {
    if t.timers.disposed {
      AfterTheEnd(t, h);
    } else {
      var over := t.(timers := Timers(true, false, false, false));
      FlushIsHeard(t, h, flush, now);
      match flush
      case Nothing =>
      case Echo =>
      case Last(p) => HandledIsAStep(over, p, now);
    }
  }

  lemma AfterTheEnd(t: State, h: Happening)
    requires IsEnd(h) && t.timers.disposed
    ensures Step(t, h) == t
  {
  }

  /** The last line of the pipe is heard as it would have been before, but that nothing is scheduled any more. */
  lemma FlushIsHeard(t: State, h: Happening, flush: Flush, now: int)
    requires h == Close(flush, now) || h == SpawnError(flush, now) || h == DrainEnds(flush, now)
    requires !t.timers.disposed
    ensures var over := t.(timers := Timers(true, false, false, false));
            Step(t, h) == Settled(match flush case Nothing => over case Echo => Step(over, Replay) case Last(p) => Step(over, Result(p, now)), h.SpawnError?)
  {
  }

  lemma ExitIsAStep(t: State, code: Option<int>)
    ensures Step(t, Exit(code))
         == t.(phase := Exited(ResultAt(t.phase), code), feed := t.feed.(stdinOpen := false, pulling := false),
               timers := if t.timers.disposed then t.timers else t.timers.(drain := true))
  {
  }

  lemma ReplayIsAStep(t: State)
    ensures Step(t, Replay) == if t.input then t.(feed := Echoed(t.feed)) else t
  {
  }

  class Prompt {
    const input: bool
    var phase: Phase
    /** Every item pulled, in order. */
    var delivered: seq<Item>
    /** The lines written to stdin and not yet echoed, the prompt line as null: the items are those of `delivered`. */
    var unread: seq<Item?>
    var stdinOpen: bool
    var writable: bool
    var pulling: bool
    var pumping: bool
    var results: Results
    var timers: Timers
    var timedOut: bool
    var settled: bool
    var kills: seq<Reason>
    var outcome: Option<Outcome>
    /** What the items say, and where those of the lines stand. */
    ghost var slots: seq<Slot>
    ghost var places: seq<Option<nat>>

    ghost predicate Items()
      reads this, delivered
    {
      && |delivered| == |slots|
      && (forall i :: 0 <= i < |delivered| ==> delivered[i].Value() == slots[i])
      && (forall i, j :: 0 <= i < j < |delivered| ==> delivered[i] != delivered[j])
    }

    ghost predicate Lines()
      reads this
    {
      |unread| == |places| && forall k :: 0 <= k < |unread| ==> Line(unread[k], places[k])
    }

    ghost predicate Line(item: Item?, place: Option<nat>)
      reads this`delivered
    {
      if place.None? then item == null else place.value < |delivered| && item == delivered[place.value]
    }

    ghost predicate Valid()
      reads this, delivered
    {
      Items() && Lines()
    }

    ghost function View(): State
      reads this
    {
      State(input, phase, Feed(slots, places, stdinOpen, writable, pulling, pumping), results, timers, timedOut, settled, kills, outcome)
    }

    constructor (input: bool, writable: bool)
      ensures Valid() && View() == Begin(input, writable)
    {
      this.input, phase, delivered, unread := input, Running, [], if input then [null] else [];
      stdinOpen, this.writable, pulling, pumping := input, writable, input, input;
      results, timers := Results(None, None, None, []), Timers(false, true, false, false);
      timedOut, settled, kills, outcome := false, false, [], None;
      slots, places := [], if input then [None] else [];
    }

    /** `onReplay`: the echo of the oldest line, which may be the prompt or one nobody waits for. */
    method OnReplay()
      requires Valid()
      modifies this, delivered
      ensures Valid() && View() == Step(old(View()), Replay) && delivered == old(delivered)
    {
      ReplayIsAStep(View());
      if !input || unread == [] {
        return;
      }
      var head := unread[0];
      unread, places := unread[1..], places[1..];
      if head != null {
        head.replayed := true;
        ghost var i := old(places[0]).value;
        slots := slots[i := slots[i].(replayed := true)];
      }
    }

    /** A result proves that the prompt line was read. */
    method ReadPrompt()
      requires Valid()
      modifies this`unread, this`places
      ensures Valid() && View() == old(View()).(feed := PromptRead(old(View()).feed))
      ensures unread == [] <==> places == []
    {
      if unread != [] && unread[0] == null {
        unread, places := unread[1..], places[1..];
      }
    }

    /** The work is done: what is left depends on where the child stands. */
    method Conclude(now: int)
      modifies this`phase, this`timers
      ensures View() == Concluded(old(View()), now)
    {
      match phase
      case Running =>
        phase := Resulted(now);
        timers := timers.(tick := false, grace := !timers.disposed);
      case Exited(at, code) =>
        phase := Exited(if at.None? then Some(now) else at, code);
        timers := timers.(tick := false);
      case Resulted(_) =>
    }

    /** `onResult`. */
    method OnResult(p: Payload, now: int)
      requires Valid()
      modifies this
      ensures Valid() && View() == Handled(old(View()), p, now) && delivered == old(delivered)
    {
      results := Tell(results, input, p, now);
      var waits := false;
      if input && phase.Running? {
        waits := ReadLines();
      }
      if !waits {
        Conclude(now);
      }
    }

    /** Whether lines are left unread; if none are, the input is closed. */
    method ReadLines() returns (waits: bool)
      requires Valid()
      modifies this`unread, this`places, this`pulling, this`stdinOpen
      ensures Valid() && waits == (PromptRead(old(View()).feed).unread != [])
      ensures var read := PromptRead(old(View()).feed);
              View() == old(View()).(feed := if waits then read else CloseInput(read))
    {
      ReadPrompt();
      waits := unread != [];
      if !waits {
        pulling, stdinOpen := false, false;
      }
    }

    /** `pump`: one item pulled, which is written at once when stdin takes it. */
    method PumpItem(id: nat)
      requires Valid() && pumping
      modifies this
      ensures Valid() && View() == Step(old(View()), Turn.Item(id))
    {
      if settled {
        pumping := false;
      } else {
        Add(id);
        pumping := pulling || stdinOpen;
      }
    }

    method Add(id: nat)
      requires Valid()
      modifies this`delivered, this`unread, this`slots, this`places
      ensures Valid() && View() == old(View()).(feed := Pulled(old(View()).feed, id).(pumping := pumping))
    {
      var item := new Item(id, stdinOpen && writable);
      if item.written {
        unread, places := unread + [item], places + [Some(|slots|)];
      }
      delivered, slots := delivered + [item], slots + [item.Value()];
    }

    method PumpEnds()
      requires pumping
      modifies this`pumping
      ensures View() == Step(old(View()), InputEnds)
    {
      pumping := false;
    }

    method OnStdinError()
      modifies this`stdinOpen
      ensures View() == Step(old(View()), StdinFails)
    {
      stdinOpen := false;
    }

    /** The tick at which the counted time reached the limit. */
    method OnOverdue()
      requires timers.tick
      modifies this`timers, this`timedOut, this`kills
      ensures View() == Step(old(View()), Overdue)
    {
      timers, timedOut, kills := timers.(tick := false), true, kills + [Overtime];
    }

    method OnGraceEnd()
      requires timers.grace
      modifies this`timers, this`kills
      ensures View() == Step(old(View()), GraceEnds)
    {
      timers := timers.(grace := false);
      if phase.Resulted? {
        kills := kills + [Stuck];
      }
    }

    method OnAbort()
      modifies this`kills
      ensures View() == Step(old(View()), Abort)
    {
      if !timers.disposed {
        kills := kills + [Aborted];
      }
    }

    method OnExit(code: Option<int>)
      modifies this`phase, this`stdinOpen, this`pulling, this`timers
      ensures View() == Step(old(View()), Exit(code))
    {
      ExitIsAStep(View(), code);
      phase := Exited(ResultAt(phase), code);
      stdinOpen, pulling := false, false;
      if !timers.disposed {
        timers := timers.(drain := true);
      }
    }

    /** What `finish` reports of the input: a copy. */
    method Report() returns (report: seq<Slot>)
      requires Items()
      ensures report == slots
    {
      report := [];
      for k := 0 to |delivered|
        invariant report == slots[..k]
      {
        report := report + [delivered[k].Value()];
      }
    }

    /** What the pipe still says when it is given up. */
    method ReadRest(flush: Flush, now: int)
      requires Valid()
      modifies this, delivered
      ensures Valid() && View() == Flushed(old(View()), flush, now) && delivered == old(delivered)
    {
      match flush {
        case Nothing =>
        case Echo => OnReplay();
        case Last(p) => OnResult(p, now);
      }
    }

    method Settle(spawnFailed: bool)
      requires Valid()
      modifies this`settled, this`stdinOpen, this`pulling, this`outcome
      ensures Valid() && View() == Settled(old(View()), spawnFailed)
    {
      settled, stdinOpen, pulling := true, false, false;
      var report := Report();
      outcome := Some(Verdict(input, phase, results, report, timedOut, spawnFailed));
    }

    /** `finish`, which finds the scope undisposed only once. */
    method Finish(spawnFailed: bool, flush: Flush, now: int)
      requires Valid()
      modifies this, delivered
      ensures Valid() && View() == Ending(old(View()), spawnFailed, flush, now)
    {
      if timers.disposed {
        return;
      }
      timers := Timers(true, false, false, false);
      ReadRest(flush, now);
      Settle(spawnFailed);
    }

    method OnClose(flush: Flush, now: int)
      requires Valid()
      modifies this, delivered
      ensures Valid() && View() == Step(old(View()), Close(flush, now))
    {
      EndingIsAStep(View(), Close(flush, now), flush, now);
      Finish(false, flush, now);
    }

    method OnSpawnError(flush: Flush, now: int)
      requires Valid()
      modifies this, delivered
      ensures Valid() && View() == Step(old(View()), SpawnError(flush, now))
    {
      EndingIsAStep(View(), SpawnError(flush, now), flush, now);
      Finish(true, flush, now);
    }

    method OnDrainEnd(flush: Flush, now: int)
      requires Valid() && timers.drain
      modifies this, delivered
      ensures Valid() && View() == Step(old(View()), DrainEnds(flush, now))
    {
      EndingIsAStep(View(), DrainEnds(flush, now), flush, now);
      Finish(false, flush, now);
    }
  }
}
