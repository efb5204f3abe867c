/** One headless turn of `prompt`: what the callbacks of the child process, of its pipes and of the timers do to it. */
module Turn {
  import opened Common

  /** An input item: whether it was written to stdin is known only to this model, which keeps it to speak of it. */
  datatype Slot = Slot(id: nat, replayed: bool, written: bool)

  datatype Payload = Payload(isError: Option<bool>, turns: Option<nat>)

  datatype Phase =
    | Running
    | Resulted(at: int)
    | Exited(resultAt: Option<int>, code: Option<int>)

  datatype Reason = Overtime | Stuck | Aborted

  datatype Outcome =
    | SpawnFailed
    | Fine(turns: Option<nat>, delivered: Option<seq<Slot>>)
    | KilledAfterResult(turns: Option<nat>, code: Option<int>, delivered: Option<seq<Slot>>)
    | TimedOut(delivered: Option<seq<Slot>>)
    | Ended(code: Option<int>, delivered: Option<seq<Slot>>)

  /** The input: the items pulled, and the lines written and not yet echoed, an item by its place and the prompt line as nothing. */
  datatype Feed = Feed(
    delivered: seq<Slot>, unread: seq<Option<nat>>,
    stdinOpen: bool, writable: bool, pulling: bool, pumping: bool)

  /** What the results said: the last one, when it came, and the turns of all of them. */
  datatype Results = Results(last: Option<Payload>, at: Option<int>, turns: Option<nat>, heard: seq<Payload>)

  /** The timers that the turn's scope owns. */
  datatype Timers = Timers(disposed: bool, tick: bool, grace: bool, drain: bool)

  datatype State = State(
    input: bool, phase: Phase, feed: Feed, results: Results, timers: Timers,
    timedOut: bool, settled: bool, kills: seq<Reason>, outcome: Option<Outcome>)

  /** What the last line of the pipe may still say when the turn is finished. */
  datatype Flush = Nothing | Echo | Last(p: Payload)

  datatype Happening =
    | Replay
    | Result(p: Payload, now: int)
    | Item(id: nat)
    | InputEnds
    | StdinFails
    | Writable(can: bool)
    | Overdue
    | GraceEnds
    | Abort
    | Exit(code: Option<int>)
    | DrainEnds(flush: Flush, now: int)
    | Close(flush: Flush, now: int)
    | SpawnError(flush: Flush, now: int)

  function Begin(input: bool, writable: bool): State {
    State(input, Running, Feed([], if input then [None] else [], input, writable, input, input),
          Results(None, None, None, []), Timers(false, true, false, false), false, false, [], None)
  }

  function ResultAt(p: Phase): Option<int> {
    match p
    case Running => None
    case Resulted(at) => Some(at)
    case Exited(resultAt, _) => resultAt
  }

  function OrZero(n: Option<nat>): nat {
    if n.Some? then n.value else 0
  }

  function CloseInput(f: Feed): Feed {
    f.(pulling := false, stdinOpen := false)
  }

  /** An echo belongs to the oldest line that was written. */
  function Echoed(f: Feed): Feed {
    if f.unread == [] then f else
      var rest := f.(unread := f.unread[1..]);
      match f.unread[0]
      case None => rest
      case Some(i) =>
        if i < |f.delivered| then rest.(delivered := f.delivered[i := f.delivered[i].(replayed := true)]) else rest
  }

  /** A result proves that the prompt was read, echoed or not. */
  function PromptRead(f: Feed): Feed {
    if f.unread != [] && f.unread[0].None? then f.(unread := f.unread[1..]) else f
  }

  function Pulled(f: Feed, id: nat): Feed {
    var writes := f.stdinOpen && f.writable;
    f.(delivered := f.delivered + [Slot(id, false, writes)],
       unread := if writes then f.unread + [Some(|f.delivered|)] else f.unread,
       pumping := f.pulling || f.stdinOpen)
  }

  function Tell(results: Results, input: bool, p: Payload, now: int): Results {
    Results(Some(p), Some(now), if input then Some(OrZero(results.turns) + OrZero(p.turns)) else results.turns, results.heard + [p])
  }

  /** Whether this happening finishes the turn: only the first one does. */
  predicate Ends(t: State, h: Happening) {
    !t.timers.disposed && (h.DrainEnds? || h.Close? || h.SpawnError?)
  }

  /** What the stream reader hears in it: when the turn ends, the last line of the pipe. */
  function Heard(t: State, h: Happening): Flush {
    match h
    case Replay => Echo
    case Result(p, _) => Last(p)
    case DrainEnds(flush, _) => if t.timers.disposed then Nothing else flush
    case Close(flush, _) => if t.timers.disposed then Nothing else flush
    case SpawnError(flush, _) => if t.timers.disposed then Nothing else flush
    case _ => Nothing
  }

  function When(h: Happening): int {
    match h
    case Result(_, now) => now
    case DrainEnds(_, now) => now
    case Close(_, now) => now
    case SpawnError(_, now) => now
    case _ => 0
  }

  /** A result that leaves lines unread is not the end of the work: the child answers them as a turn of their own. */
  predicate Waits(t: State) {
    t.input && t.phase.Running? && PromptRead(t.feed).unread != []
  }

  function HeardFeed(t: State, heard: Flush): Feed {
    match heard
    case Nothing => t.feed
    case Echo => if t.input then Echoed(t.feed) else t.feed
    case Last(_) =>
      if !t.input || !t.phase.Running? then t.feed
      else if Waits(t) then PromptRead(t.feed) else CloseInput(PromptRead(t.feed))
  }

  function NextFeed(t: State, h: Happening): Feed {
    if Ends(t, h) then CloseInput(HeardFeed(t, Heard(t, h)))
    else
      match h
      case Item(id) => if t.settled then t.feed.(pumping := false) else Pulled(t.feed, id)
      case InputEnds => t.feed.(pumping := false)
      case StdinFails => t.feed.(stdinOpen := false)
      case Writable(can) => t.feed.(writable := can)
      case Exit(_) => CloseInput(t.feed)
      case _ => HeardFeed(t, Heard(t, h))
  }

  function NextPhase(t: State, h: Happening): Phase {
    if h.Exit? then Exited(ResultAt(t.phase), h.code)
    else if !Heard(t, h).Last? || Waits(t) then t.phase
    else
      match t.phase
      case Running => Resulted(When(h))
      case Exited(at, code) => Exited(if at.None? then Some(When(h)) else at, code)
      case Resulted(_) => t.phase
  }

  function NextResults(t: State, h: Happening): Results {
    if Heard(t, h).Last? then Tell(t.results, t.input, Heard(t, h).p, When(h)) else t.results
  }

  /** The end of the turn leaves no timer and starts none. */
  function NextTimers(t: State, h: Happening): Timers {
    if Ends(t, h) then Timers(true, false, false, false)
    else
      match h
      case Result(_, _) =>
        if Waits(t) || t.phase.Resulted? then t.timers
        else t.timers.(tick := false, grace := if t.phase.Running? then !t.timers.disposed else t.timers.grace)
      case Overdue => t.timers.(tick := false)
      case GraceEnds => t.timers.(grace := false)
      case Exit(_) => t.timers.(drain := t.timers.drain || !t.timers.disposed)
      case _ => t.timers
  }

  function NextKills(t: State, h: Happening): seq<Reason> {
    match h
    case Overdue => t.kills + [Overtime]
    case GraceEnds => if t.phase.Resulted? then t.kills + [Stuck] else t.kills
    case Abort => if t.timers.disposed then t.kills else t.kills + [Aborted]
    case _ => t.kills
  }

  function Verdict(input: bool, phase: Phase, results: Results, delivered: seq<Slot>, timedOut: bool, spawnFailed: bool): Outcome {
    var at := if ResultAt(phase).Some? then ResultAt(phase) else if input then results.at else None;
    var code := if phase.Exited? then phase.code else None;
    var report := if input then Some(delivered) else None;
    if spawnFailed then SpawnFailed
    else if results.last.Some? && results.last.value.isError == Some(false) then
      var turns := if input && results.turns.Some? then results.turns else results.last.value.turns;
      if at.Some? && code != Some(0) then KilledAfterResult(turns, code, report) else Fine(turns, report)
    else if timedOut then TimedOut(report)
    else Ended(code, report)
  }

  function NextOutcome(t: State, h: Happening): Option<Outcome> {
    if Ends(t, h)
    then Some(Verdict(t.input, NextPhase(t, h), NextResults(t, h), NextFeed(t, h).delivered, t.timedOut, h.SpawnError?))
    else t.outcome
  }

  /** A timer comes only while it is owned, an item only while the input is being pulled. */
  predicate Enabled(t: State, h: Happening) {
    match h
    case Item(_) => t.feed.pumping
    case InputEnds => t.feed.pumping
    case Overdue => t.timers.tick
    case GraceEnds => t.timers.grace
    case DrainEnds(_, _) => t.timers.drain
    case _ => true
  }

  /** What becomes of each part of the turn. */
  function Step(t: State, h: Happening): State {
    State(t.input, NextPhase(t, h), NextFeed(t, h), NextResults(t, h), NextTimers(t, h),
          t.timedOut || h.Overdue?, t.settled || Ends(t, h), NextKills(t, h), NextOutcome(t, h))
  }

  predicate Possible(t: State, hs: seq<Happening>)
    decreases |hs|
  {
    hs != [] ==> Enabled(t, hs[0]) && Possible(Step(t, hs[0]), hs[1..])
  }

  function Run(t: State, hs: seq<Happening>): State
    decreases |hs|
  {
    if hs == [] then t else Run(Step(t, hs[0]), hs[1..])
  }

  // ---- the items, in the order they were pulled ----

  function Prompts(unread: seq<Option<nat>>): nat {
    if unread != [] && unread[0].None? then 1 else 0
  }

  /** First what was echoed, then what was written and not echoed, then what was never written. */
  predicate Splits(f: Feed, r: nat, u: nat) {
    var p := Prompts(f.unread);
    && r + u <= |f.delivered| && |f.unread| == p + u
    && (forall k :: p <= k < |f.unread| ==> f.unread[k] == Some(r + k - p))
    && (forall i :: 0 <= i < |f.delivered| ==> f.delivered[i].replayed == (i < r) && f.delivered[i].written == (i < r + u))
    && (f.stdinOpen && f.writable ==> r + u == |f.delivered|)
  }

  lemma EchoSplits(f: Feed, r: nat, u: nat) returns (r': nat, u': nat)
    requires Splits(f, r, u)
    ensures Splits(Echoed(f), r', u')
  {
    r', u' := r, u;
    if f.unread != [] && f.unread[0].Some? {
      r', u' := r + 1, u - 1;
      assert f.unread[0] == Some(r);
      assert u' > 0 ==> f.unread[1] == Some(r + 1);
    } else if f.unread != [] {
      assert u > 0 ==> f.unread[1] == Some(r);
    }
  }

  lemma PromptSplits(f: Feed, r: nat, u: nat)
    requires Splits(f, r, u)
    ensures Splits(PromptRead(f), r, u) && Prompts(PromptRead(f).unread) == 0
  {
    if f.unread != [] && f.unread[0].None? {
      assert u > 0 ==> f.unread[1] == Some(r);
    }
  }

  lemma PullSplits(f: Feed, id: nat, r: nat, u: nat)
    requires Splits(f, r, u)
    ensures Splits(Pulled(f, id), r, if f.stdinOpen && f.writable then u + 1 else u)
  {
    if f.stdinOpen && f.writable && f.unread != [] {
      assert Pulled(f, id).unread[0] == f.unread[0];
    }
  }

  lemma HeardSplits(t: State, heard: Flush, r: nat, u: nat) returns (r': nat, u': nat)
    requires Splits(t.feed, r, u)
    ensures Splits(HeardFeed(t, heard), r', u')
  {
    r', u' := r, u;
    if heard.Echo? && t.input {
      r', u' := EchoSplits(t.feed, r, u);
    } else {
      PromptSplits(t.feed, r, u);
    }
  }

  /** What is pulled, echoed and read does not depend on whether stdin is open and can be written from now on. */
  lemma ShutSplits(f: Feed, g: Feed, r: nat, u: nat)
    requires Splits(f, r, u) && g.delivered == f.delivered && g.unread == f.unread
    requires g.stdinOpen && g.writable ==> f.stdinOpen && f.writable
    ensures Splits(g, r, u)
  {
  }

  lemma OnlyHears(t: State, h: Happening)
    requires (h.Item? ==> t.settled) && h != Writable(true)
    ensures var f, g := HeardFeed(t, Heard(t, h)), NextFeed(t, h);
            && g.delivered == f.delivered && g.unread == f.unread
            && (g.stdinOpen && g.writable ==> f.stdinOpen && f.writable)
  {
  }

  lemma StepSplits(t: State, h: Happening, r: nat, u: nat) returns (r': nat, u': nat)
    requires Splits(t.feed, r, u) && h != Writable(true)
    ensures Splits(NextFeed(t, h), r', u')
  {
    if h.Item? && !t.settled {
      PullSplits(t.feed, h.id, r, u);
      r', u' := r, if t.feed.stdinOpen && t.feed.writable then u + 1 else u;
    } else {
      r', u' := HeardSplits(t, Heard(t, h), r, u);
      OnlyHears(t, h);
      ShutSplits(HeardFeed(t, Heard(t, h)), NextFeed(t, h), r', u');
    }
  }

  // ---- what every step keeps, whatever becomes of stdin ----

  function TurnsOf(heard: seq<Payload>): nat {
    if heard == [] then 0 else TurnsOf(heard[..|heard| - 1]) + OrZero(heard[|heard| - 1].turns)
  }

  predicate ToldWell(input: bool, results: Results, resulted: bool) {
    if results.heard == [] then results == Results(None, None, None, [])
    else
      && results.last == Some(results.heard[|results.heard| - 1]) && results.at.Some?
      && (if input then results.turns == Some(TurnsOf(results.heard)) else results.turns.None? && resulted)
  }

  predicate KeptResults(t: State) {
    ToldWell(t.input, t.results, ResultAt(t.phase).Some?)
  }

  predicate Placed(f: Feed) {
    forall k :: 0 <= k < |f.unread| && f.unread[k].Some? ==> f.unread[k].value < |f.delivered|
  }

  predicate KeptFeed(t: State) {
    && (t.feed.pumping ==> t.input)
    && (!t.input ==> t.feed.unread == [])
    && Placed(t.feed)
    && (t.phase.Resulted? && t.input ==> t.feed.unread == [] && !t.feed.stdinOpen)
    && (t.settled ==> !t.feed.stdinOpen && !t.feed.pulling)
  }

  predicate KeptEnd(t: State) {
    && t.timers.disposed == t.settled == t.outcome.Some?
    && (t.timers.disposed ==> t.timers == Timers(true, false, false, false))
  }

  predicate Kept(t: State) {
    KeptResults(t) && KeptFeed(t) && KeptEnd(t)
  }

  lemma TurnsOfSnoc(heard: seq<Payload>, p: Payload)
    ensures TurnsOf(heard + [p]) == TurnsOf(heard) + OrZero(p.turns)
  {
    assert (heard + [p])[..|heard|] == heard;
  }

  lemma TellKeeps(results: Results, input: bool, p: Payload, now: int, resulted: bool)
    requires ToldWell(input, results, resulted)
    ensures ToldWell(input, Tell(results, input, p, now), true)
  {
    TurnsOfSnoc(results.heard, p);
  }

  lemma ResultStays(t: State, h: Happening)
    ensures ResultAt(t.phase).Some? ==> ResultAt(NextPhase(t, h)).Some?
    ensures !t.input && Heard(t, h).Last? ==> ResultAt(NextPhase(t, h)).Some?
  {
  }

  lemma StepKeepsResults(t: State, h: Happening)
    requires KeptResults(t)
    ensures KeptResults(Step(t, h))
  {
    ResultStays(t, h);
    if Heard(t, h).Last? {
      TellKeeps(t.results, t.input, Heard(t, h).p, When(h), ResultAt(t.phase).Some?);
    }
  }

  lemma StepPlaces(t: State, h: Happening)
    requires Placed(t.feed)
    ensures Placed(NextFeed(t, h))
  {
  }

  lemma StepKeepsFeed(t: State, h: Happening)
    requires KeptFeed(t) && Enabled(t, h)
    ensures KeptFeed(Step(t, h))
  {
    StepPlaces(t, h);
  }

  lemma StepKeepsEnd(t: State, h: Happening)
    requires KeptEnd(t) && Enabled(t, h)
    ensures KeptEnd(Step(t, h))
  {
  }

  lemma {:induction false} RunKeeps(t: State, hs: seq<Happening>)
    requires Kept(t) && Possible(t, hs)
    ensures Kept(Run(t, hs))
    decreases |hs|
  {
    if hs != [] {
      StepKeeps(t, hs[0]);
      RunKeeps(Step(t, hs[0]), hs[1..]);
    }
  }

  lemma {:induction false} RunSplits(t: State, hs: seq<Happening>, r: nat, u: nat) returns (r': nat, u': nat)
    requires Splits(t.feed, r, u) && Possible(t, hs) && Writable(true) !in hs
    ensures Splits(Run(t, hs).feed, r', u')
    decreases |hs|
  {
    r', u' := r, u;
    if hs != [] {
      r', u' := StepSplits(t, hs[0], r, u);
      r', u' := RunSplits(Step(t, hs[0]), hs[1..], r', u');
    }
  }

  /**
   In every run of a turn in which stdin, once it cannot be written, does not become writable again: the items pulled are first those echoed,
   then those written and not echoed, then those never written; and a turn counts as over only with nothing unechoed and stdin closed.
   */
  lemma EveryTurn(input: bool, writable: bool, hs: seq<Happening>) returns (echoed: nat, unechoed: nat)
    requires Possible(Begin(input, writable), hs) && Writable(true) !in hs
    ensures var t := Run(Begin(input, writable), hs);
            && echoed + unechoed <= |t.feed.delivered|
            && (forall i :: 0 <= i < |t.feed.delivered| ==>
                  && (t.feed.delivered[i].replayed <==> i < echoed)
                  && (t.feed.delivered[i].written <==> i < echoed + unechoed))
            && (t.input && t.phase.Resulted? ==> unechoed == 0 && t.feed.unread == [] && !t.feed.stdinOpen)
  {
    var t := Begin(input, writable);
    RunKeeps(t, hs);
    RunKeepsInput(t, hs);
    echoed, unechoed := RunSplits(t, hs, 0, 0);
  }

  lemma {:induction false} RunKeepsInput(t: State, hs: seq<Happening>)
    ensures Run(t, hs).input == t.input
    decreases |hs|
  {
    if hs != [] {
      RunKeepsInput(Step(t, hs[0]), hs[1..]);
    }
  }

  // ---- how a turn ends, told by what came to it ----

  predicate IsEnd(h: Happening) {
    h.DrainEnds? || h.Close? || h.SpawnError?
  }

  /** The place of the first happening that ends a turn, or the length. */
  function FirstEnd(hs: seq<Happening>): (k: nat)
    ensures k <= |hs|
    ensures k < |hs| ==> IsEnd(hs[k])
    ensures forall j :: 0 <= j < k ==> !IsEnd(hs[j])
  {
    if hs == [] || IsEnd(hs[0]) then 0 else 1 + FirstEnd(hs[1..])
  }

  /** The results, in order. */
  function Said(hs: seq<Happening>): seq<Payload> {
    if hs == [] then [] else (if hs[0].Result? then [hs[0].p] else []) + Said(hs[1..])
  }

  /** The result that the last line of the pipe may hold. */
  function LastWords(end: Happening): seq<Payload>
    requires IsEnd(end)
  {
    if end.flush.Last? then [end.flush.p] else []
  }

  /** The exit code, once the child has exited. */
  function ExitOf(hs: seq<Happening>, before: Option<Option<int>>): Option<Option<int>>
    decreases |hs|
  {
    if hs == [] then before else ExitOf(hs[1..], if hs[0].Exit? then Some(hs[0].code) else before)
  }

  /** The items pulled, in order. */
  function PulledOf(hs: seq<Happening>): seq<nat> {
    if hs == [] then [] else (if hs[0].Item? then [hs[0].id] else []) + PulledOf(hs[1..])
  }

  function Ids(slots: seq<Slot>): (r: seq<nat>)
    ensures |r| == |slots|
  {
    if slots == [] then [] else Ids(slots[..|slots| - 1]) + [slots[|slots| - 1].id]
  }

  /** What an outcome says of the results, of the exit, of the limit and of the items pulled. */
  predicate Says(o: Outcome, input: bool, said: seq<Payload>, exit: Option<Option<int>>, overran: bool, pulled: seq<nat>, spawnFailed: bool) {
    var fine := said != [] && said[|said| - 1].isError == Some(false);
    && (o.SpawnFailed? <==> spawnFailed)
    && (o.Fine? <==> !spawnFailed && fine && exit == Some(Some(0)))
    && (o.KilledAfterResult? <==> !spawnFailed && fine && exit != Some(Some(0)))
    && (o.TimedOut? <==> !spawnFailed && !fine && overran)
    && (o.Fine? || o.KilledAfterResult? ==> o.turns == if input then Some(TurnsOf(said)) else said[|said| - 1].turns)
    && (o.KilledAfterResult? || o.Ended? ==> o.code == if exit.Some? then exit.value else None)
    && (!o.SpawnFailed? ==> o.delivered.Some? == input && (input ==> Ids(o.delivered.value) == pulled))
  }

  /** What the outcome of a turn is: a last result without an error is the outcome, whatever became of the child, unless the spawn failed. */
  predicate Tells(o: Outcome, input: bool, before: seq<Happening>, end: Happening)
    requires IsEnd(end)
  {
    Says(o, input, Said(before) + LastWords(end), ExitOf(before, None), Overdue in before, PulledOf(before), end.SpawnError?)
  }

  predicate ExitedSo(phase: Phase, exit: Option<Option<int>>) {
    if exit.Some? then phase.Exited? && phase.code == exit.value else !phase.Exited?
  }

  lemma VerdictSays(input: bool, phase: Phase, results: Results, delivered: seq<Slot>, timedOut: bool, spawnFailed: bool, exit: Option<Option<int>>)
    requires ToldWell(input, results, ResultAt(phase).Some?) && ExitedSo(phase, exit)
    ensures Says(Verdict(input, phase, results, delivered, timedOut, spawnFailed), input, results.heard, exit, timedOut, Ids(delivered), spawnFailed)
  {
  }

  lemma {:induction false} RunConcat(t: State, a: seq<Happening>, b: seq<Happening>)
    ensures Possible(t, a + b) <==> Possible(t, a) && Possible(Run(t, a), b)
    ensures Run(t, a + b) == Run(Run(t, a), b)
    decreases |a|
  {
    if a == [] {
      assert a + b == b;
    } else {
      assert (a + b)[1..] == a[1..] + b;
      RunConcat(Step(t, a[0]), a[1..], b);
    }
  }

  lemma RunOne(t: State, h: Happening)
    ensures Possible(t, [h]) <==> Enabled(t, h)
    ensures Run(t, [h]) == Step(t, h)
  {
    assert [h][1..] == [];
  }

  lemma {:induction false} IdsMarked(slots: seq<Slot>, i: nat)
    requires i < |slots|
    ensures Ids(slots[i := slots[i].(replayed := true)]) == Ids(slots)
  {
    var n := |slots| - 1;
    var marked := slots[i := slots[i].(replayed := true)];
    if i < n {
      assert marked[..n] == slots[..n][i := slots[i].(replayed := true)];
      IdsMarked(slots[..n], i);
    } else {
      assert marked[..n] == slots[..n];
    }
  }

  lemma HeardIds(t: State, heard: Flush)
    ensures Ids(HeardFeed(t, heard).delivered) == Ids(t.feed.delivered)
  {
    var f := t.feed;
    if f.unread != [] && f.unread[0].Some? && f.unread[0].value < |f.delivered| {
      IdsMarked(f.delivered, f.unread[0].value);
    }
  }

  lemma PulledIds(f: Feed, id: nat)
    ensures Ids(Pulled(f, id).delivered) == Ids(f.delivered) + [id]
  {
    var all := Pulled(f, id).delivered;
    assert all[..|all| - 1] == f.delivered;
  }

  lemma OtherDelivers(t: State, h: Happening)
    requires !h.Item?
    ensures NextFeed(t, h).delivered == HeardFeed(t, Heard(t, h)).delivered
  {
  }

  lemma StepIds(t: State, h: Happening)
    requires !t.settled
    ensures Ids(NextFeed(t, h).delivered) == Ids(t.feed.delivered) + (if h.Item? then [h.id] else [])
  {
    if h.Item? {
      PulledIds(t.feed, h.id);
    } else {
      OtherDelivers(t, h);
      HeardIds(t, Heard(t, h));
      assert Ids(t.feed.delivered) + [] == Ids(t.feed.delivered);
    }
  }

  /** What a turn is like before it has ended. */
  predicate Going(t: State, input: bool, said: seq<Payload>, overran: bool, exit: Option<Option<int>>, pulled: seq<nat>) {
    && KeptResults(t) && KeptEnd(t) && t.outcome.None? && t.input == input
    && t.results.heard == said && t.timedOut == overran && Ids(t.feed.delivered) == pulled
    && ExitedSo(t.phase, exit) && (exit.Some? ==> t.timers.drain)
  }

  lemma StepHears(t: State, h: Happening)
    requires !IsEnd(h)
    ensures NextResults(t, h).heard == t.results.heard + (if h.Result? then [h.p] else [])
  {
  }

  lemma StepExits(t: State, h: Happening, exit: Option<Option<int>>)
    requires ExitedSo(t.phase, exit)
    ensures ExitedSo(NextPhase(t, h), if h.Exit? then Some(h.code) else exit)
  {
  }

  lemma StepDrains(t: State, h: Happening)
    requires !IsEnd(h) && !t.timers.disposed
    ensures h.Exit? || t.timers.drain ==> NextTimers(t, h).drain
    ensures NextOutcome(t, h) == t.outcome
  {
  }

  lemma StepGoes(t: State, h: Happening, input: bool, said: seq<Payload>, overran: bool, exit: Option<Option<int>>, pulled: seq<nat>)
    requires Going(t, input, said, overran, exit, pulled) && Enabled(t, h) && !IsEnd(h)
    ensures Going(Step(t, h), input, said + (if h.Result? then [h.p] else []), overran || h.Overdue?,
                  if h.Exit? then Some(h.code) else exit, pulled + (if h.Item? then [h.id] else []))
  {
    StepKeepsResults(t, h);
    StepKeepsEnd(t, h);
    StepHears(t, h);
    StepExits(t, h, exit);
    StepDrains(t, h);
    StepIds(t, h);
  }

  lemma RejoinSaid<T>(a: seq<T>, b: seq<T>, c: seq<T>)
    ensures a + (b + c) == a + b + c
  {
  }

  lemma {:induction false} RunGoes(t: State, hs: seq<Happening>, input: bool, said: seq<Payload>, overran: bool, exit: Option<Option<int>>, pulled: seq<nat>)
    requires Going(t, input, said, overran, exit, pulled) && Possible(t, hs)
    requires forall k :: 0 <= k < |hs| ==> !IsEnd(hs[k])
    ensures Going(Run(t, hs), input, said + Said(hs), overran || Overdue in hs, ExitOf(hs, exit), pulled + PulledOf(hs))
    decreases |hs|
  {
    if hs == [] {
      assert said + [] == said && pulled + [] == pulled;
    } else {
      var h, rest := hs[0], hs[1..];
      var s, p := (if h.Result? then [h.p] else []), (if h.Item? then [h.id] else []);
      StepGoes(t, h, input, said, overran, exit, pulled);
      RunGoes(Step(t, h), rest, input, said + s, overran || h.Overdue?, if h.Exit? then Some(h.code) else exit, pulled + p);
      RejoinSaid(said, s, Said(rest));
      RejoinSaid(pulled, p, PulledOf(rest));
      OverdueFirst(hs);
    }
  }

  lemma OverdueFirst(hs: seq<Happening>)
    requires hs != []
    ensures Overdue in hs <==> hs[0].Overdue? || Overdue in hs[1..]
  {
    assert hs == [hs[0]] + hs[1..];
  }

  lemma BeginGoes(input: bool, writable: bool)
    ensures Going(Begin(input, writable), input, [], false, None, []) && KeptFeed(Begin(input, writable))
  {
  }

  lemma EndHears(t: State, end: Happening)
    requires IsEnd(end) && !t.timers.disposed
    ensures NextResults(t, end).heard == t.results.heard + LastWords(end)
  {
  }

  lemma EndTells(t: State, end: Happening, input: bool, before: seq<Happening>)
    requires Going(t, input, Said(before), Overdue in before, ExitOf(before, None), PulledOf(before)) && IsEnd(end)
    ensures Step(t, end).outcome.Some? && Tells(Step(t, end).outcome.value, input, before, end)
  {
    StepKeepsResults(t, end);
    EndHears(t, end);
    StepExits(t, end, ExitOf(before, None));
    StepIds(t, end);
    assert PulledOf(before) + [] == PulledOf(before);
    VerdictSays(input, NextPhase(t, end), NextResults(t, end), NextFeed(t, end).delivered, t.timedOut, end.SpawnError?, ExitOf(before, None));
  }

  /**
   Over every run of a turn: it has an outcome exactly when something has ended it, and the first thing that did decides it:
   by the results up to then, the exit code, the limit, and the items pulled.
   */
  lemma HowATurnEnds(input: bool, writable: bool, hs: seq<Happening>)
    requires Possible(Begin(input, writable), hs)
    ensures var k, outcome := FirstEnd(hs), Run(Begin(input, writable), hs).outcome;
            && (outcome.Some? <==> k < |hs|)
            && (k < |hs| ==> Tells(outcome.value, input, hs[..k], hs[k]))
  {
    BeginGoes(input, writable);
    EndsAtFirst(Begin(input, writable), input, hs);
  }

  lemma PartsAt(hs: seq<Happening>, k: nat)
    requires k < |hs|
    ensures hs == hs[..k] + ([hs[k]] + hs[k + 1..])
  {
  }

  lemma EndsAtFirst(t: State, input: bool, hs: seq<Happening>)
    requires Going(t, input, [], false, None, []) && KeptFeed(t) && Possible(t, hs)
    ensures var k, outcome := FirstEnd(hs), Run(t, hs).outcome;
            && (outcome.Some? <==> k < |hs|)
            && (k < |hs| ==> Tells(outcome.value, input, hs[..k], hs[k]))
  {
    var k := FirstEnd(hs);
    if k < |hs| {
      PartsAt(hs, k);
      EndedSo(t, input, hs, hs[..k], hs[k], hs[k + 1..]);
    } else {
      Before(t, input, hs);
    }
  }

  lemma Before(t: State, input: bool, hs: seq<Happening>)
    requires Going(t, input, [], false, None, []) && Possible(t, hs) && forall k :: 0 <= k < |hs| ==> !IsEnd(hs[k])
    ensures Going(Run(t, hs), input, Said(hs), Overdue in hs, ExitOf(hs, None), PulledOf(hs))
  {
    RunGoes(t, hs, input, [], false, None, []);
    assert [] + Said(hs) == Said(hs) && [] + PulledOf(hs) == PulledOf(hs);
  }

  lemma Parts(t: State, before: seq<Happening>, end: Happening, rest: seq<Happening>)
    requires Possible(t, before + ([end] + rest))
    ensures Possible(t, before) && Enabled(Run(t, before), end) && Possible(Step(Run(t, before), end), rest)
    ensures Run(t, before + ([end] + rest)) == Run(Step(Run(t, before), end), rest)
  {
    RunConcat(t, before, [end] + rest);
    RunConcat(Run(t, before), [end], rest);
    RunOne(Run(t, before), end);
  }

  lemma EndedFrom(t: State, input: bool, before: seq<Happening>, end: Happening, rest: seq<Happening>)
    requires Going(t, input, Said(before), Overdue in before, ExitOf(before, None), PulledOf(before)) && KeptFeed(t)
    requires IsEnd(end) && Enabled(t, end) && Possible(Step(t, end), rest)
    ensures var outcome := Run(Step(t, end), rest).outcome;
            outcome.Some? && Tells(outcome.value, input, before, end)
  {
    EndTells(t, end, input, before);
    StepKeeps(t, end);
    OneOutcome(Step(t, end), rest);
  }

  lemma EndedSo(t: State, input: bool, hs: seq<Happening>, before: seq<Happening>, end: Happening, rest: seq<Happening>)
    requires hs == before + ([end] + rest)
    requires Going(t, input, [], false, None, []) && KeptFeed(t) && Possible(t, hs)
    requires IsEnd(end) && forall k :: 0 <= k < |before| ==> !IsEnd(before[k])
    ensures var outcome := Run(t, hs).outcome;
            outcome.Some? && Tells(outcome.value, input, before, end)
  {
    Parts(t, before, end, rest);
    Before(t, input, before);
    RunKeeps(t, before);
    EndedFrom(Run(t, before), input, before, end, rest);
  }

  lemma StepKeeps(t: State, h: Happening)
    requires Kept(t) && Enabled(t, h)
    ensures Kept(Step(t, h))
  {
    StepKeepsResults(t, h);
    StepKeepsFeed(t, h);
    StepKeepsEnd(t, h);
  }

  lemma EndStays(t: State, h: Happening)
    requires Kept(t) && t.outcome.Some? && Enabled(t, h)
    ensures var after := Step(t, h);
            after.outcome == t.outcome && after.kills == t.kills && after.timers == t.timers
  {
  }

  lemma NothingDelivered(t: State, h: Happening)
    requires t.settled
    ensures |NextFeed(t, h).delivered| == |t.feed.delivered|
  {
  }

  /** One outcome: once there is one it stays, and nothing is delivered or killed after it. */
  lemma {:induction false} OneOutcome(t: State, hs: seq<Happening>)
    requires Kept(t) && t.outcome.Some? && Possible(t, hs)
    ensures var after := Run(t, hs);
            after.outcome == t.outcome && after.kills == t.kills && after.timers == t.timers && |after.feed.delivered| == |t.feed.delivered|
    decreases |hs|
  {
    if hs != [] {
      StepKeeps(t, hs[0]);
      EndStays(t, hs[0]);
      NothingDelivered(t, hs[0]);
      OneOutcome(Step(t, hs[0]), hs[1..]);
    }
  }

  /** What a run has reached by the time something ended it is what it has at its end. */
  lemma OutcomeStays(input: bool, writable: bool, hs: seq<Happening>, n: nat)
    requires Possible(Begin(input, writable), hs) && FirstEnd(hs) < n <= |hs|
    ensures var at, after := Run(Begin(input, writable), hs[..n]), Run(Begin(input, writable), hs);
            after.outcome == at.outcome && after.kills == at.kills && |after.feed.delivered| == |at.feed.delivered|
  {
    var t := Begin(input, writable);
    assert hs[..n] + hs[n..] == hs;
    RunConcat(t, hs[..n], hs[n..]);
    RunKeeps(t, hs[..n]);
    FirstEndOfPrefix(hs, n);
    HowATurnEnds(input, writable, hs[..n]);
    OneOutcome(Run(t, hs[..n]), hs[n..]);
  }

  lemma FirstEndOfPrefix(hs: seq<Happening>, n: nat)
    requires FirstEnd(hs) < n <= |hs|
    ensures FirstEnd(hs[..n]) == FirstEnd(hs)
  {
    var j, k := FirstEnd(hs[..n]), FirstEnd(hs);
    assert hs[..n][k] == hs[k];
    assert j <= k;
    assert hs[..n][j] == hs[j];
  }

  /** A turn whose child has exited ends: it has an outcome, or a drain is awaited that gives it one. */
  lemma AfterTheExit(input: bool, writable: bool, hs: seq<Happening>, code: Option<int>, flush: Flush, now: int)
    requires Possible(Begin(input, writable), hs) && Exit(code) in hs
    ensures var t := Run(Begin(input, writable), hs);
            t.outcome.Some? || (Enabled(t, DrainEnds(flush, now)) && Step(t, DrainEnds(flush, now)).outcome.Some?)
  {
    HowATurnEnds(input, writable, hs);
    if FirstEnd(hs) == |hs| {
      BeginGoes(input, writable);
      Before(Begin(input, writable), input, hs);
      ExitIsSeen(hs, None, code);
    }
  }

  lemma {:induction false} ExitIsSeen(hs: seq<Happening>, before: Option<Option<int>>, code: Option<int>)
    requires before.Some? || Exit(code) in hs
    ensures ExitOf(hs, before).Some?
    decreases |hs|
  {
    if hs != [] {
      ExitIsSeen(hs[1..], if hs[0].Exit? then Some(hs[0].code) else before, code);
    }
  }
}
