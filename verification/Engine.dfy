/** The notice engine: agent events in, notices and cache warnings out, one job at a time. */
module Engine {
  import opened Common

  const QUESTION_PROMPT_WINDOW_MS: nat := 20000

  datatype Kind = Question | Permission | TurnDone | CacheExpiring | SessionEnd

  datatype Tool = AskUserQuestion | ExitPlanMode | OtherTool

  datatype Sub = ElicitationDialog | PermissionPrompt | IdlePrompt | AuthSuccess | OtherSub

  datatype Hook =
    | PreToolUse(tool: Tool)
    | PostToolUse(tool: Tool)
    | Notification(sub: Sub, waits: bool, blank: bool)
    | Stop(ofSubagent: bool)
    | SubagentStop
    | SessionEnds
    | UserPromptSubmit
    | SessionStart

  /** A session is a pane of its own, or one without a pane, which is never counted. */
  datatype Key = Pane(n: nat) | Paneless(n: nat)

  datatype Event = Event(hook: Hook, key: Key, at: int)

  datatype Verdict = Verdict(kind: Option<Kind>, arms: bool, withdraw: bool, cancel: bool)

  const MOOT := Verdict(None, false, true, true)

  function Asks(kind: Kind): Verdict {
    Verdict(Some(kind), true, false, false)
  }

  /** `classify`: what an event asks for, or nothing at all. */
  function Classify(e: Event): Option<Verdict> {
    if e.key.Paneless? then None
    else
      match e.hook
      case PreToolUse(tool) => if tool.OtherTool? then None else Some(Asks(Question))
      case PostToolUse(tool) => if tool.OtherTool? then None else Some(MOOT)
      case Notification(sub, waits, blank) =>
        if sub.ElicitationDialog? then Some(Asks(Question))
        else if sub.PermissionPrompt? then Some(Asks(Permission))
        else if sub.IdlePrompt? || sub.AuthSuccess? || waits || blank then None
        else Some(Asks(Permission))
      case Stop(ofSubagent) => if ofSubagent then None else Some(Asks(TurnDone))
      case SubagentStop => None
      case SessionEnds => Some(Verdict(Some(SessionEnd), false, true, true))
      case UserPromptSubmit => Some(MOOT)
      case SessionStart => Some(MOOT)
  }

  datatype Row = Working | Waiting | New | Gone

  /** The options as they are read for one job. */
  datatype Options = Options(enabled: set<Kind>, after: nat, ttl: nat)

  /** What the world answers a job: whether the pane is there, whether the post worked and was shown, and the session's row. */
  datatype Answer = Answer(paneGone: bool, posted: bool, shown: bool, row: Option<Row>, rowAt: int)

  datatype Job = StepJob(e: Event) | DueJob(key: Key, idleSince: int)

  /** What the engine's jobs did about arming, in order, each arming with its wait: the book that the warnings are judged by. */
  datatype Deed = Armed(e: Event, after: nat) | Cancelled(key: Key)

  /** A warning, with the book as it was then. */
  datatype Warning = Warning(e: Event, now: int, ttl: nat, book: seq<Deed>)

  /** What the notifier was told, and did. */
  datatype Op = Shown(key: Key) | Dropped(key: Key) | Withdrawn(key: Key)

  datatype Deadline = Deadline(idleSince: int, dueAt: int)

  /** What waits, what armed it, and what became of it. */
  datatype Ledger = Ledger(
    now: int, queue: seq<Job>, waiting: map<Key, Deadline>, armedBy: map<Key, Event>, book: seq<Deed>, warnings: seq<Warning>)

  /** What is on screen: the notices that are up, the questions nobody has answered, and what the notifier did. */
  datatype Screen = Screen(up: set<Key>, questions: map<Key, int>, ops: seq<Op>)

  datatype State = State(stopped: bool, ledger: Ledger, screen: Screen)

  datatype Happening =
    | Arrives(e: Event)
    | Restores(e: Event, opts: Options)
    | FallsDue(key: Key)
    | Runs(opts: Options, answer: Answer)
    | Stops
    | TimePasses(ms: nat)

  function Begin(now: int): State {
    State(false, Ledger(now, [], map[], map[], [], []), Screen({}, map[], []))
  }

  // ---- the screen ----

  /** `takeDown`: a notice is withdrawn only when it is up. */
  function TakenDown(c: Screen, key: Key): Screen {
    if key !in c.up then c else c.(up := c.up - {key}, ops := c.ops + [Withdrawn(key)])
  }

  function Unasked(c: Screen, key: Key): Screen {
    c.(questions := c.questions - {key})
  }

  /** `post`. */
  function Posted(c: Screen, kind: Kind, e: Event, a: Answer): Screen {
    var asked := if a.paneGone then Unasked(c, e.key) else c;
    if (a.paneGone && kind.CacheExpiring?) || !a.posted then asked
    else if !a.shown then TakenDown(asked.(ops := asked.ops + [Dropped(e.key)]), e.key)
    else
      asked.(up := asked.up + {e.key}, ops := asked.ops + [Shown(e.key)],
             questions := if kind.Question? && e.hook.PreToolUse? && !a.paneGone then asked.questions[e.key := e.at] else asked.questions)
  }

  // ---- the ledger ----

  function Arm(l: Ledger, e: Event, opts: Options): Ledger {
    if CacheExpiring !in opts.enabled then l
    else l.(armedBy := l.armedBy[e.key := e], waiting := l.waiting[e.key := Deadline(e.at, e.at + opts.after)], book := l.book + [Armed(e, opts.after)])
  }

  function Cancel(l: Ledger, key: Key): Ledger {
    l.(waiting := l.waiting - {key}, armedBy := l.armedBy - {key}, book := l.book + [Cancelled(key)])
  }

  /** What a due job decides by before it posts. */
  predicate Warns(now: int, key: Key, idleSince: int, opts: Options, a: Answer) {
    && CacheExpiring in opts.enabled && key.Pane?
    && a.row.Some? && !a.row.value.New? && !a.row.value.Gone? && !(a.row.value.Working? && a.rowAt > idleSince)
    && now - idleSince < opts.ttl
  }

  /** Whether a due job is still the one that the key was armed for. */
  predicate Current(l: Ledger, key: Key, idleSince: int) {
    key in l.armedBy && l.armedBy[key].at == idleSince
  }

  function Used(l: Ledger, key: Key, idleSince: int, opts: Options, a: Answer): Ledger
    requires Current(l, key, idleSince)
  {
    var taken := l.(armedBy := l.armedBy - {key});
    if Warns(l.now, key, idleSince, opts, a) && !a.paneGone
    then taken.(warnings := l.warnings + [Warning(l.armedBy[key], l.now, opts.ttl, l.book)])
    else taken
  }

  // ---- one job ----

  /** Whether a permission prompt is only the question's own, asked again. */
  predicate HeldBack(c: Screen, v: Verdict, e: Event) {
    v.kind == Some(Permission) && e.key in c.questions && e.at - c.questions[e.key] <= QUESTION_PROMPT_WINDOW_MS
  }

  function SteppedLedger(l: Ledger, v: Verdict, e: Event, opts: Options): Ledger {
    var cancelled := if v.cancel then Cancel(l, e.key) else l;
    if v.arms then Arm(cancelled, e, opts) else cancelled
  }

  /** Nothing is asked any more, and what an answer makes moot is withdrawn. */
  function Cleared(c: Screen, v: Verdict, key: Key): Screen {
    var answered := if v.cancel || v.kind == Some(TurnDone) then Unasked(c, key) else c;
    if v.withdraw then TakenDown(answered, key) else answered
  }

  function SteppedScreen(c: Screen, v: Verdict, e: Event, opts: Options, a: Answer): Screen {
    var withdrawn := Cleared(c, v, e.key);
    if v.kind.None? || v.kind.value !in opts.enabled then withdrawn else Posted(withdrawn, v.kind.value, e, a)
  }

  function Stepped(s: State, e: Event, opts: Options, a: Answer): State {
    var v := Classify(e);
    if s.stopped || v.None? || HeldBack(s.screen, v.value, e) then s
    else s.(ledger := SteppedLedger(s.ledger, v.value, e, opts), screen := SteppedScreen(s.screen, v.value, e, opts, a))
  }

  function Due(s: State, key: Key, idleSince: int, opts: Options, a: Answer): State {
    if s.stopped || !Current(s.ledger, key, idleSince) then s
    else
      s.(ledger := Used(s.ledger, key, idleSince, opts, a),
         screen := if Warns(s.ledger.now, key, idleSince, opts, a) then Posted(s.screen, CacheExpiring, s.ledger.armedBy[key], a) else s.screen)
  }

  // ---- the engine over time ----

  /** An arming is restored from the state rows only while the cache is alive. */
  predicate Enabled(s: State, h: Happening) {
    match h
    case FallsDue(key) => key in s.ledger.waiting && s.ledger.waiting[key].dueAt <= s.ledger.now
    case Runs(_, _) => s.ledger.queue != []
    case Restores(e, opts) => !s.stopped && e.key.Pane? && s.ledger.now - e.at < opts.ttl
    case _ => true
  }

  function Step(s: State, h: Happening): State
    requires Enabled(s, h)
  {
    var l := s.ledger;
    match h
    case Arrives(e) => s.(ledger := l.(queue := l.queue + [StepJob(e)]))
    case Restores(e, opts) => s.(ledger := Arm(l, e, opts))
    case FallsDue(key) => s.(ledger := l.(waiting := l.waiting - {key}, queue := l.queue + [DueJob(key, l.waiting[key].idleSince)]))
    case Runs(opts, a) => Done(s.(ledger := l.(queue := l.queue[1..])), l.queue[0], opts, a)
    case Stops => State(true, l.(waiting := map[], armedBy := map[]), s.screen.(questions := map[]))
    case TimePasses(ms) => s.(ledger := l.(now := l.now + ms))
  }

  function Done(s: State, job: Job, opts: Options, a: Answer): State {
    match job
    case StepJob(e) => Stepped(s, e, opts, a)
    case DueJob(key, idleSince) => Due(s, key, idleSince, opts, a)
  }

  predicate Possible(s: State, hs: seq<Happening>)
    decreases |hs|
  {
    hs != [] ==> Enabled(s, hs[0]) && Possible(Step(s, hs[0]), hs[1..])
  }

  function Run(s: State, hs: seq<Happening>): State
    requires Possible(s, hs)
    decreases |hs|
  {
    if hs == [] then s else Run(Step(s, hs[0]), hs[1..])
  }

  lemma RunOne(s: State, h: Happening)
    requires Enabled(s, h)
    ensures Possible(s, [h]) && Run(s, [h]) == Step(s, h)
  {
    assert [h][1..] == [];
  }

  lemma {:induction false} RunConcat(s: State, a: seq<Happening>, b: seq<Happening>)
    requires Possible(s, a) && Possible(Run(s, a), b)
    ensures Possible(s, a + b) && Run(s, a + b) == Run(Run(s, a), b)
    decreases |a|
  {
    if a == [] {
      assert a + b == b;
    } else {
      assert (a + b)[1..] == a[1..] + b;
      RunConcat(Step(s, a[0]), a[1..], b);
    }
  }

  // ---- the book ----

  /** The key's newest arming, unless it was cancelled after that. */
  function Newest(book: seq<Deed>, key: Key): Option<Event> {
    if book == [] then None
    else
      match book[|book| - 1]
      case Armed(e, _) => if e.key == key then Some(e) else Newest(book[..|book| - 1], key)
      case Cancelled(k) => if k == key then None else Newest(book[..|book| - 1], key)
  }

  function Armings(book: seq<Deed>, key: Key): nat {
    if book == [] then 0
    else Armings(book[..|book| - 1], key) + (if book[|book| - 1].Armed? && book[|book| - 1].e.key == key then 1 else 0)
  }

  function WarningsOf(warnings: seq<Warning>, key: Key): nat {
    if warnings == [] then 0
    else WarningsOf(warnings[..|warnings| - 1], key) + (if warnings[|warnings| - 1].e.key == key then 1 else 0)
  }

  lemma BookSnoc(book: seq<Deed>, d: Deed, key: Key)
    ensures Newest(book + [d], key) == match d
                                       case Armed(e, _) => if e.key == key then Some(e) else Newest(book, key)
                                       case Cancelled(k) => if k == key then None else Newest(book, key)
    ensures Armings(book + [d], key) == Armings(book, key) + (if d.Armed? && d.e.key == key then 1 else 0)
  {
    assert (book + [d])[..|book|] == book;
  }

  lemma WarningsSnoc(warnings: seq<Warning>, w: Warning, key: Key)
    ensures WarningsOf(warnings + [w], key) == WarningsOf(warnings, key) + (if w.e.key == key then 1 else 0)
  {
    assert (warnings + [w])[..|warnings|] == warnings;
  }

  // ---- what every step keeps ----

  /** The key was armed for that moment with a wait that is over by then. */
  predicate WaitedFor(book: seq<Deed>, key: Key, at: int, now: int) {
    exists k :: 0 <= k < |book| && book[k].Armed? && book[k].e.key == key && book[k].e.at == at && at + book[k].after <= now
  }

  /** A warning was composed from the newest arming, after the wait of one for the same moment and within the `ttl`. */
  predicate Well(w: Warning) {
    Newest(w.book, w.e.key) == Some(w.e) && WaitedFor(w.book, w.e.key, w.e.at, w.now) && w.now < w.e.at + w.ttl
  }

  predicate KeptArmed(l: Ledger) {
    forall key :: key in l.armedBy ==> l.armedBy[key].key == key && Newest(l.book, key) == Some(l.armedBy[key])
  }

  /** Each warning used up an arming. */
  predicate Counts(l: Ledger, key: Key) {
    WarningsOf(l.warnings, key) + (if key in l.armedBy then 1 else 0) <= Armings(l.book, key)
  }

  ghost predicate KeptCount(l: Ledger) {
    forall key :: Counts(l, key)
  }

  predicate KeptTimes(l: Ledger) {
    && (forall key :: key in l.waiting ==> WaitedFor(l.book, key, l.waiting[key].idleSince, l.waiting[key].dueAt))
    && (forall i :: 0 <= i < |l.queue| && l.queue[i].DueJob? ==> WaitedFor(l.book, l.queue[i].key, l.queue[i].idleSince, l.now))
  }

  predicate KeptWarnings(l: Ledger) {
    forall i :: 0 <= i < |l.warnings| ==> Well(l.warnings[i])
  }

  ghost predicate Kept(l: Ledger) {
    KeptArmed(l) && KeptCount(l) && KeptTimes(l) && KeptWarnings(l)
  }

  lemma StillWaited(book: seq<Deed>, d: Deed, key: Key, at: int, now: int)
    requires WaitedFor(book, key, at, now)
    ensures WaitedFor(book + [d], key, at, now)
  {
    var k :| 0 <= k < |book| && book[k].Armed? && book[k].e.key == key && book[k].e.at == at && at + book[k].after <= now;
    assert (book + [d])[k] == book[k];
  }

  lemma WaitedLonger(book: seq<Deed>, key: Key, at: int, now: int, later: int)
    requires WaitedFor(book, key, at, now) && now <= later
    ensures WaitedFor(book, key, at, later)
  {
  }

  /** What has been waited for stays so when the book grows. */
  lemma BookKeepsTimes(l: Ledger, d: Deed)
    requires KeptTimes(l)
    ensures KeptTimes(l.(book := l.book + [d]))
  {
    var m := l.(book := l.book + [d]);
    forall key | key in m.waiting
      ensures WaitedFor(m.book, key, m.waiting[key].idleSince, m.waiting[key].dueAt)
    {
      StillWaited(l.book, d, key, l.waiting[key].idleSince, l.waiting[key].dueAt);
    }
    forall i | 0 <= i < |m.queue| && m.queue[i].DueJob?
      ensures WaitedFor(m.book, m.queue[i].key, m.queue[i].idleSince, m.now)
    {
      StillWaited(l.book, d, l.queue[i].key, l.queue[i].idleSince, l.now);
    }
  }

  lemma ArmKeeps(l: Ledger, e: Event, opts: Options)
    requires Kept(l)
    ensures Kept(Arm(l, e, opts))
  {
    var d := Armed(e, opts.after);
    forall key
      ensures Newest(l.book + [d], key) == if e.key == key then Some(e) else Newest(l.book, key)
      ensures Counts(Arm(l, e, opts), key)
    {
      BookSnoc(l.book, d, key);
      assert Counts(l, key);
    }
    BookKeepsTimes(l, d);
    assert (l.book + [d])[|l.book|] == d;
  }

  lemma CancelKeeps(l: Ledger, key: Key)
    requires Kept(l)
    ensures Kept(Cancel(l, key))
  {
    var d := Cancelled(key);
    forall k
      ensures Newest(l.book + [d], k) == if k == key then None else Newest(l.book, k)
      ensures Counts(Cancel(l, key), k)
    {
      BookSnoc(l.book, d, k);
      assert Counts(l, k);
    }
    BookKeepsTimes(l, d);
  }

  lemma UseKeeps(l: Ledger, key: Key, idleSince: int, opts: Options, a: Answer)
    requires Kept(l) && Current(l, key, idleSince) && WaitedFor(l.book, key, idleSince, l.now)
    ensures Kept(Used(l, key, idleSince, opts, a))
  {
    var w := Warning(l.armedBy[key], l.now, opts.ttl, l.book);
    forall k
      ensures Counts(Used(l, key, idleSince, opts, a), k)
    {
      WarningsSnoc(l.warnings, w, k);
      assert Counts(l, k);
    }
    if Warns(l.now, key, idleSince, opts, a) {
      assert Well(w);
    }
  }

  lemma JobKeeps(s: State, job: Job, opts: Options, a: Answer)
    requires Kept(s.ledger)
    requires job.DueJob? ==> WaitedFor(s.ledger.book, job.key, job.idleSince, s.ledger.now)
    ensures Kept(Done(s, job, opts, a).ledger)
  {
    match job
    case StepJob(e) =>
      var v := Classify(e);
      if v.Some? {
        if v.value.cancel {
          CancelKeeps(s.ledger, e.key);
        }
        ArmKeeps(if v.value.cancel then Cancel(s.ledger, e.key) else s.ledger, e, opts);
      }
    case DueJob(key, idleSince) =>
      if Current(s.ledger, key, idleSince) {
        UseKeeps(s.ledger, key, idleSince, opts, a);
      }
  }

  /** Nothing that the count is about has changed. */
  lemma CountStays(l: Ledger, m: Ledger)
    requires KeptCount(l) && m.book == l.book && m.warnings == l.warnings && m.armedBy.Keys <= l.armedBy.Keys
    ensures KeptCount(m)
  {
    forall key
      ensures Counts(m, key)
    {
      assert Counts(l, key);
    }
  }

  lemma PassKeepsTimes(l: Ledger, ms: nat)
    requires KeptTimes(l)
    ensures KeptTimes(l.(now := l.now + ms))
  {
    forall i | 0 <= i < |l.queue| && l.queue[i].DueJob?
      ensures WaitedFor(l.book, l.queue[i].key, l.queue[i].idleSince, l.now + ms)
    {
      WaitedLonger(l.book, l.queue[i].key, l.queue[i].idleSince, l.now, l.now + ms);
    }
  }

  lemma FallKeepsTimes(l: Ledger, key: Key)
    requires KeptTimes(l) && key in l.waiting && l.waiting[key].dueAt <= l.now
    ensures KeptTimes(l.(waiting := l.waiting - {key}, queue := l.queue + [DueJob(key, l.waiting[key].idleSince)]))
  {
    WaitedLonger(l.book, key, l.waiting[key].idleSince, l.waiting[key].dueAt, l.now);
  }

  lemma StepKeeps(s: State, h: Happening)
    requires Kept(s.ledger) && Enabled(s, h)
    ensures Kept(Step(s, h).ledger)
  {
    var l := s.ledger;
    match h
    case Restores(e, opts) => ArmKeeps(l, e, opts);
    case Runs(opts, a) =>
      var rest := s.(ledger := l.(queue := l.queue[1..]));
      CountStays(l, rest.ledger);
      assert KeptTimes(rest.ledger);
      JobKeeps(rest, l.queue[0], opts, a);
    case TimePasses(ms) =>
      CountStays(l, Step(s, h).ledger);
      PassKeepsTimes(l, ms);
    case FallsDue(key) =>
      CountStays(l, Step(s, h).ledger);
      FallKeepsTimes(l, key);
    case _ => CountStays(l, Step(s, h).ledger);
  }

  lemma {:induction false} RunKeeps(s: State, hs: seq<Happening>)
    requires Kept(s.ledger) && Possible(s, hs)
    ensures Kept(Run(s, hs).ledger)
    decreases |hs|
  {
    if hs != [] {
      StepKeeps(s, hs[0]);
      RunKeeps(Step(s, hs[0]), hs[1..]);
    }
  }

  /**
   In every run, with jobs that wait behind others and deadlines that are replaced meanwhile: each cache warning was composed from its key's newest arming,
   with no cancelling event handled since, after its wait and less than `ttl` past its event; and no key has had more warnings than armings.
   */
  lemma WarningsAreTrue(now: int, hs: seq<Happening>, key: Key)
    requires Possible(Begin(now), hs)
    ensures var l := Run(Begin(now), hs).ledger;
            && (forall i :: 0 <= i < |l.warnings| ==> Well(l.warnings[i]))
            && WarningsOf(l.warnings, key) <= Armings(l.book, key)
  {
    RunKeeps(Begin(now), hs);
    var l := Run(Begin(now), hs).ledger;
    assert Counts(l, key);
    assert forall i :: 0 <= i < |l.warnings| ==> Well(l.warnings[i]);
  }

  /** The wait is the newest arming's own when no other arming of the key for the same millisecond had a shorter one. */
  lemma WaitIsItsOwn(w: Warning, own: nat)
    requires Well(w)
    requires forall k :: 0 <= k < |w.book| && w.book[k].Armed? && w.book[k].e.key == w.e.key && w.book[k].e.at == w.e.at ==> w.book[k].after >= own
    ensures w.e.at + own <= w.now < w.e.at + w.ttl
  {
  }

  // ---- two armings for one millisecond ----

  predicate Arms(e: Event) {
    Classify(e).Some? && Classify(e).value.arms && !Classify(e).value.cancel
  }

  /** Two events of one pane in one millisecond, which both arm it. */
  predicate Together(d: Event, e: Event) {
    Arms(d) && Arms(e) && d.key == e.key && d.at == e.at
  }

  /** A warning of a key that was armed twice, that comes before the wait of the second arming is over. */
  predicate Early(w: Warning, d: Event, e: Event, short: nat, long: nat) {
    w.book == [Armed(d, short), Armed(e, long)] && w.e == e && w.now < e.at + long
  }

  const UNPOSTED := Answer(false, false, false, Some(Waiting), 0)
  const POSTED := Answer(false, true, true, Some(Waiting), 0)

  /** The second event waits in the chain for the first deadline to fall due, and is handled before the job of that. */
  function Overtaking(d: Event, e: Event, short: Options, long: Options): seq<Happening> {
    [Arrives(d), Runs(short, UNPOSTED), Arrives(e), TimePasses(short.after), FallsDue(e.key), Runs(long, UNPOSTED), Runs(long, POSTED)]
  }

  lemma StepArms(s: State, e: Event, opts: Options)
    requires !s.stopped && s.screen.questions == map[] && Arms(e) && CacheExpiring in opts.enabled
    ensures var t := Stepped(s, e, opts, UNPOSTED);
            !t.stopped && t.screen.questions == map[] && t.ledger == Arm(s.ledger, e, opts)
  {
  }

  /** The first event has armed the key, and the second waits in the chain when the deadline falls due. */
  lemma ArmedFirst(d: Event, e: Event, short: Options) returns (s: State)
    requires Together(d, e) && CacheExpiring in short.enabled
    ensures var s1 := Step(Begin(e.at), Arrives(d));
            && Enabled(s1, Runs(short, UNPOSTED))
            && s == Step(Step(Step(s1, Runs(short, UNPOSTED)), Arrives(e)), TimePasses(short.after))
    ensures !s.stopped && s.screen.questions == map[]
    ensures s.ledger == Ledger(e.at + short.after, [StepJob(e)], map[e.key := Deadline(e.at, e.at + short.after)], map[e.key := d], [Armed(d, short.after)], [])
  {
    var s1 := Step(Begin(e.at), Arrives(d));
    assert s1.ledger.queue == [StepJob(d)] && [StepJob(d)][1..] == [];
    StepArms(s1.(ledger := s1.ledger.(queue := [])), d, short);
    s := Step(Step(Step(s1, Runs(short, UNPOSTED)), Arrives(e)), TimePasses(short.after));
  }

  /** The second event has armed the key anew, and the job of the first deadline is next. */
  lemma ArmedAgain(s: State, d: Event, e: Event, short: Options, long: Options) returns (t: State)
    requires Together(d, e) && CacheExpiring in long.enabled && !s.stopped && s.screen.questions == map[]
    requires s.ledger == Ledger(e.at + short.after, [StepJob(e)], map[e.key := Deadline(e.at, e.at + short.after)], map[e.key := d], [Armed(d, short.after)], [])
    ensures Enabled(s, FallsDue(e.key)) && Enabled(Step(s, FallsDue(e.key)), Runs(long, UNPOSTED))
    ensures t == Step(Step(s, FallsDue(e.key)), Runs(long, UNPOSTED)) && !t.stopped && t.screen.questions == map[]
    ensures t.ledger == Ledger(e.at + short.after, [DueJob(e.key, e.at)], map[e.key := Deadline(e.at, e.at + long.after)], map[e.key := e],
                               [Armed(d, short.after), Armed(e, long.after)], [])
  {
    var next, due := StepJob(e), DueJob(e.key, e.at);
    var s5 := Step(s, FallsDue(e.key));
    assert s5.ledger.queue == [next, due] && [next, due][1..] == [due];
    StepArms(s5.(ledger := s5.ledger.(queue := [due])), e, long);
    t := Step(s5, Runs(long, UNPOSTED));
  }

  lemma ShortWaitIsUsed(d: Event, e: Event, short: Options, long: Options)
    requires Together(d, e) && CacheExpiring in short.enabled && CacheExpiring in long.enabled
    requires short.after < long.after < long.ttl
    ensures var hs := Overtaking(d, e, short, long);
            && Possible(Begin(e.at), hs)
            && Run(Begin(e.at), hs).ledger.warnings == [Warning(e, e.at + short.after, long.ttl, [Armed(d, short.after), Armed(e, long.after)])]
  {
    var s4 := ArmedFirst(d, e, short);
    var s6 := ArmedAgain(s4, d, e, short, long);
    var job := DueJob(e.key, e.at);
    assert [job][1..] == [];
    Seven(Begin(e.at), Arrives(d), Runs(short, UNPOSTED), Arrives(e), TimePasses(short.after), FallsDue(e.key), Runs(long, UNPOSTED), Runs(long, POSTED));
  }

  /**
   Of two armings of one key for one millisecond, the second can be warned of before its own wait is over in some run exactly when the wait of the
   first is shorter, for any two options in which the wait is below the `ttl`.
   */
  lemma SameMillisecond(d: Event, e: Event, short: Options, long: Options)
    requires Together(d, e) && CacheExpiring in short.enabled && CacheExpiring in long.enabled
    requires long.after < long.ttl
    ensures (exists now, hs, w ::
               Possible(Begin(now), hs) && w in Run(Begin(now), hs).ledger.warnings && Early(w, d, e, short.after, long.after))
            <==> short.after < long.after
  {
    if short.after < long.after {
      var hs := Overtaking(d, e, short, long);
      ShortWaitIsUsed(d, e, short, long);
      var w := Warning(e, e.at + short.after, long.ttl, [Armed(d, short.after), Armed(e, long.after)]);
      assert w in Run(Begin(e.at), hs).ledger.warnings && Early(w, d, e, short.after, long.after);
    }
    forall now, hs, w | Possible(Begin(now), hs) && w in Run(Begin(now), hs).ledger.warnings && Early(w, d, e, short.after, long.after)
      ensures short.after < long.after
    {
      WarningsAreTrue(now, hs, e.key);
      assert Well(w);
    }
  }

  /** Ten seconds are waited, and not the 50 minutes of the second arming. */
  lemma TenSeconds()
    ensures var e := Event(Stop(false), Pane(0), 100000);
            var short, long := Options({CacheExpiring}, 10000, 3600000), Options({CacheExpiring}, 3000000, 3600000);
            var hs := Overtaking(e, e, short, long);
            && Possible(Begin(100000), hs)
            && Warning(e, 110000, 3600000, [Armed(e, 10000), Armed(e, 3000000)]) in Run(Begin(100000), hs).ledger.warnings
  {
    ShortWaitIsUsed(Event(Stop(false), Pane(0), 100000), Event(Stop(false), Pane(0), 100000),
                    Options({CacheExpiring}, 10000, 3600000), Options({CacheExpiring}, 3000000, 3600000));
  }

  lemma Seven(s: State, a: Happening, b: Happening, c: Happening, d: Happening, e: Happening, f: Happening, g: Happening)
    requires Enabled(s, a)
    requires var s1 := Step(s, a);
             Enabled(s1, b) && Enabled(Step(s1, b), c) && Enabled(Step(Step(s1, b), c), d)
    requires var s4 := Step(Step(Step(Step(s, a), b), c), d);
             Enabled(s4, e) && Enabled(Step(s4, e), f) && Enabled(Step(Step(s4, e), f), g)
    ensures Possible(s, [a, b, c, d, e, f, g])
    ensures Run(s, [a, b, c, d, e, f, g]) == Step(Step(Step(Step(Step(Step(Step(s, a), b), c), d), e), f), g)
  {
    var s3 := Step(Step(Step(s, a), b), c);
    Four(s3, d, e, f, g);
    First(Step(Step(s, a), b), c, [d, e, f, g]);
    assert [c] + [d, e, f, g] == [c, d, e, f, g];
    First(Step(s, a), b, [c, d, e, f, g]);
    assert [b] + [c, d, e, f, g] == [b, c, d, e, f, g];
    First(s, a, [b, c, d, e, f, g]);
    assert [a] + [b, c, d, e, f, g] == [a, b, c, d, e, f, g];
  }

  lemma Four(s: State, a: Happening, b: Happening, c: Happening, d: Happening)
    requires Enabled(s, a) && Enabled(Step(s, a), b) && Enabled(Step(Step(s, a), b), c) && Enabled(Step(Step(Step(s, a), b), c), d)
    ensures Possible(s, [a, b, c, d])
    ensures Run(s, [a, b, c, d]) == Step(Step(Step(Step(s, a), b), c), d)
  {
    First(Step(Step(Step(s, a), b), c), d, []);
    assert [d] + [] == [d];
    First(Step(Step(s, a), b), c, [d]);
    assert [c] + [d] == [c, d];
    First(Step(s, a), b, [c, d]);
    assert [b] + [c, d] == [b, c, d];
    First(s, a, [b, c, d]);
    assert [a] + [b, c, d] == [a, b, c, d];
  }

  lemma First(s: State, h: Happening, rest: seq<Happening>)
    requires Enabled(s, h) && Possible(Step(s, h), rest)
    ensures Possible(s, [h] + rest) && Run(s, [h] + rest) == Run(Step(s, h), rest)
  {
    assert ([h] + rest)[1..] == rest;
  }

  /** A stopped engine arms nothing, warns of nothing and tells the notifier nothing more. */
  lemma {:induction false} StoppedIsSilent(s: State, hs: seq<Happening>)
    requires s.stopped && Possible(s, hs)
    ensures var t := Run(s, hs);
            t.stopped && t.ledger.book == s.ledger.book && t.ledger.warnings == s.ledger.warnings && t.screen.ops == s.screen.ops
    decreases |hs|
  {
    if hs != [] {
      StoppedIsSilent(Step(s, hs[0]), hs[1..]);
    }
  }

  // ---- what is on screen ----

  /** Whether the last thing that put a key's notice up or took it down put it up. */
  predicate OnScreen(ops: seq<Op>, key: Key) {
    ops != [] &&
      match ops[|ops| - 1]
      case Shown(k) => k == key || OnScreen(ops[..|ops| - 1], key)
      case Withdrawn(k) => k != key && OnScreen(ops[..|ops| - 1], key)
      case Dropped(_) => OnScreen(ops[..|ops| - 1], key)
  }

  /** The engine knows what is up. */
  ghost predicate KnowsUp(c: Screen) {
    forall key :: key in c.up <==> OnScreen(c.ops, key)
  }

  lemma OpSnoc(ops: seq<Op>, op: Op, key: Key)
    ensures OnScreen(ops + [op], key) == match op
                                         case Shown(k) => k == key || OnScreen(ops, key)
                                         case Withdrawn(k) => k != key && OnScreen(ops, key)
                                         case Dropped(_) => OnScreen(ops, key)
  {
    assert (ops + [op])[..|ops|] == ops;
  }

  lemma DoneKnowsUp(c: Screen, op: Op, up: set<Key>)
    requires KnowsUp(c)
    requires up == match op
                   case Shown(k) => c.up + {k}
                   case Withdrawn(k) => c.up - {k}
                   case Dropped(_) => c.up
    ensures forall key :: key in up <==> OnScreen(c.ops + [op], key)
  {
    forall key {
      OpSnoc(c.ops, op, key);
    }
  }

  lemma TakenDownKnowsUp(c: Screen, key: Key)
    requires KnowsUp(c)
    ensures KnowsUp(TakenDown(c, key)) && !OnScreen(TakenDown(c, key).ops, key)
  {
    DoneKnowsUp(c, Withdrawn(key), c.up - {key});
  }

  /** A notice that was dropped leaves none of its own on screen, which would say something that is no longer so. */
  lemma PostKnowsUp(c: Screen, kind: Kind, e: Event, a: Answer)
    requires KnowsUp(c)
    ensures KnowsUp(Posted(c, kind, e, a))
    ensures a.posted && !(a.paneGone && kind.CacheExpiring?) ==> (OnScreen(Posted(c, kind, e, a).ops, e.key) <==> a.shown)
  {
    var asked := if a.paneGone then Unasked(c, e.key) else c;
    DoneKnowsUp(asked, Shown(e.key), asked.up + {e.key});
    DoneKnowsUp(asked, Dropped(e.key), asked.up);
    var dropped := asked.(ops := asked.ops + [Dropped(e.key)]);
    TakenDownKnowsUp(dropped, e.key);
  }

  lemma StepKnowsUp(s: State, h: Happening)
    requires KnowsUp(s.screen) && Enabled(s, h)
    ensures KnowsUp(Step(s, h).screen)
  {
    if h.Runs? {
      match s.ledger.queue[0]
      case StepJob(e) =>
        var v := Classify(e);
        if v.Some? {
          var answered := if v.value.cancel || v.value.kind == Some(TurnDone) then Unasked(s.screen, e.key) else s.screen;
          TakenDownKnowsUp(answered, e.key);
          var withdrawn := if v.value.withdraw then TakenDown(answered, e.key) else answered;
          if v.value.kind.Some? {
            PostKnowsUp(withdrawn, v.value.kind.value, e, h.answer);
          }
        }
      case DueJob(key, idleSince) =>
        if key in s.ledger.armedBy {
          PostKnowsUp(s.screen, CacheExpiring, s.ledger.armedBy[key], h.answer);
        }
    }
  }

  /** In every run what the engine takes for up is what is on screen, so it withdraws nothing that is not there. */
  lemma {:induction false} RunKnowsUp(s: State, hs: seq<Happening>)
    requires KnowsUp(s.screen) && Possible(s, hs)
    ensures KnowsUp(Run(s, hs).screen)
    decreases |hs|
  {
    if hs != [] {
      StepKnowsUp(s, hs[0]);
      RunKnowsUp(Step(s, hs[0]), hs[1..]);
    }
  }
}
