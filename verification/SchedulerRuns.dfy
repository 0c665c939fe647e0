/** Whole runs of the scheduler: what holds in every reachable state. */
module SchedulerRuns {
  import opened Ticks
  import opened Lists
  import opened Delays
  import opened SchedState
  import opened Scheduler

  datatype Event =
    | Creates(t: nat, p: Priority)
    | Deletes(t: nat)
    | CleansUp
    | Suspends(t: nat)
    | Resumes(t: nat)
    | ResumesFromISR(t: nat)
    | Blocks(n: Tick, indefinitely: bool, onEvent: bool)
    | WakesWaiter(t: nat)
    | WakesUnordered(t: nat)
    | TickPasses
    | SuspendsAll
    | ResumesAll
    | Switches
    | TakesMutex
    | Inherits(holder: nat)
    | GivesMutex
    | TimesOut(holder: nat, highest: Priority)

  /** A handle to a task that has not been deleted, nor asked to be. */
  predicate Live(s: Sched, t: nat) {
    t in s.tasks && t !in s.terminating
  }

  /** What the source asks of its callers, by assertion or by comment; the running task may delete or
      suspend itself only while the scheduler is not suspended. */
  predicate Possible(s: Sched, e: Event) {
    match e
    case Creates(t, _) => t !in s.tasks
    case Deletes(t) => Live(s, t) && (t == s.current ==> s.depth == 0)
    case CleansUp => s.current !in s.terminating
    case Suspends(t) => Live(s, t) && (t == s.current ==> s.depth == 0)
    case Blocks(n, _, _) => InReady(s, s.current) && n > 0
    case WakesWaiter(t) => t in s.events
    case WakesUnordered(t) => t in s.events && s.depth > 0
    case ResumesAll => s.depth > 0
    case TakesMutex => s.current in s.tasks
    case Inherits(t) => t in s.tasks
    case GivesMutex => HeldBy(s, s.current) > 0
    case TimesOut(t, _) => t in s.tasks
    case _ => true
  }

  function Apply(s: Sched, e: Event): Sched
    requires Possible(s, e)
  {
    match e
    case Creates(t, p) => Create(s, t, p)
    case Deletes(t) => Delete(s, t)
    case CleansUp => CleanUp(s)
    case Suspends(t) => SuspendTask(s, t)
    case Resumes(t) => ResumeTask(s, t)
    case ResumesFromISR(t) => ResumeFromISR(s, t)
    case Blocks(n, indefinitely, onEvent) => Block(s, n, indefinitely, onEvent)
    case WakesWaiter(t) => RemoveFromEventList(s, t)
    case WakesUnordered(t) => RemoveFromUnorderedEventList(s, t)
    case TickPasses => TickInterrupt(s).0
    case SuspendsAll => SuspendAll(s)
    case ResumesAll => ResumeAll(s)
    case Switches => SwitchContext(s)
    case TakesMutex => CountMutex(s)
    case Inherits(t) => Inherit(s, t)
    case GivesMutex => Disinherit(s)
    case TimesOut(t, p) => DisinheritAfterTimeout(s, t, p)
  }

  /** The kernel just started: the idle task is there and runs. */
  const IDLE: nat := 0

  function Started(tick: Tick): Sched {
    var ready: ReadyLists := EmptyLists(MAX_PRIORITIES);
    var none := Sched(map[], IDLE, ready, 0, Delay(tick, 0, MAX_DELAY, [], []), [], [], [], {}, 0, 0, false, 0);
    Create(none, IDLE, 0)
  }

  /** The idle task is never asked to block, suspend or be deleted. */
  predicate SparesIdle(s: Sched, e: Event) {
    match e
    case Deletes(t) => t != IDLE
    case Suspends(t) => t != IDLE
    case Blocks(_, _, _) => s.current != IDLE
    case _ => true
  }

  ghost predicate PossibleRun(s: Sched, es: seq<Event>)
    decreases |es|
  {
    es == [] || (Possible(s, es[0]) && SparesIdle(s, es[0]) && PossibleRun(Apply(s, es[0]), es[1..]))
  }

  function Run(s: Sched, es: seq<Event>): Sched
    requires PossibleRun(s, es)
    decreases |es|
  {
    if es == [] then s else Run(Apply(s, es[0]), es[1..])
  }

  /** Every reachable state is in order, and the idle task is ready in it. */
  ghost predicate Good(s: Sched) {
    SchedState.Inv(s) && InReady(s, IDLE)
  }

  // ---------------------------------------------------------------- the idle task stays ready

  /** `t` stays ready unless it is the task that is taken off. */
  lemma UnlinkOthersReady(s: Sched, t: nat, x: nat)
    requires InReady(s, x) && x != t
    ensures InReady(Unlink(s, t), x)
  {
    if InReady(s, t) && PriorityOf(s, t) == PriorityOf(s, x) {
      var l := s.ready[PriorityOf(s, t)];
      var p := l.Position(t);
      assert l.items == l.items[..p] + [t] + l.items[p + 1..];
    }
  }

  lemma AddReadyAlsoReady(s: Sched, t: nat, x: nat)
    requires InReady(s, x) || x == t
    ensures InReady(AddReady(s, t), x)
  {
    AddReadyReady(s, t, x);
  }

  /** Being moved to the end of its ready list, or another task being so, leaves it ready. */
  lemma MakeReadyStill(s: Sched, t: nat, x: nat)
    requires InReady(s, x)
    ensures InReady(AddReady(Unlink(s, t), t), x) && InReady(MakeReady(s, t), x)
  {
    assert InReady(ClearEvent(s, t), x);
    if x != t {
      UnlinkOthersReady(s, t, x);
      UnlinkOthersReady(ClearEvent(s, t), t, x);
    }
    AddReadyAlsoReady(Unlink(s, t), t, x);
    AddReadyAlsoReady(Unlink(ClearEvent(s, t), t), t, x);
  }

  lemma {:induction false} ReadyAllStill(s: Sched, ts: seq<nat>, x: nat)
    requires InReady(s, x)
    ensures InReady(ReadyAll(s, ts), x)
    decreases |ts|
  {
    if ts != [] {
      AddReadyAlsoReady(ClearEvent(s, ts[0]), ts[0], x);
      ReadyAllStill(AddReady(ClearEvent(s, ts[0]), ts[0]), ts[1..], x);
    }
  }

  lemma {:induction false} DrainStill(s: Sched, x: nat)
    requires InReady(s, x)
    ensures InReady(Drain(s), x)
    decreases |s.pending|
  {
    if s.pending != [] {
      hide MakeReady, Without, Drain;
      DrainUnrolled(s);
      var s1 := YieldIf(s, PriorityOf(s, s.pending[0]) >= PriorityOf(s, s.current));
      WithoutHeadShorter(s.pending);
      MakeReadyStill(s1, s.pending[0], x);
      MakeReadyOthers(s1, s.pending[0]);
      DrainStill(MakeReady(s1, s.pending[0]), x);
    }
  }

  lemma DrainUnrolled(s: Sched)
    requires s.pending != []
    ensures var t := s.pending[0];
            Drain(s) == Drain(MakeReady(YieldIf(s, PriorityOf(s, t) >= PriorityOf(s, s.current)), t))
  {
  }

  lemma {:induction false} CatchUpStill(s: Sched, n: nat, x: nat)
    requires InReady(s, x)
    ensures InReady(CatchUp(s, n), x)
  {
    if n > 0 {
      CatchUpStill(s, n - 1, x);
      RunningTickStill(CatchUp(s, n - 1), x);
    }
  }

  lemma RunningTickStill(s: Sched, x: nat)
    requires InReady(s, x)
    ensures InReady(RunningTick(s).0, x) && InReady(CatchUpOne(s), x)
  {
    ReadyAllStill(s.(delay := IncrementTick(s.delay).0), IncrementTick(s.delay).1, x);
  }

  lemma ResumeAllStill(s: Sched, x: nat)
    requires InReady(s, x)
    ensures InReady(ResumeAll(s), x)
  {
    if s.depth <= 1 {
      assert InReady(s.(depth := 0), x);
      DrainStill(s.(depth := 0), x);
      hide CatchUp;
      CatchUpStill(Reopened(s), s.pended, x);
      ReopenedPended(s);
    }
  }

  lemma ReopenedPended(s: Sched)
    ensures Reopened(s).pended == s.pended
  {
    DrainPended(s.(depth := 0));
  }

  lemma {:induction false} DrainPended(s: Sched)
    ensures Drain(s).pended == s.pended
    decreases |s.pending|
  {
    if s.pending != [] {
      var s1 := YieldIf(s, PriorityOf(s, s.pending[0]) >= PriorityOf(s, s.current));
      WithoutHeadShorter(s.pending);
      MakeReadyOthers(s1, s.pending[0]);
      hide MakeReady;
      DrainPended(MakeReady(s1, s.pending[0]));
    }
  }

  lemma ReadyByList(s: Sched, p: Priority, x: nat)
    requires ByPriority(s) && x in s.ready[p].items
    ensures InReady(s, x)
  {
  }

  lemma DeleteStill(s: Sched, t: nat, x: nat)
    requires InReady(s, x) && x != t
    ensures InReady(Delete(s, t), x) && InReady(SuspendTask(s, t), x)
  {
    assert InReady(ClearEvent(s, t), x);
    UnlinkOthersReady(ClearEvent(s, t), t, x);
  }

  lemma CleanUpStill(s: Sched, x: nat)
    requires Core(s, {}) && s.current !in s.terminating && InReady(s, x)
    ensures InReady(CleanUp(s), x)
  {
    CleanUpKeeps(s);
    ReadyByList(CleanUp(s), PriorityOf(s, x), x);
  }

  lemma SwitchStill(s: Sched, x: nat)
    requires InReady(s, x)
    ensures InReady(SwitchContext(s), x)
  {
    hide HighestInUse;
  }

  lemma ReprioritiseStill(s: Sched, t: nat, p: Priority, x: nat)
    requires Core(s, {}) && t in s.tasks && InReady(s, x)
    ensures InReady(Reprioritise(s, t, p), x)
  {
    if InReady(s, t) {
      var s1 := Unlink(s, t);
      if x != t {
        UnlinkOthersReady(s, t, x);
        assert InReady(SetPriority(s1, t, p), x);
      }
      AddReadyAlsoReady(SetPriority(s1, t, p), t, x);
    } else {
      assert x != t;
    }
  }

  lemma InheritStill(s: Sched, t: nat, p: Priority, x: nat)
    requires Core(s, {}) && t in s.tasks && InReady(s, x)
    ensures InReady(Inherit(s, t), x) && InReady(DisinheritAfterTimeout(s, t, p), x)
  {
    hide Core, Reprioritise;
    ReprioritiseStill(s, t, PriorityOf(s, s.current), x);
    ReprioritiseStill(s, t, if BaseOf(s, t) < p then p else BaseOf(s, t), x);
  }

  lemma DisinheritStill(s: Sched, x: nat)
    requires Core(s, {}) && HeldBy(s, s.current) > 0 && InReady(s, x)
    ensures InReady(Disinherit(s), x)
  {
    hide Core, Reprioritise;
    var s1 := SetHeld(s, s.current, HeldBy(s, s.current) - 1);
    SetHeldKeeps(s, s.current, HeldBy(s, s.current) - 1);
    assert InReady(s1, x);
    ReprioritiseStill(s1, s.current, BaseOf(s, s.current), x);
  }

  lemma WakeStill(s: Sched, t: nat, x: nat)
    requires InReady(s, x)
    ensures InReady(RemoveFromEventList(s, t), x) && InReady(RemoveFromUnorderedEventList(s, t), x)
  {
    MakeReadyStill(s, t, x);
    hide AddReady, Unlink;
  }

  lemma ResumeStill(s: Sched, t: nat, x: nat)
    requires InReady(s, x)
    ensures InReady(ResumeTask(s, t), x) && InReady(ResumeFromISR(s, t), x)
  {
    hide AddReady, Unlink, MakeReady;
    var s1 := YieldIf(s, PriorityOf(s, t) >= PriorityOf(s, s.current));
    assert InReady(s1, x);
    MakeReadyStill(s, t, x);
    MakeReadyStill(s1, t, x);
  }

  lemma BlockStill(s: Sched, n: Tick, indefinitely: bool, onEvent: bool, x: nat)
    requires InReady(s, x) && x != s.current
    ensures InReady(Block(s, n, indefinitely, onEvent), x)
  {
    UnlinkOthersReady(s, s.current, x);
    hide Unlink;
  }

  lemma CreateStill(s: Sched, t: nat, p: Priority, x: nat)
    requires InReady(s, x) && (x == t || t !in s.tasks)
    ensures x != t ==> InReady(Create(s, t, p), x)
  {
    if x != t {
      assert InReady(NewTask(s, t, p), x);
      AddReadyAlsoReady(NewTask(s, t, p), t, x);
    }
  }

  /** The idle task stays ready. */
  lemma IdleStaysReady(s: Sched, e: Event)
    requires Good(s) && Possible(s, e) && SparesIdle(s, e)
    ensures InReady(Apply(s, e), IDLE)
  {
    hide Core, Delete, SuspendTask, CleanUp, SwitchContext, Create, ResumeTask, ResumeFromISR, Block;
    hide RemoveFromEventList, RemoveFromUnorderedEventList, RunningTick, ResumeAll, Inherit, Disinherit;
    hide DisinheritAfterTimeout;
    match e
    case Creates(t, p) => IdleIsLive(s); CreateStill(s, t, p, IDLE);
    case Deletes(t) => DeleteStill(s, t, IDLE);
    case CleansUp => CleanUpStill(s, IDLE);
    case Suspends(t) => DeleteStill(s, t, IDLE);
    case Resumes(t) => ResumeStill(s, t, IDLE);
    case ResumesFromISR(t) => ResumeStill(s, t, IDLE);
    case Blocks(n, indefinitely, onEvent) => BlockStill(s, n, indefinitely, onEvent, IDLE);
    case WakesWaiter(t) => WakeStill(s, t, IDLE);
    case WakesUnordered(t) => WakeStill(s, t, IDLE);
    case TickPasses => RunningTickStill(s, IDLE);
    case SuspendsAll =>
    case ResumesAll => ResumeAllStill(s, IDLE);
    case Switches => SwitchStill(s, IDLE);
    case TakesMutex =>
    case Inherits(t) => InheritStill(s, t, 0, IDLE);
    case GivesMutex => DisinheritStill(s, IDLE);
    case TimesOut(t, p) => InheritStill(s, t, p, IDLE);
  }

  lemma IdleIsLive(s: Sched)
    requires Good(s)
    ensures IDLE in s.tasks
  {
    hide Partition, EventsMatch;
  }

  // ---------------------------------------------------------------- no tick is lost

  /** Ticks counted so far, including those held back while the scheduler is suspended. */
  function Elapsed(s: Sched): nat {
    Now(s.delay) + s.pended
  }

  /** While the scheduler is not suspended, nothing is held back. */
  predicate Settled(s: Sched) {
    s.depth == 0 ==> s.pending == [] && s.pended == 0
  }

  /** Neither ticks nor nesting change, and nobody is parked unless the scheduler is suspended. */
  predicate Quiet(s: Sched, s': Sched) {
    && s'.depth == s.depth && s'.pended == s.pended && Now(s'.delay) == Now(s.delay)
    && (s.pending == [] && s.depth == 0 ==> s'.pending == [])
  }

  lemma MovesAreQuiet(s: Sched, t: nat)
    ensures Quiet(s, Unlink(s, t)) && Quiet(s, AddReady(s, t)) && Quiet(s, ClearEvent(s, t))
    ensures Quiet(s, RescanDelay(s)) && Quiet(s, AddSuspended(s, t)) && Quiet(s, AddTerminating(s, t))
    ensures Quiet(s, DropTask(s, t))
  {
  }

  lemma MoreMovesAreQuiet(s: Sched, t: nat)
    ensures Quiet(s, MakeReady(s, t)) && Quiet(s, Delete(s, t)) && Quiet(s, SuspendTask(s, t))
  {
    var s1 := ClearEvent(s, t);
    var s2 := Unlink(s1, t);
    MovesAreQuiet(s, t);
    MovesAreQuiet(s1, t);
    MovesAreQuiet(s2, t);
    MovesAreQuiet(AddSuspended(s2, t), t);
    MovesAreQuiet(DropTask(s2, t), t);
    hide ClearEvent, Unlink, AddReady, AddSuspended, AddTerminating, DropTask, RescanDelay;
  }

  lemma ResumesAreQuiet(s: Sched, t: nat)
    ensures Quiet(s, ResumeTask(s, t)) && Quiet(s, ResumeFromISR(s, t))
  {
    var s1 := YieldIf(s, PriorityOf(s, t) >= PriorityOf(s, s.current));
    MovesAreQuiet(s, t);
    MovesAreQuiet(s1, t);
    MovesAreQuiet(Unlink(s, t), t);
    MovesAreQuiet(Unlink(s1, t), t);
    hide Unlink, AddReady;
  }

  lemma WakesAreQuiet(s: Sched, t: nat)
    ensures Quiet(s, RemoveFromEventList(s, t)) && Quiet(s, RemoveFromUnorderedEventList(s, t))
  {
    MoreMovesAreQuiet(s, t);
    MovesAreQuiet(s, t);
    MovesAreQuiet(ClearEvent(s, t), t);
    MovesAreQuiet(Unlink(ClearEvent(s, t), t), t);
    hide Unlink, AddReady, ClearEvent;
  }

  lemma BlockIsQuiet(s: Sched, n: Tick, indefinitely: bool, onEvent: bool)
    ensures Quiet(s, Block(s, n, indefinitely, onEvent))
  {
    MovesAreQuiet(s, s.current);
    hide Unlink;
  }

  lemma ReprioritiseIsQuiet(s: Sched, t: nat, p: Priority)
    requires t in s.tasks
    ensures Quiet(s, Reprioritise(s, t, p))
  {
    MovesAreQuiet(s, t);
    var s1 := SetPriority(Unlink(s, t), t, p);
    MovesAreQuiet(s1, t);
    hide Unlink, AddReady;
  }

  lemma InheritanceIsQuiet(s: Sched, t: nat, p: Priority)
    requires t in s.tasks && s.current in s.tasks
    ensures Quiet(s, Inherit(s, t)) && Quiet(s, DisinheritAfterTimeout(s, t, p))
    ensures HeldBy(s, s.current) > 0 ==> Quiet(s, Disinherit(s))
  {
    hide Reprioritise;
    ReprioritiseIsQuiet(s, t, PriorityOf(s, s.current));
    ReprioritiseIsQuiet(s, t, if BaseOf(s, t) < p then p else BaseOf(s, t));
    if HeldBy(s, s.current) > 0 {
      ReprioritiseIsQuiet(SetHeld(s, s.current, HeldBy(s, s.current) - 1), s.current, BaseOf(s, s.current));
    }
  }

  lemma CleanUpIsQuiet(s: Sched)
    requires Core(s, {}) && s.current !in s.terminating
    ensures Quiet(s, CleanUp(s))
  {
    CleanUpKeeps(s);
    hide CleanUp;
  }

  /** Every event but a tick and the nesting of suspensions is quiet. */
  lemma OthersAreQuiet(s: Sched, e: Event)
    requires Good(s) && Possible(s, e)
    requires !e.TickPasses? && !e.SuspendsAll? && !e.ResumesAll?
    ensures Quiet(s, Apply(s, e))
  {
    hide Core, Delete, SuspendTask, CleanUp, SwitchContext, ResumeTask, ResumeFromISR, Block;
    hide RemoveFromEventList, RemoveFromUnorderedEventList, Inherit, Disinherit, DisinheritAfterTimeout;
    match e
    case Creates(t, p) =>
    case Deletes(t) => MoreMovesAreQuiet(s, t);
    case CleansUp => CleanUpIsQuiet(s);
    case Suspends(t) => MoreMovesAreQuiet(s, t);
    case Resumes(t) => ResumesAreQuiet(s, t);
    case ResumesFromISR(t) => ResumesAreQuiet(s, t);
    case Blocks(n, indefinitely, onEvent) => BlockIsQuiet(s, n, indefinitely, onEvent);
    case WakesWaiter(t) => WakesAreQuiet(s, t);
    case WakesUnordered(t) => WakesAreQuiet(s, t);
    case Switches => SwitchKeepsOthers(s);
    case TakesMutex =>
    case Inherits(t) => CurrentIsLive(s); InheritanceIsQuiet(s, t, 0);
    case GivesMutex => CurrentIsLive(s); InheritanceIsQuiet(s, s.current, 0);
    case TimesOut(t, p) => CurrentIsLive(s); InheritanceIsQuiet(s, t, p);
  }

  lemma CurrentIsLive(s: Sched)
    requires Good(s)
    ensures s.current in s.tasks
  {
    hide Partition, EventsMatch, ByPriority;
  }

  function TickCount(es: seq<Event>): nat
    decreases |es|
  {
    if es == [] then 0 else (if es[0].TickPasses? then 1 else 0) + TickCount(es[1..])
  }

  lemma EventKeepsElapsed(s: Sched, e: Event)
    requires Good(s) && Possible(s, e)
    ensures Elapsed(Apply(s, e)) == Elapsed(s) + TickCount([e]) && Settled(Apply(s, e))
  {
    hide Core;
    if e.TickPasses? {
      if s.depth == 0 {
        hide RunningTick;
        CatchUpOneKeeps(s);
      }
    } else if e.ResumesAll? {
      hide ResumeAll;
      ResumeAllKeeps(s);
    } else if e.SuspendsAll? {
    } else {
      hide Apply;
      OthersAreQuiet(s, e);
    }
  }

  // ---------------------------------------------------------------- every reachable state is in order

  lemma EventKeepsCore(s: Sched, e: Event)
    requires Good(s) && Possible(s, e)
    ensures Core(Apply(s, e), {}) && Delays.Inv(Apply(s, e).delay)
  {
    hide Core, Delete, SuspendTask, CleanUp, SwitchContext, Create, ResumeTask, ResumeFromISR, Block;
    hide RemoveFromEventList, RemoveFromUnorderedEventList, RunningTick, ResumeAll, Inherit, Disinherit;
    hide DisinheritAfterTimeout, CountMutex, Delays.Inv;
    match e
    case Creates(t, p) => CreateKeeps(s, t, p); CreateIsAwake(s, t, p);
    case Deletes(t) => DeleteKeeps(s, t);
    case CleansUp => CleanUpKeeps(s);
    case Suspends(t) => SuspendTaskKeeps(s, t);
    case Resumes(t) => ResumeTaskKeeps(s, t);
    case ResumesFromISR(t) => ResumeFromISRKeeps(s, t);
    case Blocks(n, indefinitely, onEvent) => BlockKeeps(s, n, indefinitely, onEvent);
    case WakesWaiter(t) => RemoveFromEventListKeeps(s, t);
    case WakesUnordered(t) => RemoveFromUnorderedKeeps(s, t);
    case TickPasses => TickKeepsCore(s);
    case SuspendsAll => NestingKeeps(s);
    case ResumesAll => ResumeAllKeeps(s);
    case Switches => SwitchKeeps(s);
    case TakesMutex => SetHeldKeeps(s, s.current, HeldBy(s, s.current) + 1); TakeKeepsDelay(s);
    case Inherits(t) => InheritKeeps(s, t, 0);
    case GivesMutex => DisinheritKeeps(s);
    case TimesOut(t, p) => InheritKeeps(s, t, p);
  }

  lemma CreateIsAwake(s: Sched, t: nat, p: Priority)
    ensures Create(s, t, p).delay == s.delay
  {
  }

  lemma TakeKeepsDelay(s: Sched)
    requires s.current in s.tasks
    ensures CountMutex(s) == SetHeld(s, s.current, HeldBy(s, s.current) + 1)
    ensures CountMutex(s).delay == s.delay
  {
  }

  lemma TickKeepsCore(s: Sched)
    requires Core(s, {}) && Delays.Inv(s.delay)
    ensures Core(TickInterrupt(s).0, {}) && Delays.Inv(TickInterrupt(s).0.delay)
  {
    hide Core, Delays.Inv, RunningTick;
    if s.depth == 0 {
      RunningTickKeeps(s);
    } else {
      CoreKept(s, s.(pended := s.pended + 1), {});
    }
  }

  lemma NestingKeeps(s: Sched)
    requires Core(s, {})
    ensures Core(SuspendAll(s), {}) && SuspendAll(s).delay == s.delay
  {
    CoreKept(s, SuspendAll(s), {});
  }

  lemma EventKeeps(s: Sched, e: Event)
    requires Good(s) && Possible(s, e) && SparesIdle(s, e)
    ensures Good(Apply(s, e))
  {
    hide Core, Delays.Inv, Apply, Possible;
    EventKeepsCore(s, e);
    EventKeepsElapsed(s, e);
    IdleStaysReady(s, e);
  }

  /** In every reachable state the lists partition the tasks by state and priority, the idle task is
      ready, and the ticks counted and held back are those that occurred. */
  lemma {:induction false} RunKeeps(s: Sched, es: seq<Event>)
    requires Good(s) && PossibleRun(s, es)
    ensures Good(Run(s, es)) && Elapsed(Run(s, es)) == Elapsed(s) + TickCount(es)
    decreases |es|
  {
    hide Good, Apply, Possible, Elapsed;
    if es != [] {
      EventKeeps(s, es[0]);
      EventKeepsElapsed(s, es[0]);
      RunKeeps(Apply(s, es[0]), es[1..]);
    }
  }

  lemma EmptyListsAreEmpty(n: nat)
    ensures forall p :: 0 <= p < n ==> EmptyLists(n)[p] == Ring([], 0)
  {
  }

  /** The idle task alone, on its ready list. */
  lemma StartedIs(tick: Tick)
    ensures var s := Started(tick);
            && s.tasks == map[IDLE := Tcb(0, 0, 0)] && s.count == 1 && s.current == IDLE
            && s.ready[0].items == [IDLE] && (forall p :: 0 < p < MAX_PRIORITIES ==> s.ready[p].items == [])
            && s.delay == Delay(tick, 0, MAX_DELAY, [], []) && s.suspended == [] && s.terminating == []
            && s.pending == [] && s.events == {} && s.depth == 0 && s.pended == 0
  {
    EmptyListsAreEmpty(MAX_PRIORITIES);
  }

  lemma StartedIsGood(tick: Tick)
    ensures Good(Started(tick)) && Elapsed(Started(tick)) == tick
  {
    var s := Started(tick);
    StartedIs(tick);
    hide Started, Partition;
    assert s.tasks.Keys == {IDLE};
    assert |s.tasks| == |s.tasks.Keys|;
    StartedPartition(s);
  }

  lemma StartedPartition(s: Sched)
    requires s.tasks.Keys == {IDLE} && s.tasks[IDLE].priority == 0
    requires s.ready[0].items == [IDLE] && (forall p :: 0 < p < MAX_PRIORITIES ==> s.ready[p].items == [])
    requires s.delay.cur == [] && s.delay.ovf == [] && s.suspended == [] && s.terminating == []
    ensures Partition(s, {}) && ByPriority(s)
  {
    forall t ensures OtherHomes(s, t) == 0 {}
    assert Homes(s, IDLE) == 1;
  }

  /** The whole-run form: from the start of the scheduler on, whatever happens. */
  lemma Reachable(tick: Tick, es: seq<Event>)
    requires PossibleRun(Started(tick), es)
    ensures var s := Run(Started(tick), es);
            SchedState.Inv(s) && InReady(s, IDLE) && Elapsed(s) == tick + TickCount(es)
  {
    StartedIsGood(tick);
    RunKeeps(Started(tick), es);
    hide Run, Started, SchedState.Inv, InReady, Elapsed;
  }

  /** So the search for the next task always ends, on a task no ready task outranks. */
  lemma SwitchInRun(tick: Tick, es: seq<Event>)
    requires PossibleRun(Started(tick), es) && Run(Started(tick), es).depth == 0
    ensures var s := Run(Started(tick), es);
            var c := SwitchContext(s).current;
            InReady(s, c) && (forall t :: InReady(s, t) ==> PriorityOf(s, t) <= PriorityOf(s, c))
  {
    Reachable(tick, es);
    var s := Run(Started(tick), es);
    hide Run, Started, SwitchContext;
    GoodIsOrdered(s);
    SwitchPicksHighest(s);
  }

  lemma GoodIsOrdered(s: Sched)
    requires SchedState.Inv(s)
    ensures ByPriority(s)
  {
    hide ByPriority, Partition, EventsMatch;
  }
}
