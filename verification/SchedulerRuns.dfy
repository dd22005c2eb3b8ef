/** Properties of whole runs of the scheduler: invariants in every reachable state, who is
    picked when, and when sleepers wake. */
module SchedulerRuns {
  import opened Common
  import opened Scheduler
  import opened SchedulerProofs
  import Semaphores

  /** The machine before the first yield: only the idle process exists, parked, and the
      processes started so far are ready. */
  ghost predicate Booted(s: Sched) {
    && s.current.None? && !s.interrupts && !s.panicked && s.timers == [] && s.sems == map[] && s.jiffies == 0 && s.killed == {}
    && IDLE in s.procs && Distinct(Queue(s, ReadyQ)) && IDLE !in Queue(s, ReadyQ) && s.queues.Keys == {ReadyQ}
    && (forall p | p in s.procs :: p == IDLE || p in Queue(s, ReadyQ))
    && (forall p | p in Queue(s, ReadyQ) :: p in s.procs)
    && (forall p | p in s.procs :: s.procs[p] == Proc(Ready, 0, 0, [], if p == IDLE then Parked else In(ReadyQ)))
  }

  lemma BootedInv(s: Sched)
    requires Booted(s)
    ensures Inv(s)
  {
    forall p | p in s.procs ensures Fine(s.procs[p], p, None) && Listed(s.procs, s.queues, p) {
    }
    forall q | q in s.queues ensures QueueOk(s.procs, q, s.queues[q]) {
      assert q == ReadyQ;
      forall i | 0 <= i < |s.queues[q]| ensures s.queues[q][i] in s.procs && s.procs[s.queues[q][i]].place == In(q) {
        assert s.queues[q][i] in Queue(s, ReadyQ);
      }
    }
    assert forall q | q != ReadyQ :: Queue(s, q) == [];
  }

  /** Each step leads from one state to the next. */
  ghost predicate Chained<S, A>(leads: (S, A, S) -> bool, states: seq<S>, steps: seq<A>) {
    |states| == |steps| + 1 && forall i {:trigger steps[i]} | 0 <= i < |steps| :: leads(states[i], steps[i], states[i + 1])
  }

  lemma ChainedMore<S, A>(leads: (S, A, S) -> bool, states: seq<S>, steps: seq<A>, a: A, t: S)
    requires Chained(leads, states, steps) && leads(states[|steps|], a, t)
    ensures Chained(leads, states + [t], steps + [a])
  {
  }

  ghost function Leads(): (Sched, Step, Sched) -> bool {
    (s, a, t) => Enabled(s, a) && t == Next(s, a)
  }

  ghost predicate IsRun(states: seq<Sched>, steps: seq<Step>) {
    Chained(Leads(), states, steps)
  }

  /** Step `i` of a run. */
  lemma RunStep(states: seq<Sched>, steps: seq<Step>, i: nat)
    requires IsRun(states, steps) && i < |steps|
    ensures Enabled(states[i], steps[i]) && states[i + 1] == Next(states[i], steps[i])
  {
    assert Leads()(states[i], steps[i], states[i + 1]);
  }

  lemma StepOfRunKeeps(states: seq<Sched>, steps: seq<Step>, i: nat)
    requires IsRun(states, steps) && i < |steps| && Inv(states[i])
    ensures if WaitsInIrq(states[i], steps[i]) then states[i + 1].panicked else Inv(states[i + 1])
  {
    RunStep(states, steps, i);
    StepKeepsInv(states[i], steps[i]);
  }

  /** Every reachable state satisfies the invariant: each process is in one place that fits
      its state, counts are exact.  The one exception is the panic of a step that waits inside
      an interrupt, which ends the run. */
  lemma {:induction false} RunKeepsInv(states: seq<Sched>, steps: seq<Step>, i: nat)
    requires IsRun(states, steps) && Inv(states[0]) && i < |states|
    ensures if states[i].panicked then i == |steps| > 0 && WaitsInIrq(states[i - 1], steps[i - 1]) else Inv(states[i])
  {
    if i > 0 {
      NotOver(states, steps, i - 1);
      RunKeepsInv(states, steps, i - 1);
      StepOfRunKeeps(states, steps, i - 1);
      if i < |steps| { NotOver(states, steps, i); }
    }
  }

  lemma NotOver(states: seq<Sched>, steps: seq<Step>, i: nat)
    requires IsRun(states, steps) && i < |steps|
    ensures !states[i].panicked
  {
    RunStep(states, steps, i);
  }

  /** Every state of a run that somebody follows is a good one. */
  lemma RunGood(states: seq<Sched>, steps: seq<Step>, i: nat)
    requires IsRun(states, steps) && Inv(states[0]) && i < |steps|
    ensures Inv(states[i]) && Enabled(states[i], steps[i]) && states[i + 1] == Next(states[i], steps[i])
  {
    RunKeepsInv(states, steps, i);
    RunStep(states, steps, i);
  }

  // ------------------------------------------------------------------
  // Killing

  /** Nobody is killed in a step but by kill. */
  lemma StepKilled(s: Sched, a: Step)
    requires Inv(s) && Enabled(s, a)
    ensures Next(s, a).killed == if a.DoKill? then s.killed + {a.p} else s.killed
  {
    if a.DoInterrupt? { InterruptSleepers(s, a.irq, 0); } else { QuietSleepers(s, a, 0); }
  }

  lemma {:induction false} NobodyKilled(states: seq<Sched>, steps: seq<Step>, i: nat)
    requires IsRun(states, steps) && Inv(states[0]) && states[0].killed == {} && i < |states|
    requires forall k | 0 <= k < |steps| :: !steps[k].DoKill?
    ensures states[i].killed == {}
  {
    if i > 0 {
      NobodyKilled(states, steps, i - 1);
      RunGood(states, steps, i - 1);
      StepKilled(states[i - 1], steps[i - 1]);
    }
  }

  /** With nobody else ready, yield resumes its caller. */
  lemma YieldReturns(u: Sched, p: Pid)
    requires Sound(u, u.current) && u.current == Some(p) && p != IDLE && Queue(u, ReadyQ) == []
    ensures var t := Yield(u, None);
      && t.current == Some(p) && Queue(t, ReadyQ) == [] && SameRest(u, t)
      && Rec(t, p).iDepth == Rec(u, p).iDepth && Rec(t, p).acts == Rec(u, p).acts + [Yielding]
  {
    YieldEffect(u, None);
    assert ReadyForPick(u, None) == [p];
    DisableSound(u, Yielding);
    var d := Disable(u, Yielding);
    AsideReady(d);
    var v := Readied(d, p);
    assert Queue(v, ReadyQ) == [p];
    assert Rec(v, p).acts == Rec(u, p).acts + [Yielding] && Rec(v, p).iDepth == Rec(u, p).iDepth;
    assert Rec(Dispatch(v, u.current), p) == Rec(v, p).(state := Running, place := Here);
  }

  /** With nobody else ready, an interrupt resumes the process it came to. */
  lemma InterruptReturns(s: Sched, irq: nat)
    requires Inv(s) && s.interrupts && s.current != Some(IDLE) && Queue(s, ReadyQ) == [] && irq != 0
    ensures var (t, p) := (Next(s, DoInterrupt(irq)), s.current.value);
      && Inv(t) && t.current == s.current && SameRest(s, t) && InIrq(t) && Rec(t, p).acts == [Irq, Yielding]
  {
    StartIrqSound(s);
    InterruptKeeps(s, irq);
    var (u, p) := (StartIrq(s), s.current.value);
    assert Fine(u.procs[p], p, u.current);
    YieldReturns(u, p);
  }

  /** A killed process that is interrupted while exit holds a semaphore, with nobody else ready,
      begins exit once more inside the interrupt and panics on the semaphore it holds. */
  lemma KilledPanics(s: Sched, irq: nat, k: nat)
    requires Inv(s) && s.interrupts && s.current != Some(IDLE) && s.current.value in s.killed && Queue(s, ReadyQ) == [] && irq != 0
    requires k in s.sems && s.sems[k].count == 0
    ensures Enabled(s, DoInterrupt(irq))
    ensures var t := Next(s, DoInterrupt(irq)); Enabled(t, DoDown(k)) && Next(t, DoDown(k)).panicked
  {
    InterruptReturns(s, irq);
    StepKeepsInv(Next(s, DoInterrupt(irq)), DoDown(k));
  }

  /** A free semaphore is taken without a trace elsewhere. */
  lemma FreeDown(s: Sched, k: nat)
    requires Inv(s) && Client(s) && k in s.sems && s.sems[k].count > 0
    ensures var t := Down(s, k);
      && t.current == s.current && t.killed == s.killed && t.interrupts == s.interrupts && t.queues == s.queues
      && k in t.sems && t.sems[k].count == s.sems[k].count - 1
  {
    DisableFields(s, Crit);
    EnableFields(SetSem(Disable(s, Crit), k, DownRecord(s.sems[k], 0)));
  }

  ghost function OneProcess(): Sched {
    Sched(None, map[IDLE := Proc(Ready, 0, 0, [], Parked), 1 := Proc(Ready, 0, 0, [], In(ReadyQ))], map[ReadyQ := [1]], map[], [], {}, 0, false, false)
  }

  /** Process 1 runs ordinary code, and nobody else is ready. */
  ghost predicate Alone(s: Sched) {
    Inv(s) && s.current == Some(1) && Rec(s, 1).acts == [] && Queue(s, ReadyQ) == []
  }

  /** These steps lead from a booted machine to `s`. */
  ghost predicate Reached(s: Sched, steps: seq<Step>) {
    exists states :: IsRun(states, steps) && Booted(states[0]) && states[|steps|] == s
  }

  lemma ReachedMore(s: Sched, steps: seq<Step>, a: Step)
    requires Reached(s, steps) && Enabled(s, a)
    ensures Reached(Next(s, a), steps + [a])
  {
    var states :| IsRun(states, steps) && Booted(states[0]) && states[|steps|] == s;
    var ss := states + [Next(s, a)];
    assert Leads()(s, a, Next(s, a));
    ChainedMore(Leads(), states, steps, a, Next(s, a));
    assert ss[0] == states[0];
  }

  lemma ReachBooted(s: Sched)
    requires Booted(s)
    ensures Reached(s, [])
  {
    assert IsRun([s], []);
  }

  lemma BootedAlone()
    ensures Booted(OneProcess()) && Alone(Next(OneProcess(), DoBoot)) && Next(OneProcess(), DoBoot).sems == map[]
  {
    var s := OneProcess();
    BootedInv(s);
    StepKeepsInv(s, DoBoot);
    YieldEffect(s, None);
    assert Queue(Disable(s, Yielding), ReadyQ) == [1] && Rec(Disable(s, Yielding), 1).acts == [];
  }

  lemma ReachAlone() returns (t: Sched)
    ensures Reached(t, [DoBoot]) && Alone(t) && t.sems == map[]
  {
    BootedAlone();
    ReachBooted(OneProcess());
    ReachedMore(OneProcess(), [], DoBoot);
    assert [] + [DoBoot] == [DoBoot];
    t := Next(OneProcess(), DoBoot);
  }

  lemma ReachSem(s: Sched, steps: seq<Step>) returns (t: Sched)
    requires Reached(s, steps) && Alone(s) && s.sems == map[]
    ensures Reached(t, steps + [DoNewSem(0, 1)]) && Alone(t) && 0 in t.sems && t.sems[0].count == 1
  {
    ReachedMore(s, steps, DoNewSem(0, 1));
    StepKeepsInv(s, DoNewSem(0, 1));
    t := Next(s, DoNewSem(0, 1));
  }

  lemma ReachKilled(s: Sched, steps: seq<Step>) returns (t: Sched)
    requires Reached(s, steps) && Alone(s)
    ensures Reached(t, steps + [DoKill(1)]) && Alone(t) && t.sems == s.sems && 1 in t.killed
  {
    ReachedMore(s, steps, DoKill(1));
    KillKeeps(s, 1);
    KillIs(s, 1);
    t := Next(s, DoKill(1));
  }

  /** As KilledPanics needs it. */
  ghost predicate Holding(s: Sched) {
    && Inv(s) && s.current == Some(1) && s.interrupts && Queue(s, ReadyQ) == [] && 1 in s.killed
    && 0 in s.sems && s.sems[0].count == 0
  }

  lemma ReachHolding(s: Sched, steps: seq<Step>) returns (t: Sched)
    requires Reached(s, steps) && Alone(s) && 1 in s.killed && 0 in s.sems && s.sems[0].count == 1
    ensures Reached(t, steps + [DoDown(0)]) && Holding(t)
  {
    ReachedMore(s, steps, DoDown(0));
    StepKeepsInv(s, DoDown(0));
    FreeDown(s, 0);
    assert Fine(s.procs[1], 1, s.current);
    t := Next(s, DoDown(0));
  }

  lemma ReachPanic(s: Sched, steps: seq<Step>) returns (t: Sched)
    requires Reached(s, steps) && Holding(s)
    ensures Reached(t, steps + [DoInterrupt(1)] + [DoDown(0)]) && t.panicked
  {
    KilledPanics(s, 1, 0);
    ReachedMore(s, steps, DoInterrupt(1));
    ReachedMore(Next(s, DoInterrupt(1)), steps + [DoInterrupt(1)], DoDown(0));
    t := Next(Next(s, DoInterrupt(1)), DoDown(0));
  }

  lemma ReachVictim() returns (t: Sched, steps: seq<Step>)
    ensures Reached(t, steps) && Alone(t) && 1 in t.killed && 0 in t.sems && t.sems[0].count == 1
  {
    var s := ReachAlone();
    s := ReachSem(s, [DoBoot]);
    steps := [DoBoot] + [DoNewSem(0, 1)];
    t := ReachKilled(s, steps);
    steps := steps + [DoKill(1)];
  }

  /** A run that ends in a panic: the only process is killed, locks a semaphore in its exit and
      is interrupted before it unlocks it. */
  lemma PanicIsReached() returns (t: Sched, steps: seq<Step>)
    ensures Reached(t, steps) && t.panicked
  {
    var s;
    s, steps := ReachVictim();
    s := ReachHolding(s, steps);
    steps := steps + [DoDown(0)];
    t := ReachPanic(s, steps);
    steps := steps + [DoInterrupt(1)] + [DoDown(0)];
  }

  /** Without kill no panic is reachable. */
  lemma NoKillNoPanic(states: seq<Sched>, steps: seq<Step>, i: nat)
    requires IsRun(states, steps) && Inv(states[0]) && states[0].killed == {} && i < |states|
    requires forall k | 0 <= k < |steps| :: !steps[k].DoKill?
    ensures Inv(states[i])
  {
    RunKeepsInv(states, steps, i);
    if states[i].panicked {
      NobodyKilled(states, steps, i - 1);
      KilledBefore(states, steps, i - 1);
    }
  }

  lemma KilledBefore(states: seq<Sched>, steps: seq<Step>, i: nat)
    requires IsRun(states, steps) && Inv(states[0]) && i < |steps| && WaitsInIrq(states[i], steps[i])
    ensures states[i].killed != {}
  {
    RunGood(states, steps, i);
    OnlyKilledWait(states[i], steps[i]);
  }

  /** The count of a semaphore in every reachable state. */
  lemma SemCounts(s: Sched, k: nat)
    requires Inv(s) && k in s.sems
    ensures var (m, w) := (s.sems[k], Queue(s, SemQ(k)));
      && m.count == (if m.init + m.ups >= m.downs then m.init + m.ups - m.downs else 0)
      && |w| == (if m.downs >= m.init + m.ups then m.downs - m.init - m.ups else 0)
      && m.released <= m.blocked && w == m.blocked[|m.released|..]
  {
    var (m, w) := (s.sems[k], Queue(s, SemQ(k)));
    assert SemOk(m, w);
  }

  // ------------------------------------------------------------------
  // Counting steps

  /** How many of steps `i` to `j - 1` are step `a`. */
  function Times(steps: seq<Step>, a: Step, i: nat, j: nat): nat
    requires i <= j <= |steps|
    decreases j
  {
    if i == j then 0 else Times(steps, a, i, j - 1) + (if steps[j - 1] == a then 1 else 0)
  }

  lemma {:induction false} TimesMore(steps: seq<Step>, a: Step, i: nat, j: nat, k: nat)
    requires i <= j <= k <= |steps|
    ensures Times(steps, a, i, j) <= Times(steps, a, i, k)
    decreases k
  {
    if j < k { TimesMore(steps, a, i, j, k - 1); }
  }

  lemma {:induction false} TimesAfter(steps: seq<Step>, a: Step, i: nat, j: nat)
    requires i < j <= |steps| && steps[i] != a
    ensures Times(steps, a, i, j) == Times(steps, a, i + 1, j)
    decreases j
  {
    if i + 1 < j { TimesAfter(steps, a, i, j - 1); }
  }

  // ------------------------------------------------------------------
  // The scheduler's semaphores as semaphores

  /** Semaphore `k` without its history. */
  ghost function SemaphoreAt(s: Sched, k: nat): Semaphores.Semaphore
    requires k in s.sems
  {
    Semaphores.Semaphore(s.sems[k].count, Queue(s, SemQ(k)))
  }

  /** down and up of the scheduler do to one semaphore what they do to a semaphore on its own,
      as the bounded buffer and the event use it, and nothing to any other. */
  lemma DownIsDown(s: Sched, k: nat, j: nat)
    requires Inv(s) && Client(s) && k in s.sems && j in s.sems
    ensures j in Down(s, k).sems
    ensures SemaphoreAt(Down(s, k), j) ==
      if j == k then Semaphores.DownSem(SemaphoreAt(s, k), s.current.value) else SemaphoreAt(s, j)
  {
    DownQueue(s, k, SemQ(j));
    assert SemOk(s.sems[k], Queue(s, SemQ(k)));
  }

  lemma UpIsUp(s: Sched, k: nat, j: nat)
    requires Inv(s) && Client(s) && k in s.sems && j in s.sems
    ensures j in Up(s, k).sems
    ensures SemaphoreAt(Up(s, k), j) == if j == k then Semaphores.UpSem(SemaphoreAt(s, k)) else SemaphoreAt(s, j)
  {
    UpQueue(s, k, SemQ(j));
  }

  /** What down does to semaphores, clock and queues other than the ready queue. */
  lemma DownQueue(s: Sched, k: nat, q: QueueId)
    requires Inv(s) && Client(s) && k in s.sems && q != ReadyQ
    ensures var t := Down(s, k);
      && t.sems == s.sems[k := DownRecord(s.sems[k], s.current.value)] && t.jiffies == s.jiffies && t.killed == s.killed
      && Queue(t, q) == Queue(s, q) + (if s.sems[k].count == 0 && q == SemQ(k) then [s.current.value] else [])
  {
    DownIs(s, k);
    ClientFacts(s);
    DisableQueue(s, Crit, q);
    var t := SetSem(Disable(s, Crit), k, DownRecord(s.sems[k], s.current.value));
    if s.sems[k].count == 0 { DownWaits(t, k, q); } else { EnableQueue(t, q); }
  }

  lemma DownWaits(t: Sched, k: nat, q: QueueId)
    requires t.current.Some? && t.current.value in t.procs && q != ReadyQ
    ensures var u := Yield(t, Some(SemQ(k)));
      SameRest(t, u) && Queue(u, q) == Queue(t, q) + (if q == SemQ(k) then [t.current.value] else [])
  {
    YieldEffect(t, Some(SemQ(k)));
    YieldQueue(t, Some(SemQ(k)), q);
  }

  /** What up does to semaphores, clock and queues other than the ready queue. */
  lemma UpQueue(s: Sched, k: nat, q: QueueId)
    requires Inv(s) && Client(s) && k in s.sems && q != ReadyQ
    ensures var t := Up(s, k);
      && t.sems == s.sems[k := UpRecord(s.sems[k], Queue(s, SemQ(k)))] && t.jiffies == s.jiffies && t.killed == s.killed
      && Queue(t, q) == if q == SemQ(k) && Queue(s, q) != [] then Queue(s, q)[1..] else Queue(s, q)
  {
    UpIs(s, k);
    ClientFacts(s);
    DisableKeeps(s);
    DisableQueue(s, Crit, q);
    var u, w := Disable(s, Crit), Queue(s, SemQ(k));
    var t := SetSem(u, k, UpRecord(s.sems[k], w));
    if w == [] {
      EnableQueue(t, q);
    } else {
      WakeEffect(t, SemQ(k), q);
      EnableQueue(MakeReady(RemoveHead(t, SemQ(k)), w[0]), q);
    }
  }

  // ------------------------------------------------------------------
  // Fair picking

  /** Whether the step ends in a context switch. */
  ghost predicate Switches(s: Sched, a: Step)
    requires Enabled(s, a)
  {
    match a
    case DoBoot => true
    case DoDown(k) => s.sems[k].count == 0
    case DoSleep(second, hz) => Target(second, hz) > s.jiffies
    case DoYield => true
    case DoExit => true
    case DoInterrupt(_) => true
    case _ => false
  }

  ghost function Runner(s: Sched): seq<Pid> {
    if s.current.Some? && s.current != Some(IDLE) then [s.current.value] else []
  }

  /** Who joins the ready queue in a step, in order. */
  ghost function Arrivals(s: Sched, a: Step): seq<Pid>
    requires Enabled(s, a)
  {
    match a
    case DoStart(p) => [p]
    case DoUp(k) => if Queue(s, SemQ(k)) == [] then [] else [Queue(s, SemQ(k))[0]]
    case DoYield => Runner(s)
    case DoInterrupt(irq) => (if irq == 0 then Sleepers(s) else []) + Runner(s)
    case _ => []
  }

  /** Who the next tick wakes. */
  ghost function Sleepers(s: Sched): seq<Pid> {
    if s.timers != [] && s.timers[0] == Advance(s.jiffies) then Queue(s, TimerQ(Advance(s.jiffies))) else []
  }

  /** The ready queue after a step that started with ready queue `ready`, joined by others. */
  ghost predicate TookTurn(t: Sched, ready: seq<Pid>, switches: bool) {
    if switches then
      && t.current == Some(if ready == [] then IDLE else ready[0])
      && Queue(t, ReadyQ) == (if ready == [] then [] else ready[1..])
    else
      Queue(t, ReadyQ) == ready
  }

  lemma YieldTurn(s: Sched, q: Option<QueueId>)
    requires q != Some(ReadyQ) && (s.current.Some? ==> s.current.value in s.procs)
    ensures TookTurn(Yield(s, q), Queue(s, ReadyQ) + (if q.None? then Runner(s) else []), true)
  {
    YieldEffect(s, q);
  }

  lemma StartTurn(s: Sched, p: Pid)
    requires Inv(s) && p !in s.procs
    ensures Queue(Start(s, p), ReadyQ) == Queue(s, ReadyQ) + [p]
  {
    var u := SetProc(s, p, Proc(Ready, 0, 0, [], Parked));
    MakeReadyIsReadied(u, p);
  }

  lemma DownTurn(s: Sched, k: nat)
    requires Inv(s) && Client(s) && k in s.sems
    ensures TookTurn(Down(s, k), Queue(s, ReadyQ), s.sems[k].count == 0)
  {
    DownIs(s, k);
    ClientFacts(s);
    DisableQueue(s, Crit, ReadyQ);
    var t := SetSem(Disable(s, Crit), k, DownRecord(s.sems[k], s.current.value));
    if s.sems[k].count == 0 { YieldTurn(t, Some(SemQ(k))); } else { EnableQueue(t, ReadyQ); }
  }

  lemma UpTurn(s: Sched, k: nat)
    requires Inv(s) && Client(s) && k in s.sems
    ensures Queue(Up(s, k), ReadyQ) == Queue(s, ReadyQ) + (if Queue(s, SemQ(k)) == [] then [] else [Queue(s, SemQ(k))[0]])
  {
    UpIs(s, k);
    ClientFacts(s);
    DisableKeeps(s);
    DisableQueue(s, Crit, ReadyQ);
    var u, w := Disable(s, Crit), Queue(s, SemQ(k));
    var t := SetSem(u, k, UpRecord(s.sems[k], w));
    if w == [] {
      EnableQueue(t, ReadyQ);
    } else {
      WakeEffect(t, SemQ(k), ReadyQ);
      EnableQueue(MakeReady(RemoveHead(t, SemQ(k)), w[0]), ReadyQ);
    }
  }

  lemma SleepTurn(s: Sched, second: nat, hz: nat)
    requires Inv(s) && Client(s)
    ensures TookTurn(Sleep(s, second, hz), Queue(s, ReadyQ), Target(second, hz) > s.jiffies)
  {
    ClientFacts(s);
    DisableQueue(s, Crit, ReadyQ);
    var u, x := Disable(s, Crit), Target(second, hz);
    if x > s.jiffies { YieldTurn(u.(timers := InsertTimer(u.timers, x)), Some(TimerQ(x))); } else { EnableQueue(u, ReadyQ); }
  }

  lemma ExitTurn(s: Sched)
    requires Inv(s) && Client(s)
    ensures TookTurn(Exit(s), Queue(s, ReadyQ), true)
  {
    DisableQueue(s, Crit, ReadyQ);
    var u, p := Disable(s, Crit), s.current.value;
    var v := AddTail(SetProc(u, p, Rec(u, p).(state := Terminated)), ReaperQ, p).(current := None);
    YieldTurn(v, None);
    assert Queue(v, ReadyQ) + [] == Queue(s, ReadyQ);
  }

  lemma ReapTurn(s: Sched)
    requires Queue(s, ReaperQ) != []
    ensures Queue(Reap(s), ReadyQ) == Queue(s, ReadyQ)
  {
    DisableQueue(s, Crit, ReadyQ);
    DisableQueue(s, Crit, ReaperQ);
    var u, p := Disable(s, Crit), Queue(s, ReaperQ)[0];
    EnableQueue(SetProc(RemoveHead(u, ReaperQ), p, Rec(u, p).(place := Reaped)), ReadyQ);
  }

  lemma InterruptTurn(s: Sched, irq: nat)
    requires Inv(s) && s.interrupts
    ensures TookTurn(Interrupt(s, irq), Queue(s, ReadyQ) + ((if irq == 0 then Sleepers(s) else []) + Runner(s)), true)
  {
    StartIrqSound(s);
    HandleTurn(StartIrq(s), s, irq);
  }

  lemma HandleTurn(u: Sched, s: Sched, irq: nat)
    requires Sound(u, u.current) && IrqOk(u) && u.current.Some? && Rec(u, u.current.value).acts == [Irq]
    requires u.queues == s.queues && SameRest(s, u) && u.current == s.current
    ensures TookTurn(Handle(u, irq), Queue(s, ReadyQ) + ((if irq == 0 then Sleepers(s) else []) + Runner(s)), true)
  {
    if irq == 0 {
      TimerTurn(u.(jiffies := Advance(u.jiffies)), s);
      HandledTurn(TimerHandler(u), s);
    } else {
      YieldTurn(u, None);
      assert [] + Runner(s) == Runner(s);
    }
  }

  lemma HandledTurn(t: Sched, s: Sched)
    requires Queue(t, ReadyQ) == Queue(s, ReadyQ) + Sleepers(s) && t.current == s.current && (t.current.Some? ==> t.current.value in t.procs)
    ensures TookTurn(Yield(t, None), Queue(s, ReadyQ) + (Sleepers(s) + Runner(s)), true)
  {
    YieldTurn(t, None);
    assert Queue(s, ReadyQ) + Sleepers(s) + Runner(s) == Queue(s, ReadyQ) + (Sleepers(s) + Runner(s));
  }

  lemma TimerTurn(v: Sched, s: Sched)
    requires Sound(v, v.current) && IrqOk(v) && v.current.Some? && Rec(v, v.current.value).acts == [Irq]
    requires v.queues == s.queues && v.timers == s.timers && v.jiffies == Advance(s.jiffies) && v.current == s.current
    ensures var t := Tick(v);
      && Queue(t, ReadyQ) == Queue(s, ReadyQ) + Sleepers(s)
      && t.current == s.current && t.current.value in t.procs
  {
    TickEffect(v, ReadyQ);
    TickSound(v);
  }

  /** Every step leaves the ready queue first in, first out: newcomers go to the end, and a
      context switch takes the head. */
  lemma StepTurn(s: Sched, a: Step)
    requires Inv(s) && Enabled(s, a)
    ensures TookTurn(Next(s, a), Queue(s, ReadyQ) + Arrivals(s, a), Switches(s, a))
  {
    if Client(s) { ClientFacts(s); }
    assert Queue(s, ReadyQ) + [] == Queue(s, ReadyQ);
    match a {
      case DoBoot => YieldTurn(s, None);
      case DoDisable => DisableQueue(s, Crit, ReadyQ);
      case DoEnable => EnableQueue(s, ReadyQ);
      case DoStart(p) => StartTurn(s, p);
      case DoNewSem(k, n) =>
      case DoDown(k) => DownTurn(s, k);
      case DoUp(k) => UpTurn(s, k);
      case DoSleep(second, hz) => SleepTurn(s, second, hz);
      case DoYield => YieldTurn(s, None);
      case DoKill(p) => KillIs(s, p);
      case DoExit => ExitTurn(s);
      case DoReap => ReapTurn(s);
      case DoInterrupt(irq) => InterruptTurn(s, irq);
      case DoResume => EnableQueue(s, ReadyQ);
      case DoEndIrq =>
    }
  }

  /** Ready queue and current process between two steps of a run. */
  datatype Turn = Turn(ready: seq<Pid>, current: Option<Pid>)

  /** Everyone in the ready queue stays put, or moves up by one if the step switches. */
  ghost predicate Moves(a: Turn, b: Turn, switches: bool) {
    forall m {:trigger a.ready[m]} | 0 <= m < |a.ready| ::
      if !switches then m < |b.ready| && b.ready[m] == a.ready[m]
      else if m > 0 then m - 1 < |b.ready| && b.ready[m - 1] == a.ready[m]
      else b.current == Some(a.ready[0])
  }

  ghost predicate Fifo(turns: seq<Turn>, switches: seq<bool>) {
    |turns| == |switches| + 1 && forall i {:trigger switches[i]} | 0 <= i < |switches| :: Moves(turns[i], turns[i + 1], switches[i])
  }

  /** How many of steps `i` to `j - 1` switch. */
  function SwitchCount(switches: seq<bool>, i: nat, j: nat): nat
    requires i <= j <= |switches|
    decreases j
  {
    if i == j then 0 else SwitchCount(switches, i, j - 1) + (if switches[j - 1] then 1 else 0)
  }

  lemma {:induction false} FifoPick(turns: seq<Turn>, switches: seq<bool>, i: nat, j: nat, p: Pid, k: nat)
    requires Fifo(turns, switches) && i <= j <= |switches|
    requires k < |turns[i].ready| && turns[i].ready[k] == p
    ensures var n := SwitchCount(switches, i, j);
      && (n <= k ==> k - n < |turns[j].ready| && turns[j].ready[k - n] == p)
      && (n == k + 1 && switches[j - 1] ==> turns[j].current == Some(p))
    decreases j
  {
    if i < j {
      FifoPick(turns, switches, i, j - 1, p, k);
      var n := SwitchCount(switches, i, j - 1);
      assert Moves(turns[j - 1], turns[j], switches[j - 1]);
    }
  }

  ghost function TurnOf(s: Sched): Turn {
    Turn(Queue(s, ReadyQ), s.current)
  }

  lemma TookTurnMoves(t: Sched, ready: seq<Pid>, more: seq<Pid>, switches: bool, current: Option<Pid>)
    requires TookTurn(t, ready + more, switches)
    ensures Moves(Turn(ready, current), TurnOf(t), switches)
  {
    assert forall m | 0 <= m < |ready| :: (ready + more)[m] == ready[m];
  }

  lemma StepMoves(s: Sched, a: Step)
    requires Inv(s) && Enabled(s, a)
    ensures Moves(TurnOf(s), TurnOf(Next(s, a)), Switches(s, a))
  {
    StepTurn(s, a);
    TookTurnMoves(Next(s, a), Queue(s, ReadyQ), Arrivals(s, a), Switches(s, a), s.current);
  }

  /** Which steps of a run switch. */
  ghost predicate SwitchesOf(states: seq<Sched>, steps: seq<Step>, switches: seq<bool>) {
    |switches| == |steps| == |states| - 1
    && forall i {:trigger switches[i]} | 0 <= i < |steps| :: Enabled(states[i], steps[i]) && switches[i] == Switches(states[i], steps[i])
  }

  lemma RunIsFifo(states: seq<Sched>, steps: seq<Step>, switches: seq<bool>)
    requires IsRun(states, steps) && Inv(states[0]) && SwitchesOf(states, steps, switches)
    ensures Fifo(seq(|states|, i requires 0 <= i < |states| => TurnOf(states[i])), switches)
  {
    forall i | 0 <= i < |switches| ensures Moves(TurnOf(states[i]), TurnOf(states[i + 1]), switches[i]) {
      RunGood(states, steps, i);
      StepMoves(states[i], steps[i]);
    }
  }

  /** A process at index `k` of the ready queue moves up by one with every context switch,
      whatever else arrives, and is the one picked by the switch number `k + 1`. */
  lemma PickedInTurn(states: seq<Sched>, steps: seq<Step>, switches: seq<bool>, i: nat, j: nat, p: Pid, k: nat)
    requires IsRun(states, steps) && Inv(states[0]) && SwitchesOf(states, steps, switches) && i <= j <= |steps|
    requires k < |Queue(states[i], ReadyQ)| && Queue(states[i], ReadyQ)[k] == p
    ensures var n := SwitchCount(switches, i, j);
      && (n <= k ==> k - n < |Queue(states[j], ReadyQ)| && Queue(states[j], ReadyQ)[k - n] == p)
      && (n == k + 1 && switches[j - 1] ==> states[j].current == Some(p))
  {
    RunIsFifo(states, steps, switches);
    FifoPick(seq(|states|, i requires 0 <= i < |states| => TurnOf(states[i])), switches, i, j, p, k);
  }

  // ------------------------------------------------------------------
  // Sleepers

  /** Who joins the sleepers of `x` in a step. */
  ghost function NewSleepers(s: Sched, a: Step, x: nat): seq<Pid>
    requires Enabled(s, a)
  {
    if a.DoSleep? && Target(a.second, a.hz) > s.jiffies && Target(a.second, a.hz) == x then [s.current.value] else []
  }

  lemma StartSleepers(s: Sched, p: Pid, x: nat)
    requires Inv(s) && p !in s.procs
    ensures Queue(Start(s, p), TimerQ(x)) == Queue(s, TimerQ(x)) && Start(s, p).jiffies == s.jiffies && Start(s, p).killed == s.killed && Start(s, p).sems == s.sems
  {
    MakeReadyIsReadied(SetProc(s, p, Proc(Ready, 0, 0, [], Parked)), p);
  }

  /** sleepUntil behind its disable: it waits for a timer ahead of the clock. */
  lemma SleepIs(s: Sched, second: nat, hz: nat)
    requires Inv(s) && Client(s)
    ensures var (u, y) := (Disable(s, Crit), Target(second, hz));
      && u.jiffies == s.jiffies && u.killed == s.killed && u.sems == s.sems && u.current == s.current && s.current.value in u.procs
      && Sleep(s, second, hz) == if y > s.jiffies then Yield(u.(timers := InsertTimer(u.timers, y)), Some(TimerQ(y))) else Enable(u)
  {
    ClientFacts(s);
    DisableQueue(s, Crit, ReadyQ);
  }

  /** The caller joins the sleepers of `y`, and nobody joins any others. */
  lemma YieldToTimer(v: Sched, y: nat, x: nat)
    requires v.current.Some? && v.current.value in v.procs
    ensures var t := Yield(v, Some(TimerQ(y)));
      t.jiffies == v.jiffies && t.killed == v.killed && t.sems == v.sems && Queue(t, TimerQ(x)) == Queue(v, TimerQ(x)) + (if x == y then [v.current.value] else [])
  {
    YieldEffect(v, Some(TimerQ(y)));
    YieldQueue(v, Some(TimerQ(y)), TimerQ(x));
  }

  lemma SleepSleepers(s: Sched, second: nat, hz: nat, x: nat)
    requires Inv(s) && Client(s) && s.current != Some(IDLE)
    ensures Queue(Sleep(s, second, hz), TimerQ(x)) == Queue(s, TimerQ(x)) + NewSleepers(s, DoSleep(second, hz), x)
    ensures Sleep(s, second, hz).jiffies == s.jiffies && Sleep(s, second, hz).killed == s.killed && Sleep(s, second, hz).sems == s.sems
  {
    SleepIs(s, second, hz);
    DisableQueue(s, Crit, TimerQ(x));
    var u, y := Disable(s, Crit), Target(second, hz);
    if y > s.jiffies {
      YieldToTimer(u.(timers := InsertTimer(u.timers, y)), y, x);
    } else {
      EnableQueue(u, TimerQ(x));
    }
  }

  lemma ExitSleepers(s: Sched, x: nat)
    requires s.current.Some?
    ensures Queue(Exit(s), TimerQ(x)) == Queue(s, TimerQ(x)) && Exit(s).jiffies == s.jiffies && Exit(s).killed == s.killed && Exit(s).sems == s.sems
  {
    DisableQueue(s, Crit, TimerQ(x));
    var u, p := Disable(s, Crit), s.current.value;
    var v := AddTail(SetProc(u, p, Rec(u, p).(state := Terminated)), ReaperQ, p).(current := None);
    YieldEffect(v, None);
    YieldQueue(v, None, TimerQ(x));
  }

  lemma ReapSleepers(s: Sched, x: nat)
    requires Queue(s, ReaperQ) != []
    ensures Queue(Reap(s), TimerQ(x)) == Queue(s, TimerQ(x)) && Reap(s).jiffies == s.jiffies && Reap(s).killed == s.killed && Reap(s).sems == s.sems
  {
    DisableQueue(s, Crit, TimerQ(x));
    DisableQueue(s, Crit, ReaperQ);
    var u, p := Disable(s, Crit), Queue(s, ReaperQ)[0];
    EnableQueue(SetProc(RemoveHead(u, ReaperQ), p, Rec(u, p).(place := Reaped)), TimerQ(x));
  }

  lemma InterruptSleepers(s: Sched, irq: nat, x: nat)
    requires Inv(s) && s.interrupts
    ensures var t := Interrupt(s, irq);
      && t.jiffies == (if irq == 0 then Advance(s.jiffies) else s.jiffies) && t.killed == s.killed && t.sems == s.sems
      && Queue(t, TimerQ(x)) == (if irq == 0 && s.timers != [] && s.timers[0] == x == Advance(s.jiffies) then [] else Queue(s, TimerQ(x)))
  {
    StartIrqSound(s);
    HandleSleepers(StartIrq(s), s, irq, x);
  }

  lemma YieldSleepers(t: Sched, x: nat)
    requires t.current.Some? ==> t.current.value in t.procs
    ensures Yield(t, None).jiffies == t.jiffies && Yield(t, None).killed == t.killed && Yield(t, None).sems == t.sems && Queue(Yield(t, None), TimerQ(x)) == Queue(t, TimerQ(x))
  {
    YieldEffect(t, None);
    YieldQueue(t, None, TimerQ(x));
  }

  lemma HandleSleepers(u: Sched, s: Sched, irq: nat, x: nat)
    requires Sound(u, u.current) && IrqOk(u) && u.current.Some? && Rec(u, u.current.value).acts == [Irq]
    requires u.queues == s.queues && SameRest(s, u)
    ensures var t := Handle(u, irq);
      && t.jiffies == (if irq == 0 then Advance(s.jiffies) else s.jiffies) && t.killed == s.killed && t.sems == s.sems
      && Queue(t, TimerQ(x)) == (if irq == 0 && s.timers != [] && s.timers[0] == x == Advance(s.jiffies) then [] else Queue(s, TimerQ(x)))
  {
    if irq == 0 {
      var v := u.(jiffies := Advance(u.jiffies));
      TickEffect(v, TimerQ(x));
      TickSound(v);
      YieldSleepers(TimerHandler(u), x);
    } else {
      YieldSleepers(u, x);
    }
  }

  /** A step other than an interrupt leaves the clock and all sleepers, newcomers behind them. */
  lemma QuietSleepers(s: Sched, a: Step, x: nat)
    requires Inv(s) && Enabled(s, a) && !a.DoInterrupt?
    ensures Next(s, a).jiffies == s.jiffies && Next(s, a).killed == (if a.DoKill? then s.killed + {a.p} else s.killed)
    ensures Queue(Next(s, a), TimerQ(x)) == Queue(s, TimerQ(x)) + NewSleepers(s, a, x)
    ensures !a.DoNewSem? && !a.DoDown? && !a.DoUp? ==> Next(s, a).sems == s.sems
  {
    if Client(s) { ClientFacts(s); }
    assert Queue(s, TimerQ(x)) + [] == Queue(s, TimerQ(x));
    match a {
      case DoBoot => YieldSleepers(s, x);
      case DoDisable => DisableQueue(s, Crit, TimerQ(x));
      case DoEnable => EnableQueue(s, TimerQ(x));
      case DoStart(p) => StartSleepers(s, p, x);
      case DoNewSem(k, n) =>
      case DoDown(k) => DownQueue(s, k, TimerQ(x));
      case DoUp(k) => UpQueue(s, k, TimerQ(x));
      case DoSleep(second, hz) => SleepSleepers(s, second, hz, x);
      case DoYield => YieldSleepers(s, x);
      case DoKill(p) => KillIs(s, p);
      case DoExit => ExitSleepers(s, x);
      case DoReap => ReapSleepers(s, x);
      case DoResume => EnableQueue(s, TimerQ(x));
      case DoEndIrq =>
    }
  }

  /** The sleepers of `x` after a step: all go when the clock reaches `x`, otherwise they
      stay and newcomers queue behind them. */
  lemma StepSleepers(s: Sched, a: Step, x: nat)
    requires Inv(s) && Enabled(s, a) && Queue(s, TimerQ(x)) != []
    ensures s.jiffies < x
    ensures var t := Next(s, a);
      Queue(t, TimerQ(x)) == if t.jiffies == x then [] else Queue(s, TimerQ(x)) + NewSleepers(s, a, x)
  {
    assert x in s.timers && s.timers != [];
    var i :| 0 <= i < |s.timers| && s.timers[i] == x;
    assert s.jiffies < s.timers[0] <= x < WRAP;
    if a.DoInterrupt? {
      InterruptSleepers(s, a.irq, x);
      assert Queue(s, TimerQ(x)) + [] == Queue(s, TimerQ(x));
    } else {
      QuietSleepers(s, a, x);
    }
  }

  /** A sleeper waits exactly until the clock shows its target, also across the wrap of the
      32-bit clock, and is ready or running in the very step that advances the clock to it. */
  lemma SleeperWakesOnTime(s: Sched, a: Step, p: Pid, x: nat)
    requires Inv(s) && Enabled(s, a) && p in Queue(s, TimerQ(x))
    ensures var t := Next(s, a);
      if t.jiffies == x then p !in Queue(t, TimerQ(x)) && (p in Queue(t, ReadyQ) || t.current == Some(p))
      else p in Queue(t, TimerQ(x))
  {
    StepSleepers(s, a, x);
    var t := Next(s, a);
    if t.jiffies == x {
      ClockMoved(s, a);
      StepTurn(s, a);
      WokenByTick(s, a, p, x);
    }
  }

  lemma ClockMoved(s: Sched, a: Step)
    requires Inv(s) && Enabled(s, a) && Next(s, a).jiffies != s.jiffies
    ensures a == DoInterrupt(0) && Next(s, a).jiffies == Advance(s.jiffies)
  {
    if a.DoInterrupt? { InterruptSleepers(s, a.irq, 0); } else { QuietSleepers(s, a, 0); }
  }

  lemma WokenByTick(s: Sched, a: Step, p: Pid, x: nat)
    requires Inv(s) && a == DoInterrupt(0) && Enabled(s, a) && p in Queue(s, TimerQ(x)) && x == Advance(s.jiffies)
    requires TookTurn(Next(s, a), Queue(s, ReadyQ) + Arrivals(s, a), true)
    ensures p in Queue(Next(s, a), ReadyQ) || Next(s, a).current == Some(p)
  {
    assert x in s.timers;
    var i :| 0 <= i < |s.timers| && s.timers[i] == x;
    assert s.jiffies < s.timers[0] <= x;
    assert p in Sleepers(s);
    var ready := Queue(s, ReadyQ) + Arrivals(s, a);
    assert p in ready;
    var j :| 0 <= j < |ready| && ready[j] == p;
    if j > 0 { assert ready[1..][j - 1] == p; }
  }

  lemma SleeperInRun(states: seq<Sched>, steps: seq<Step>, i: nat, p: Pid, x: nat)
    requires IsRun(states, steps) && i < |steps| && Inv(states[0]) && p in Queue(states[i], TimerQ(x))
    ensures var t := states[i + 1];
      if t.jiffies == x then p !in Queue(t, TimerQ(x)) && (p in Queue(t, ReadyQ) || t.current == Some(p))
      else p in Queue(t, TimerQ(x))
  {
    RunGood(states, steps, i);
    SleeperWakesOnTime(states[i], steps[i], p, x);
  }

  /** Over a run: a sleeper stays among the sleepers of its target until the clock shows the
      target, and is ready or running in the first state where it does. */
  lemma {:induction false} SleepsUntilTarget(states: seq<Sched>, steps: seq<Step>, i: nat, j: nat, p: Pid, x: nat)
    requires IsRun(states, steps) && Inv(states[0]) && i <= j < |states|
    requires p in Queue(states[i], TimerQ(x)) && (forall k | i < k < j :: states[k].jiffies != x)
    ensures var t := states[j];
      if i < j && t.jiffies == x then p !in Queue(t, TimerQ(x)) && (p in Queue(t, ReadyQ) || t.current == Some(p))
      else p in Queue(t, TimerQ(x))
  {
    if i < j {
      SleepsUntilTarget(states, steps, i, j - 1, p, x);
      SleeperInRun(states, steps, j - 1, p, x);
    }
  }

  lemma ClockStep(s: Sched, a: Step)
    requires Inv(s) && Enabled(s, a)
    ensures Next(s, a).jiffies == (if a == DoInterrupt(0) then Advance(s.jiffies) else s.jiffies)
  {
    if a.DoInterrupt? { InterruptSleepers(s, a.irq, 0); } else { QuietSleepers(s, a, 0); }
  }

  /** One step of a run. */
  lemma ClockInRun(states: seq<Sched>, steps: seq<Step>, i: nat)
    requires IsRun(states, steps) && Inv(states[0]) && i < |steps|
    ensures states[i + 1].jiffies == (if steps[i] == DoInterrupt(0) then Advance(states[i].jiffies) else states[i].jiffies)
  {
    RunGood(states, steps, i);
    ClockStep(states[i], steps[i]);
  }

  lemma WrapStep(j: nat, n: nat)
    ensures Advance((j + n) % 0x1_0000_0000) == (j + n + 1) % 0x1_0000_0000
  {
  }

  /** Over a run the clock counts the timer interrupts, modulo 2 to the 32. */
  lemma {:induction false} ClockCounts(states: seq<Sched>, steps: seq<Step>, i: nat, j: nat)
    requires IsRun(states, steps) && Inv(states[0]) && i <= j < |states|
    ensures states[j].jiffies == (states[i].jiffies + Times(steps, DoInterrupt(0), i, j)) % 0x1_0000_0000
  {
    if i < j {
      ClockCounts(states, steps, i, j - 1);
      ClockInRun(states, steps, j - 1);
      WrapStep(states[i].jiffies, Times(steps, DoInterrupt(0), i, j - 1));
    } else {
      ClockBelow(states, steps, i);
    }
  }

  lemma {:induction false} ClockBelow(states: seq<Sched>, steps: seq<Step>, i: nat)
    requires IsRun(states, steps) && Inv(states[0]) && i < |states|
    ensures states[i].jiffies < 0x1_0000_0000
  {
    if i > 0 {
      ClockBelow(states, steps, i - 1);
      ClockInRun(states, steps, i - 1);
    }
  }

  lemma TimerAhead(states: seq<Sched>, steps: seq<Step>, i: nat, p: Pid, x: nat)
    requires IsRun(states, steps) && Inv(states[0]) && i < |steps| && p in Queue(states[i], TimerQ(x))
    ensures states[i].jiffies < x < 0x1_0000_0000
  {
    RunGood(states, steps, i);
    assert x in states[i].timers;
  }

  /** The clock stays below `x` while fewer than `x - jiffies` timer interrupts come. */
  lemma ClockStaysBelow(states: seq<Sched>, steps: seq<Step>, i: nat, j: nat, x: nat)
    requires IsRun(states, steps) && Inv(states[0]) && i <= j < |states| && states[i].jiffies + Times(steps, DoInterrupt(0), i, j) < x < 0x1_0000_0000
    ensures forall k | i <= k <= j :: states[k].jiffies != x
  {
    forall k | i <= k <= j ensures states[k].jiffies != x {
      ClockCounts(states, steps, i, k);
      TimesMore(steps, DoInterrupt(0), i, k, j);
    }
  }

  lemma SleepsThrough(states: seq<Sched>, steps: seq<Step>, i: nat, j: nat, p: Pid, x: nat)
    requires IsRun(states, steps) && Inv(states[0]) && i <= j <= |steps| && p in Queue(states[i], TimerQ(x))
    requires states[i].jiffies + Times(steps, DoInterrupt(0), i, j) < x < 0x1_0000_0000
    ensures p in Queue(states[j], TimerQ(x))
  {
    ClockStaysBelow(states, steps, i, j, x);
    SleepsUntilTarget(states, steps, i, j, p, x);
  }

  lemma WakesAtLast(states: seq<Sched>, steps: seq<Step>, i: nat, j: nat, p: Pid, x: nat)
    requires IsRun(states, steps) && Inv(states[0]) && i < j <= |steps| && p in Queue(states[i], TimerQ(x)) && steps[j - 1] == DoInterrupt(0)
    requires states[i].jiffies + Times(steps, DoInterrupt(0), i, j) == x < 0x1_0000_0000
    ensures p !in Queue(states[j], TimerQ(x)) && (p in Queue(states[j], ReadyQ) || states[j].current == Some(p))
  {
    ClockStaysBelow(states, steps, i, j - 1, x);
    ClockCounts(states, steps, i, j);
    SleepsUntilTarget(states, steps, i, j, p, x);
  }

  /** A sleeper of `x` sleeps through fewer than `x - jiffies` timer interrupts, and is ready or
      running right after that many, whatever else happens in between. */
  lemma WakesAfterTicks(states: seq<Sched>, steps: seq<Step>, i: nat, j: nat, p: Pid, x: nat)
    requires IsRun(states, steps) && Inv(states[0]) && i <= j <= |steps| && i < |steps| && p in Queue(states[i], TimerQ(x))
    ensures var (n, t) := (Times(steps, DoInterrupt(0), i, j), states[j]);
      && states[i].jiffies < x
      && (n < x - states[i].jiffies ==> p in Queue(t, TimerQ(x)))
      && (n == x - states[i].jiffies && steps[j - 1] == DoInterrupt(0) ==>
            p !in Queue(t, TimerQ(x)) && (p in Queue(t, ReadyQ) || t.current == Some(p)))
  {
    TimerAhead(states, steps, i, p, x);
    var n := Times(steps, DoInterrupt(0), i, j);
    if n < x - states[i].jiffies {
      SleepsThrough(states, steps, i, j, p, x);
    } else if n == x - states[i].jiffies && steps[j - 1] == DoInterrupt(0) {
      WakesAtLast(states, steps, i, j, p, x);
    }
  }

  lemma SleepBegins(states: seq<Sched>, steps: seq<Step>, i: nat, second: nat, hz: nat)
    requires IsRun(states, steps) && Inv(states[0]) && i < |steps| && steps[i] == DoSleep(second, hz)
    requires states[i].jiffies < second * hz < 0x1_0000_0000 && states[i].current.Some?
    ensures states[i].current.value in Queue(states[i + 1], TimerQ(second * hz))
  {
    RunGood(states, steps, i);
    SleepTargetExact(states[i], second, hz);
  }

  /** Whoever asks for a second to come, `n` ticks ahead, sleeps through fewer than `n` timer
      interrupts and is ready or running right after `n` of them. */
  lemma SleepLasts(states: seq<Sched>, steps: seq<Step>, i: nat, j: nat, second: nat, hz: nat)
    requires IsRun(states, steps) && Inv(states[0]) && i < j <= |steps| && steps[i] == DoSleep(second, hz)
    requires states[i].jiffies < second * hz < 0x1_0000_0000 && states[i].current.Some?
    ensures var (p, n, x, t) := (states[i].current.value, second * hz - states[i].jiffies, second * hz, states[j]);
      && (Times(steps, DoInterrupt(0), i, j) < n ==> p in Queue(t, TimerQ(x)))
      && (Times(steps, DoInterrupt(0), i, j) == n && steps[j - 1] == DoInterrupt(0) ==> p in Queue(t, ReadyQ) || t.current == Some(p))
  {
    var p, x := states[i].current.value, second * hz;
    SleepBegins(states, steps, i, second, hz);
    ClockInRun(states, steps, i);
    TimesAfter(steps, DoInterrupt(0), i, j);
    if i + 1 < |steps| {
      WakesAfterTicks(states, steps, i + 1, j, p, x);
    }
  }

  // ------------------------------------------------------------------
  // Semaphores over a run

  /** Downs and ups of one semaphore are recorded there, and nothing else is. */
  lemma StepSem(s: Sched, a: Step, k: nat)
    requires Inv(s) && Enabled(s, a) && k in s.sems
    ensures k in Next(s, a).sems
    ensures var (m, t) := (s.sems[k], Next(s, a).sems[k]);
      && t.init == m.init && t.downs == m.downs + (if a == DoDown(k) then 1 else 0) && t.ups == m.ups + (if a == DoUp(k) then 1 else 0)
  {
    match a {
      case DoDown(j) => DownQueue(s, j, ReaperQ);
      case DoUp(j) => UpQueue(s, j, ReaperQ);
      case DoNewSem(j, n) =>
      case DoInterrupt(irq) => InterruptSleepers(s, irq, 0);
      case _ => QuietSleepers(s, a, 0);
    }
  }

  lemma SemInRun(states: seq<Sched>, steps: seq<Step>, i: nat, k: nat)
    requires IsRun(states, steps) && Inv(states[0]) && i < |steps| && k in states[i].sems
    ensures k in states[i + 1].sems
    ensures var (m, t) := (states[i].sems[k], states[i + 1].sems[k]);
      && t.init == m.init && t.downs == m.downs + (if steps[i] == DoDown(k) then 1 else 0) && t.ups == m.ups + (if steps[i] == DoUp(k) then 1 else 0)
  {
    RunGood(states, steps, i);
    StepSem(states[i], steps[i], k);
  }

  lemma SemMade(states: seq<Sched>, steps: seq<Step>, i: nat, k: nat, n: nat)
    requires IsRun(states, steps) && i < |steps| && steps[i] == DoNewSem(k, n)
    ensures k in states[i + 1].sems && states[i + 1].sems[k] == Sem(n, n, 0, 0, [], [])
  {
    RunStep(states, steps, i);
  }

  lemma {:induction false} SemRecord(states: seq<Sched>, steps: seq<Step>, i: nat, j: nat, k: nat, n: nat)
    requires IsRun(states, steps) && Inv(states[0]) && i < j < |states| && steps[i] == DoNewSem(k, n)
    ensures k in states[j].sems
    ensures var m := states[j].sems[k];
      m.init == n && m.downs == Times(steps, DoDown(k), i + 1, j) && m.ups == Times(steps, DoUp(k), i + 1, j)
  {
    if j == i + 1 {
      SemMade(states, steps, i, k, n);
    } else {
      SemRecord(states, steps, i, j - 1, k, n);
      SemInRun(states, steps, j - 1, k);
    }
  }

  /** A semaphore made with count `n`, after `d` downs and `u` ups: its count is what `n + u - d`
      leaves, and as many processes wait as are missing. */
  lemma SemaphoreOverRun(states: seq<Sched>, steps: seq<Step>, i: nat, j: nat, k: nat, n: nat)
    requires IsRun(states, steps) && Inv(states[0]) && i < j < |states| && steps[i] == DoNewSem(k, n) && !states[j].panicked
    ensures k in states[j].sems
    ensures var (d, u) := (Times(steps, DoDown(k), i + 1, j), Times(steps, DoUp(k), i + 1, j));
      && states[j].sems[k].count == (if n + u >= d then n + u - d else 0)
      && |Queue(states[j], SemQ(k))| == (if n + u >= d then 0 else d - n - u)
  {
    SemRecord(states, steps, i, j, k, n);
    RunKeepsInv(states, steps, j);
    SemCounts(states[j], k);
  }

  /** sleepUntil sleeps until the second asked for exactly when `second * hz` fits 32 bits. */
  lemma SleepTargetExact(s: Sched, second: nat, hz: nat)
    requires Inv(s) && Client(s) && s.current != Some(IDLE) && second * hz > s.jiffies
    ensures s.current.value in Queue(Sleep(s, second, hz), TimerQ(second * hz)) <==> second * hz < WRAP
  {
    var me, x := s.current.value, second * hz;
    SleepSleepers(s, second, hz, x);
    OnePlace(s.procs, s.queues, s.current, me);
    TargetFits(x);
  }

  lemma TargetFits(x: nat)
    ensures x % WRAP == x <==> x < WRAP
  {
  }

  /** At 1000 ticks a second, second 4294968 is tick 704: whoever asks for it before sleeps
      until then, and whoever asks for it later does not sleep at all. */
  lemma SleepWraps(s: Sched, x: nat)
    requires Inv(s) && Client(s) && s.current != Some(IDLE)
    ensures var t := Sleep(s, 4294968, 1000);
      if s.jiffies < 704 then s.current.value in Queue(t, TimerQ(704))
      else t.current == s.current && Queue(t, TimerQ(x)) == Queue(s, TimerQ(x))
  {
    SleepSleepers(s, 4294968, 1000, 704);
    SleepSleepers(s, 4294968, 1000, x);
    SleepIs(s, 4294968, 1000);
    if s.jiffies >= 704 { EnableQueue(Disable(s, Crit), ReadyQ); }
  }
}
