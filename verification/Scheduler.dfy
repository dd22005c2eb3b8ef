/** The process scheduler, its semaphores and its timers as a machine whose steps are the
    stretches of kernel code between two points where another process, or an interrupt,
    can come in (kernel/process.cc, kernel/semaphore.cc, kernel/pic.cc, kernel/pit.cc).
    Any number of processes may be started; a context switch is part of the step that
    performs it. */
module Scheduler {
  import opened Common

  type Pid = nat

  const IDLE: Pid := 0
  const WRAP := 0x1_0000_0000

  datatype QueueId = ReadyQ | ReaperQ | SemQ(sem: nat) | TimerQ(target: nat)

  /** Where a process is: on the processor, in one queue, or in none (the idle process
      when it does not run, and a process that has been reaped). */
  datatype Place = Here | In(q: QueueId) | Parked | Reaped

  datatype RunState = Ready | Running | Blocked | Terminated

  /** A kernel activation that has yet to give back one disable: a disable() waiting for its
      enable(), an interrupt waiting for endIrq(), a yield() waiting to return. */
  datatype Act = Crit | Irq | Yielding

  /** `acts` is the process's kernel stack as far as it matters here; it and `place` are
      auxiliary: no step consults them to decide what to do. */
  datatype Proc = Proc(state: RunState, disableCount: nat, iDepth: nat, acts: seq<Act>, place: Place)

  /** A semaphore.  All but `count` is history: the initial count, how many calls there
      were, who blocked and who was released, in order. */
  datatype Sem = Sem(count: nat, init: nat, downs: nat, ups: nat, blocked: seq<Pid>, released: seq<Pid>)

  datatype Sched = Sched(
    current: Option<Pid>,
    procs: map<Pid, Proc>,
    queues: map<QueueId, seq<Pid>>,
    sems: map<nat, Sem>,
    timers: seq<nat>,
    killed: set<Pid>,
    jiffies: nat,
    interrupts: bool,
    panicked: bool)

  function Queue(s: Sched, q: QueueId): seq<Pid> {
    if q in s.queues then s.queues[q] else []
  }

  // ------------------------------------------------------------------
  // The code, piece by piece

  /** The record of process `p`. */
  function Rec(s: Sched, p: Pid): Proc {
    if p in s.procs then s.procs[p] else Proc(Ready, 0, 0, [], Parked)
  }

  function SetProc(s: Sched, p: Pid, pr: Proc): Sched {
    s.(procs := s.procs[p := pr])
  }

  function Panic(s: Sched): Sched {
    s.(panicked := true)
  }

  /** Process::disable, recording the activation that calls it. */
  function Disable(s: Sched, a: Act): Sched {
    match s.current
    case None => s.(interrupts := false)
    case Some(p) =>
      var pr := Rec(s, p);
      s.(procs := s.procs[p := pr.(disableCount := pr.disableCount + 1, acts := pr.acts + [a])], interrupts := false)
  }

  function PopAct(acts: seq<Act>): seq<Act> {
    if acts == [] then [] else acts[..|acts| - 1]
  }

  /** Process::enable. */
  function Enable(s: Sched): Sched {
    match s.current
    case None => s
    case Some(p) =>
      var pr := Rec(s, p);
      if pr.disableCount == 0 then Panic(s)
      else
        s.(procs := s.procs[p := pr.(disableCount := pr.disableCount - 1, acts := PopAct(pr.acts))],
           interrupts := s.interrupts || pr.disableCount == 1)
  }

  function AddTail(s: Sched, q: QueueId, p: Pid): Sched {
    s.(procs := s.procs[p := Rec(s, p).(place := In(q))], queues := s.queues[q := Queue(s, q) + [p]])
  }

  /** removeHead; the process is in no queue then. */
  function RemoveHead(s: Sched, q: QueueId): Sched
    requires Queue(s, q) != []
  {
    s.(queues := s.queues[q := Queue(s, q)[1..]])
  }

  /** The middle of Process::makeReady. */
  function Readied(s: Sched, p: Pid): Sched
  {
    s.(procs := s.procs[p := Rec(s, p).(state := Ready, place := if p != IDLE then In(ReadyQ) else Parked)],
       queues := if p != IDLE then s.queues[ReadyQ := Queue(s, ReadyQ) + [p]] else s.queues)
  }

  /** Process::makeReady. */
  function MakeReady(s: Sched, p: Pid): Sched
  {
    Enable(Readied(Disable(s, Crit), p))
  }

  /** Process::dispatch of the process chosen by yield; `prev` is who yields. */
  function Dispatch(s: Sched, prev: Option<Pid>): Sched {
    var ready := Queue(s, ReadyQ);
    var next := if ready == [] then IDLE else ready[0];
    s.(procs := s.procs[next := Rec(s, next).(state := Running, place := Here)],
       queues := if ready == [] then s.queues else s.queues[ReadyQ := ready[1..]],
       current := Some(next),
       interrupts := if prev == Some(next) then s.interrupts else Rec(s, next).disableCount == 0)
  }

  /** The first part of Process::yield: what the yielding process does to itself. */
  function StepAside(s: Sched, q: Option<QueueId>): Sched {
    match s.current
    case None => s
    case Some(me) =>
      match q
      case None => MakeReady(s, me)
      case Some(queue) =>
        s.(procs := s.procs[me := Rec(s, me).(state := Blocked, place := In(queue))],
           queues := s.queues[queue := Queue(s, queue) + [me]],
           panicked := s.panicked || Rec(s, me).iDepth != 0)
  }

  /** Process::yield up to and including the context switch. */
  function Yield(s: Sched, q: Option<QueueId>): Sched
  {
    Dispatch(StepAside(Disable(s, Yielding), q), s.current)
  }

  /** Make ready, in order, everyone in queue `q`, which holds `n` processes. */
  function WakeAll(s: Sched, q: QueueId, n: nat): Sched
    decreases n
  {
    if n == 0 || Queue(s, q) == [] then s
    else WakeAll(MakeReady(RemoveHead(s, q), Queue(s, q)[0]), q, n - 1)
  }

  /** Process::tick. */
  function Tick(s: Sched): Sched
  {
    var t := Disable(s, Crit);
    if t.timers != [] && t.jiffies == t.timers[0] then
      Enable(WakeAll(t.(timers := t.timers[1..]), TimerQ(t.timers[0]), |Queue(t, TimerQ(t.timers[0]))|))
    else
      Enable(t)
  }

  // ------------------------------------------------------------------
  // Semaphores, sleeping, exit, interrupts

  function SetSem(s: Sched, k: nat, m: Sem): Sched
  {
    s.(sems := s.sems[k := m])
  }

  /** What down makes of a semaphore's record, and up. */
  function DownRecord(m: Sem, p: Pid): Sem {
    if m.count == 0 then m.(downs := m.downs + 1, blocked := m.blocked + [p]) else m.(downs := m.downs + 1, count := m.count - 1)
  }

  function UpRecord(m: Sem, w: seq<Pid>): Sem {
    if w == [] then m.(ups := m.ups + 1, count := m.count + 1) else m.(ups := m.ups + 1, released := m.released + [w[0]])
  }

  /** Semaphore::down. */
  function Down(s: Sched, k: nat): Sched
    requires k in s.sems
  {
    var t := Disable(s, Crit);
    if s.sems[k].count > 0 then Enable(SetSem(t, k, DownRecord(s.sems[k], 0)))
    else
      match s.current
      case None => Panic(t)
      case Some(me) => Yield(SetSem(t, k, DownRecord(s.sems[k], me)), Some(SemQ(k)))
  }

  /** Semaphore::up: a waiter is handed the unit directly. */
  function Up(s: Sched, k: nat): Sched
    requires k in s.sems
  {
    var t := Disable(s, Crit);
    var w := Queue(t, SemQ(k));
    var u := SetSem(t, k, UpRecord(s.sems[k], w));
    if w == [] then Enable(u) else Enable(MakeReady(RemoveHead(u, SemQ(k)), w[0]))
  }

  /** The timer list with a timer for `x`, in order. */
  function InsertTimer(ts: seq<nat>, x: nat): seq<nat> {
    if ts == [] then [x]
    else if ts[0] == x then ts
    else if ts[0] > x then [x] + ts
    else [ts[0]] + InsertTimer(ts[1..], x)
  }

  function Target(second: nat, hz: nat): nat {
    second * hz % WRAP
  }

  /** Process::sleepUntil. */
  function Sleep(s: Sched, second: nat, hz: nat): Sched
  {
    var t := Disable(s, Crit);
    var target := Target(second, hz);
    if target > t.jiffies then
      Yield(t.(timers := InsertTimer(t.timers, target)), Some(TimerQ(target)))
    else
      Enable(t)
  }

  /** The end of Process::exit. */
  function Exit(s: Sched): Sched
    requires s.current.Some?
  {
    var p := s.current.value;
    var t := Disable(s, Crit);
    var u := AddTail(SetProc(t, p, Rec(t, p).(state := Terminated)), ReaperQ, p);
    Yield(u.(current := None), None)
  }

  /** One round of Process::checkReaper. */
  function Reap(s: Sched): Sched
    requires Queue(s, ReaperQ) != []
  {
    var t := Disable(s, Crit);
    var p := Queue(t, ReaperQ)[0];
    var u := RemoveHead(t, ReaperQ);
    Enable(SetProc(u, p, Rec(u, p).(place := Reaped)))
  }

  /** A process is created, and started. */
  function Start(s: Sched, p: Pid): Sched
  {
    MakeReady(SetProc(s, p, Proc(Ready, 0, 0, [], Parked)), p)
  }

  /** Process::kill, up to its checkKilled. */
  function Kill(s: Sched, p: Pid): Sched {
    var t := Disable(s, Crit);
    Enable(t.(killed := t.killed + {p}))
  }

  /** Process::startIrq, entered with interrupts turned off by the processor. */
  function StartIrq(s: Sched): Sched {
    match s.current
    case None => s.(interrupts := false, panicked := true)
    case Some(me) =>
      var pr := Rec(s, me);
      s.(procs := s.procs[me := pr.(iDepth := pr.iDepth + 1, disableCount := 1, acts := pr.acts + [Irq])],
         interrupts := false,
         panicked := s.panicked || pr.disableCount != 0)
  }

  /** The 32-bit clock one tick on. */
  function Advance(jiffies: nat): nat {
    if jiffies + 1 == WRAP then 0 else jiffies + 1
  }

  /** Pit::handler. */
  function TimerHandler(s: Sched): Sched {
    Tick(s.(jiffies := Advance(s.jiffies)))
  }

  /** pic_irq after startIrq, up to its context switch; interrupt 0 is the timer. */
  function Handle(s: Sched, irq: nat): Sched {
    if irq == 0 then Yield(TimerHandler(s), None) else Yield(s, None)
  }

  /** pic_irq up to its context switch. */
  function Interrupt(s: Sched, irq: nat): Sched {
    Handle(StartIrq(s), irq)
  }

  /** Process::endIrq and the return from the interrupt. */
  function EndIrq(s: Sched): Sched {
    match s.current
    case None => s
    case Some(me) =>
      var pr := Rec(s, me);
      s.(procs := s.procs[me := pr.(iDepth := if pr.iDepth == 0 then WRAP - 1 else pr.iDepth - 1, disableCount := 0, acts := PopAct(pr.acts))],
         interrupts := true,
         panicked := s.panicked || pr.disableCount != 1)
  }

  // ------------------------------------------------------------------
  // Steps

  datatype Step =
    | DoBoot | DoDisable | DoEnable | DoStart(p: Pid) | DoNewSem(k: nat, n: nat) | DoDown(k: nat) | DoUp(k: nat)
    | DoSleep(second: nat, hz: nat) | DoYield | DoKill(p: Pid) | DoExit | DoReap | DoInterrupt(irq: nat) | DoResume | DoEndIrq

  /** The current process runs ordinary code: it may hold disables, nothing else.  A killed
      process runs ordinary code, that of exit, also inside the dispatch that resumes it. */
  ghost predicate Client(s: Sched) {
    && s.current.Some?
    && var (p, acts) := (s.current.value, Rec(s, s.current.value).acts);
       (forall i | 0 <= i < |acts| :: acts[i] == Crit) || (p in s.killed && Yielding in acts)
  }

  /** What can happen next; a panic is the end.  Code calls enable only to match its own
      disable, and the idle process never blocks or exits.  The reaper runs when code asks for
      it, and in every dispatch, where the process resumed still owes the enable of its yield.
      A killed process does not return from dispatch. */
  ghost predicate Enabled(s: Sched, a: Step)
  {
    && !s.panicked
    && match a
    case DoBoot => s.current.None?
    case DoDisable => Client(s)
    case DoEnable => Client(s) && Top(Rec(s, s.current.value).acts, Crit)
    case DoStart(p) => Client(s) && p !in s.procs
    case DoNewSem(k, n) => Client(s) && k !in s.sems
    case DoDown(k) => Client(s) && k in s.sems && (s.current == Some(IDLE) ==> s.sems[k].count > 0)
    case DoUp(k) => Client(s) && k in s.sems
    case DoSleep(_, _) => Client(s) && s.current != Some(IDLE)
    case DoYield => Client(s)
    case DoKill(p) => Client(s) && p in s.procs && p != IDLE
    case DoExit => Client(s) && s.current != Some(IDLE)
    case DoReap => (Client(s) || (s.current.Some? && Top(Rec(s, s.current.value).acts, Yielding))) && Queue(s, ReaperQ) != []
    case DoInterrupt(_) => s.interrupts
    case DoResume => s.current.Some? && Top(Rec(s, s.current.value).acts, Yielding) && s.current.value !in s.killed
    case DoEndIrq => s.current.Some? && Top(Rec(s, s.current.value).acts, Irq)
  }

  predicate Top(acts: seq<Act>, a: Act) {
    acts != [] && acts[|acts| - 1] == a
  }

  ghost function Next(s: Sched, a: Step): Sched
    requires Enabled(s, a)
  {
    match a
    case DoBoot => Yield(s, None)
    case DoDisable => Disable(s, Crit)
    case DoEnable => Enable(s)
    case DoStart(p) => Start(s, p)
    case DoNewSem(k, n) => SetSem(s, k, Sem(n, n, 0, 0, [], []))
    case DoDown(k) => Down(s, k)
    case DoUp(k) => Up(s, k)
    case DoSleep(second, hz) => Sleep(s, second, hz)
    case DoYield => Yield(s, None)
    case DoKill(p) => Kill(s, p)
    case DoExit => Exit(s)
    case DoReap => Reap(s)
    case DoInterrupt(irq) => Interrupt(s, irq)
    case DoResume => Enable(s)
    case DoEndIrq => EndIrq(s)
  }
}
