/** The scheduler's code in its own form: records and counts updated in place, processes kept
    in linked queues, timers in a linked list.  Every step does to this structure what the step
    machine says, and keeps the machine's invariant. */
module SchedulerCode {
  import opened Common
  import opened Scheduler
  import opened SchedulerProofs
  import opened SchedulerRuns
  import opened QueueTables
  import opened LinkedLists

  /** What the code keeps of a process. */
  datatype Record = Record(state: RunState, disableCount: nat, iDepth: nat)

  function RecordOf(pr: Proc): Record {
    Record(pr.state, pr.disableCount, pr.iDepth)
  }

  ghost function Records(procs: map<Pid, Proc>): map<Pid, Record> {
    map p | p in procs :: RecordOf(procs[p])
  }

  ghost function Counts(sems: map<nat, Sem>): map<nat, nat> {
    map k | k in sems :: sems[k].count
  }

  ghost function BootState(): Sched {
    Sched(None, map[IDLE := Proc(Ready, 0, 0, [], Parked)], map[ReadyQ := []], map[], [], {}, 0, false, false)
  }

  lemma BootStateInv()
    ensures Booted(BootState()) && Inv(BootState())
  {
    BootedInv(BootState());
  }

  lemma RecordsPut(procs: map<Pid, Proc>, p: Pid, pr: Proc)
    ensures Records(procs[p := pr]) == Records(procs)[p := RecordOf(pr)]
  {
  }

  lemma CountsPut(sems: map<nat, Sem>, k: nat, m: Sem)
    ensures Counts(sems[k := m]) == Counts(sems)[k := m.count]
  {
  }

  class Kernel {
    var current: Option<Pid>
    var procs: map<Pid, Record>
    var counts: map<nat, nat>
    var killed: set<Pid>
    var jiffies: nat
    var interrupts: bool
    var panicked: bool
    const table: QueueTable
    const timers: TimerList
    /** The state of the step machine that all this stands for. */
    ghost var view: Sched

    ghost predicate Agrees()
      reads this, table, table.heads.Keys, table.cells.Keys, timers, timers.repr
    {
      && table.Valid() && table.held == view.queues
      && timers.Valid() && timers.Targets() == view.timers
      && procs == Records(view.procs) && counts == Counts(view.sems)
      && killed == view.killed
      && current == view.current && jiffies == view.jiffies && interrupts == view.interrupts && panicked == view.panicked
    }

    ghost predicate Valid()
      reads this, table, table.heads.Keys, table.cells.Keys, timers, timers.repr
    {
      Agrees() && Inv(view)
    }

    function RecordAt(p: Pid): (r: Record)
      reads this
    {
      if p in procs then procs[p] else Record(Ready, 0, 0)
    }

    /** The machine before its first yield. */
    constructor ()
      ensures Valid() && Booted(view)
      ensures fresh(table) && fresh(timers) && fresh(table.heads.Keys) && fresh(table.cells.Keys) && timers.repr == {}
    {
      current, procs, counts := None, map[IDLE := Record(Ready, 0, 0)], map[];
      killed, jiffies, interrupts, panicked := {}, 0, false, false;
      table := new QueueTable();
      timers := new TimerList();
      view := BootState();
      new;
      table.Provide(ReadyQ);
      BootStateInv();
    }

    // ----------------------------------------------------------------
    // The pieces

    method SetInterrupts(on: bool)
      requires Agrees()
      modifies this
      ensures Agrees() && view == old(view).(interrupts := on)
    {
      interrupts, view := on, view.(interrupts := on);
    }

    method SetCurrent(p: Option<Pid>)
      requires Agrees()
      modifies this
      ensures Agrees() && view == old(view).(current := p)
    {
      current, view := p, view.(current := p);
    }

    method SetPanicked()
      requires Agrees()
      modifies this
      ensures Agrees() && view == Panic(old(view))
    {
      panicked, view := true, Panic(view);
    }

    /** Process `p` has record `r`; `pr` says more about it than the code does. */
    method SetRecord(p: Pid, r: Record, ghost pr: Proc)
      requires Agrees() && r == RecordOf(pr)
      modifies this
      ensures Agrees() && view == SetProc(old(view), p, pr)
    {
      RecordsPut(view.procs, p, pr);
      procs, view := procs[p := r], SetProc(view, p, pr);
    }

    method Disable(ghost a: Act)
      requires Agrees()
      modifies this
      ensures Agrees() && view == Scheduler.Disable(old(view), a)
    {
      SetInterrupts(false);
      if current.Some? {
        var me := current.value;
        ghost var pr := Rec(view, me);
        SetRecord(me, RecordAt(me).(disableCount := RecordAt(me).disableCount + 1),
                  pr.(disableCount := pr.disableCount + 1, acts := pr.acts + [a]));
      }
    }

    method Enable()
      requires Agrees()
      modifies this
      ensures Agrees() && view == Scheduler.Enable(old(view))
    {
      if current.Some? {
        var me := current.value;
        var c := RecordAt(me).disableCount;
        if c == 0 {
          SetPanicked();
        } else {
          ghost var pr := Rec(view, me);
          SetRecord(me, RecordAt(me).(disableCount := c - 1), pr.(disableCount := c - 1, acts := PopAct(pr.acts)));
          if c == 1 { SetInterrupts(true); }
        }
      }
    }

    method Enqueue(q: QueueId, p: Pid)
      requires Agrees()
      modifies this, table, table.heads.Keys, table.cells.Keys
      ensures Agrees() && view == old(view).(queues := old(view).queues[q := Queue(old(view), q) + [p]])
      ensures (forall h | h in table.heads :: h in old(table.heads) || fresh(h)) && (forall c | c in table.cells :: c in old(table.cells) || fresh(c))
    {
      table.AddTail(q, p);
      view := view.(queues := view.queues[q := Queue(view, q) + [p]]);
    }

    method Dequeue(q: QueueId) returns (p: Pid)
      requires Agrees() && Queue(view, q) != []
      modifies this, table, table.heads.Keys, table.cells.Keys
      ensures Agrees() && view == RemoveHead(old(view), q) && p == Queue(old(view), q)[0]
      ensures table.heads == old(table.heads) && table.cells == old(table.cells)
    {
      p := table.RemoveHead(q);
      view := RemoveHead(view, q);
    }

    method MakeReady(p: Pid)
      requires Agrees()
      modifies this, table, table.heads.Keys, table.cells.Keys
      ensures Agrees() && view == Scheduler.MakeReady(old(view), p)
      ensures (forall h | h in table.heads :: h in old(table.heads) || fresh(h)) && (forall c | c in table.cells :: c in old(table.cells) || fresh(c))
    {
      Disable(Crit);
      ghost var s := view;
      SetRecord(p, RecordAt(p).(state := Ready), Rec(view, p).(state := Ready, place := if p != IDLE then In(ReadyQ) else Parked));
      if p != IDLE { Enqueue(ReadyQ, p); }
      assert view == Readied(s, p);
      Enable();
    }

    /** The head of the ready queue, or the idle process. */
    method Pick() returns (next: Pid)
      requires Agrees()
      modifies this, table, table.heads.Keys, table.cells.Keys
      ensures var ready := Queue(old(view), ReadyQ);
        Agrees() && next == (if ready == [] then IDLE else ready[0]) && view == if ready == [] then old(view) else RemoveHead(old(view), ReadyQ)
      ensures table.heads == old(table.heads) && table.cells == old(table.cells)
    {
      next := IDLE;
      if !table.IsEmpty(ReadyQ) { next := Dequeue(ReadyQ); }
    }

    /** The process picked takes the processor. */
    method Land(prev: Option<Pid>, next: Pid)
      requires Agrees()
      modifies this
      ensures Agrees() && view == Landed(old(view), prev, next)
    {
      SetRecord(next, RecordAt(next).(state := Running), Rec(view, next).(state := Running, place := Here));
      if prev != Some(next) { SetInterrupts(RecordAt(next).disableCount == 0); }
      SetCurrent(Some(next));
    }

    method Dispatch(prev: Option<Pid>)
      requires Agrees()
      modifies this, table, table.heads.Keys, table.cells.Keys
      ensures Agrees() && view == Scheduler.Dispatch(old(view), prev)
      ensures table.heads == old(table.heads) && table.cells == old(table.cells)
    {
      DispatchIs(view, prev);
      var next := Pick();
      Land(prev, next);
    }

    /** The first part of yield: the caller leaves the processor. */
    method StepAside(q: Option<QueueId>)
      requires Agrees()
      modifies this, table, table.heads.Keys, table.cells.Keys
      ensures Agrees() && view == Scheduler.StepAside(old(view), q)
      ensures (forall h | h in table.heads :: h in old(table.heads) || fresh(h)) && (forall c | c in table.cells :: c in old(table.cells) || fresh(c))
    {
      if current.Some? {
        if q.Some? { Block(current.value, q.value); } else { MakeReady(current.value); }
      }
    }

    method Block(me: Pid, q: QueueId)
      requires Agrees()
      modifies this, table, table.heads.Keys, table.cells.Keys
      ensures Agrees() && view == Blocking(old(view), me, q)
      ensures (forall h | h in table.heads :: h in old(table.heads) || fresh(h)) && (forall c | c in table.cells :: c in old(table.cells) || fresh(c))
    {
      Suspend(me, q);
      Enqueue(q, me);
    }

    method Suspend(me: Pid, ghost q: QueueId)
      requires Agrees()
      modifies this
      ensures Agrees() && view == Suspended(old(view), me, q)
    {
      if RecordAt(me).iDepth != 0 { SetPanicked(); }
      SetRecord(me, RecordAt(me).(state := Blocked), Rec(view, me).(state := Blocked, place := In(q)));
    }

    method Switch(q: Option<QueueId>)
      requires Agrees()
      modifies this, table, table.heads.Keys, table.cells.Keys
      ensures Agrees() && view == Scheduler.Yield(old(view), q)
      ensures (forall h | h in table.heads :: h in old(table.heads) || fresh(h)) && (forall c | c in table.cells :: c in old(table.cells) || fresh(c))
    {
      var prev := current;
      Disable(Yielding);
      StepAside(q);
      Dispatch(prev);
    }

    /** The first process of a queue is made ready. */
    method WakeOne(q: QueueId)
      requires Agrees() && q != ReadyQ && Queue(view, q) != []
      modifies this, table, table.heads.Keys, table.cells.Keys
      ensures Agrees() && view == Woken(old(view), q) && Queue(view, q) == Queue(old(view), q)[1..]
      ensures (forall h | h in table.heads :: h in old(table.heads) || fresh(h)) && (forall c | c in table.cells :: c in old(table.cells) || fresh(c))
    {
      ghost var s := view;
      var p := Dequeue(q);
      MakeReady(p);
      QueueAfterReady(RemoveHead(s, q), p, q);
    }

    /** One turn of the loop of tick, on record in `trace`. */
    method WakeNext(q: QueueId, ghost trace: seq<Sched>, ghost start: Sched) returns (ghost longer: seq<Sched>)
      requires Agrees() && q != ReadyQ && Queue(view, q) != [] && Traced(trace, q, start, view)
      modifies this, table, table.heads.Keys, table.cells.Keys
      ensures Agrees() && Traced(longer, q, start, view) && |Queue(view, q)| < |Queue(old(view), q)|
      ensures (forall h | h in table.heads :: h in old(table.heads) || fresh(h)) && (forall c | c in table.cells :: c in old(table.cells) || fresh(c))
    {
      WakeOne(q);
      longer := trace + [view];
      TraceMore(trace, q, view);
    }

    /** The loop of tick: everyone waiting on a timer is made ready. */
    method WakeAll(q: QueueId)
      requires Agrees() && q != ReadyQ
      modifies this, table, table.heads.Keys, table.cells.Keys
      ensures Agrees() && view == Scheduler.WakeAll(old(view), q, |Queue(old(view), q)|)
      ensures (forall h | h in table.heads :: h in old(table.heads) || fresh(h)) && (forall c | c in table.cells :: c in old(table.cells) || fresh(c))
    {
      ghost var trace := WakeLoop(q);
      TraceIsWakeAll(trace, q);
    }

    method WakeLoop(q: QueueId) returns (ghost trace: seq<Sched>)
      requires Agrees() && q != ReadyQ
      modifies this, table, table.heads.Keys, table.cells.Keys
      ensures Agrees() && Traced(trace, q, old(view), view) && Queue(view, q) == []
      ensures (forall h | h in table.heads :: h in old(table.heads) || fresh(h)) && (forall c | c in table.cells :: c in old(table.cells) || fresh(c))
    {
      trace := [view];
      while !table.IsEmpty(q)
        invariant Agrees()
        invariant Traced(trace, q, old(view), view)
        invariant (forall h | h in table.heads :: h in old(table.heads) || fresh(h)) && (forall c | c in table.cells :: c in old(table.cells) || fresh(c))
        decreases |Queue(view, q)|
      {
        trace := WakeNext(q, trace, old(view));
      }
    }

    method DropTimer()
      requires Agrees() && view.timers != []
      modifies this, timers
      ensures Agrees() && view == old(view).(timers := old(view).timers[1..])
      ensures table.heads == old(table.heads) && table.cells == old(table.cells) && timers.repr == old(timers.repr)
    {
      timers.DropFirst();
      view := view.(timers := view.timers[1..]);
    }

    /** The first timer is due: it goes, and its sleepers are made ready. */
    method Fire(target: nat)
      requires Agrees() && view.timers != [] && view.timers[0] == target
      modifies this, table, table.heads.Keys, table.cells.Keys, timers
      ensures Agrees()
      ensures var s := old(view);
        view == Scheduler.WakeAll(s.(timers := s.timers[1..]), TimerQ(target), |Queue(s, TimerQ(target))|)
      ensures (forall h | h in table.heads :: h in old(table.heads) || fresh(h)) && (forall c | c in table.cells :: c in old(table.cells) || fresh(c))
      ensures timers.repr == old(timers.repr)
    {
      DropTimer();
      WakeAll(TimerQ(target));
    }

    method Tick()
      requires Agrees()
      modifies this, table, table.heads.Keys, table.cells.Keys, timers
      ensures Agrees() && view == Scheduler.Tick(old(view))
      ensures (forall h | h in table.heads :: h in old(table.heads) || fresh(h)) && (forall c | c in table.cells :: c in old(table.cells) || fresh(c))
      ensures timers.repr == old(timers.repr)
    {
      Disable(Crit);
      if timers.timers != null && jiffies == timers.timers.target { Fire(timers.timers.target); }
      Enable();
    }

    /** The timer to wait on, new or shared. */
    method ProvideTimer(target: nat)
      requires Agrees()
      modifies this, timers, timers.repr
      ensures Agrees() && view == old(view).(timers := InsertTimer(old(view).timers, target))
      ensures table.heads == old(table.heads) && table.cells == old(table.cells)
      ensures forall n | n in timers.repr :: n in old(timers.repr) || fresh(n)
    {
      var _ := timers.TimerFor(target);
      view := view.(timers := InsertTimer(view.timers, target));
    }

    // ----------------------------------------------------------------
    // Semaphores, sleeping, exit, interrupts

    method SetSem(k: nat, count: nat, ghost m: Sem)
      requires Agrees() && m.count == count
      modifies this
      ensures Agrees() && view == Scheduler.SetSem(old(view), k, m)
    {
      CountsPut(view.sems, k, m);
      counts, view := counts[k := count], Scheduler.SetSem(view, k, m);
    }

    method Down(k: nat)
      requires Agrees() && k in view.sems
      modifies this, table, table.heads.Keys, table.cells.Keys
      ensures Agrees() && view == Scheduler.Down(old(view), k)
      ensures (forall h | h in table.heads :: h in old(table.heads) || fresh(h)) && (forall c | c in table.cells :: c in old(table.cells) || fresh(c))
    {
      ghost var m := view.sems[k];
      Disable(Crit);
      if counts[k] == 0 {
        if current.None? { SetPanicked(); } else { Await(k, current.value, m); }
      } else {
        SetAndEnable(k, counts[k] - 1, DownRecord(m, 0));
      }
    }

    method SetAndEnable(k: nat, count: nat, ghost m: Sem)
      requires Agrees() && m.count == count
      modifies this
      ensures Agrees() && view == Scheduler.Enable(Scheduler.SetSem(old(view), k, m))
    {
      SetSem(k, count, m);
      Enable();
    }

    /** The part of down that waits. */
    method Await(k: nat, me: Pid, ghost m: Sem)
      requires Agrees() && m.count == 0
      modifies this, table, table.heads.Keys, table.cells.Keys
      ensures Agrees() && view == Scheduler.Yield(Scheduler.SetSem(old(view), k, DownRecord(m, me)), Some(SemQ(k)))
      ensures (forall h | h in table.heads :: h in old(table.heads) || fresh(h)) && (forall c | c in table.cells :: c in old(table.cells) || fresh(c))
    {
      SetSem(k, 0, DownRecord(m, me));
      Switch(Some(SemQ(k)));
    }

    method Up(k: nat)
      requires Agrees() && k in view.sems
      modifies this, table, table.heads.Keys, table.cells.Keys
      ensures Agrees() && view == Scheduler.Up(old(view), k)
      ensures (forall h | h in table.heads :: h in old(table.heads) || fresh(h)) && (forall c | c in table.cells :: c in old(table.cells) || fresh(c))
    {
      ghost var m := view.sems[k];
      Disable(Crit);
      if table.IsEmpty(SemQ(k)) {
        SetAndEnable(k, counts[k] + 1, UpRecord(m, []));
      } else {
        HandOff(k, m);
        Enable();
      }
    }

    /** The part of up that releases the first waiter. */
    method HandOff(k: nat, ghost m: Sem)
      requires Agrees() && k in view.sems && view.sems[k] == m && Queue(view, SemQ(k)) != []
      modifies this, table, table.heads.Keys, table.cells.Keys
      ensures Agrees()
      ensures var (s, w) := (old(view), Queue(old(view), SemQ(k)));
        view == Scheduler.MakeReady(RemoveHead(Scheduler.SetSem(s, k, UpRecord(m, w)), SemQ(k)), w[0])
      ensures (forall h | h in table.heads :: h in old(table.heads) || fresh(h)) && (forall c | c in table.cells :: c in old(table.cells) || fresh(c))
    {
      SetSem(k, counts[k], UpRecord(m, Queue(view, SemQ(k))));
      var p := Dequeue(SemQ(k));
      MakeReady(p);
    }

    method Sleep(second: nat, hz: nat)
      requires Agrees()
      modifies this, table, table.heads.Keys, table.cells.Keys, timers, timers.repr
      ensures Agrees() && view == Scheduler.Sleep(old(view), second, hz)
      ensures (forall h | h in table.heads :: h in old(table.heads) || fresh(h)) && (forall c | c in table.cells :: c in old(table.cells) || fresh(c))
      ensures forall n | n in timers.repr :: n in old(timers.repr) || fresh(n)
    {
      Disable(Crit);
      var target := Target(second, hz);
      if target > jiffies {
        ProvideTimer(target);
        Switch(Some(TimerQ(target)));
      } else {
        Enable();
      }
    }

    /** Process::kill: the flag is set, if it was not; who is killed finds it when resumed. */
    method Kill(p: Pid)
      requires Agrees()
      modifies this
      ensures Agrees() && view == Scheduler.Kill(old(view), p)
    {
      Disable(Crit);
      Mark(p);
      Enable();
    }

    method Mark(p: Pid)
      requires Agrees()
      modifies this
      ensures Agrees() && view == old(view).(killed := old(view).killed + {p})
    {
      killed, view := killed + {p}, view.(killed := view.killed + {p});
    }

    method Exit()
      requires Agrees() && view.current.Some?
      modifies this, table, table.heads.Keys, table.cells.Keys
      ensures Agrees() && view == Scheduler.Exit(old(view))
      ensures (forall h | h in table.heads :: h in old(table.heads) || fresh(h)) && (forall c | c in table.cells :: c in old(table.cells) || fresh(c))
    {
      ghost var s := view;
      Leave();
      Switch(None);
      ExitIs(s);
    }

    method Leave()
      requires Agrees() && view.current.Some?
      modifies this, table, table.heads.Keys, table.cells.Keys
      ensures Agrees() && view == Retired(Scheduler.Disable(old(view), Crit), old(view).current.value)
      ensures (forall h | h in table.heads :: h in old(table.heads) || fresh(h)) && (forall c | c in table.cells :: c in old(table.cells) || fresh(c))
    {
      var p := current.value;
      Disable(Crit);
      Retire(p);
    }

    /** The exiting process goes to the reaper queue and is current no more. */
    method Retire(p: Pid)
      requires Agrees()
      modifies this, table, table.heads.Keys, table.cells.Keys
      ensures Agrees() && view == Retired(old(view), p)
      ensures (forall h | h in table.heads :: h in old(table.heads) || fresh(h)) && (forall c | c in table.cells :: c in old(table.cells) || fresh(c))
    {
      SetRecord(p, RecordAt(p).(state := Terminated), Rec(view, p).(state := Terminated, place := In(ReaperQ)));
      SetCurrent(None);
      Enqueue(ReaperQ, p);
    }

    method Reap()
      requires Agrees() && Queue(view, ReaperQ) != []
      modifies this, table, table.heads.Keys, table.cells.Keys
      ensures Agrees() && view == Scheduler.Reap(old(view))
      ensures (forall h | h in table.heads :: h in old(table.heads) || fresh(h)) && (forall c | c in table.cells :: c in old(table.cells) || fresh(c))
    {
      Disable(Crit);
      var p := Dequeue(ReaperQ);
      SetRecord(p, RecordAt(p), Rec(view, p).(place := Reaped));
      Enable();
    }

    method Start(p: Pid)
      requires Agrees()
      modifies this, table, table.heads.Keys, table.cells.Keys
      ensures Agrees() && view == Scheduler.Start(old(view), p)
      ensures (forall h | h in table.heads :: h in old(table.heads) || fresh(h)) && (forall c | c in table.cells :: c in old(table.cells) || fresh(c))
    {
      SetRecord(p, Record(Ready, 0, 0), Proc(Ready, 0, 0, [], Parked));
      MakeReady(p);
    }

    method StartIrq()
      requires Agrees()
      modifies this
      ensures Agrees() && view == Scheduler.StartIrq(old(view))
    {
      SetInterrupts(false);
      if current.None? {
        SetPanicked();
      } else {
        var me := current.value;
        var r := RecordAt(me);
        if r.disableCount != 0 { SetPanicked(); }
        ghost var pr := Rec(view, me);
        SetRecord(me, r.(iDepth := r.iDepth + 1, disableCount := 1), pr.(iDepth := pr.iDepth + 1, disableCount := 1, acts := pr.acts + [Irq]));
      }
    }

    method TimerHandler()
      requires Agrees()
      modifies this, table, table.heads.Keys, table.cells.Keys, timers
      ensures Agrees() && view == Scheduler.TimerHandler(old(view))
      ensures (forall h | h in table.heads :: h in old(table.heads) || fresh(h)) && (forall c | c in table.cells :: c in old(table.cells) || fresh(c))
      ensures timers.repr == old(timers.repr)
    {
      jiffies, view := Advance(jiffies), view.(jiffies := Advance(view.jiffies));
      Tick();
    }

    /** pic_irq up to its context switch. */
    method Interrupt(irq: nat)
      requires Agrees()
      modifies this, table, table.heads.Keys, table.cells.Keys, timers
      ensures Agrees() && view == Scheduler.Interrupt(old(view), irq)
      ensures (forall h | h in table.heads :: h in old(table.heads) || fresh(h)) && (forall c | c in table.cells :: c in old(table.cells) || fresh(c))
      ensures timers.repr == old(timers.repr)
    {
      StartIrq();
      Handle(irq);
    }

    method Handle(irq: nat)
      requires Agrees()
      modifies this, table, table.heads.Keys, table.cells.Keys, timers
      ensures Agrees() && view == Scheduler.Handle(old(view), irq)
      ensures (forall h | h in table.heads :: h in old(table.heads) || fresh(h)) && (forall c | c in table.cells :: c in old(table.cells) || fresh(c))
      ensures timers.repr == old(timers.repr)
    {
      if irq == 0 { TimerHandler(); }
      Switch(None);
    }

    method EndIrq()
      requires Agrees()
      modifies this
      ensures Agrees() && view == Scheduler.EndIrq(old(view))
    {
      if current.Some? {
        var me := current.value;
        var r := RecordAt(me);
        if r.disableCount != 1 { SetPanicked(); }
        ghost var pr := Rec(view, me);
        SetRecord(me, r.(iDepth := if r.iDepth == 0 then WRAP - 1 else r.iDepth - 1, disableCount := 0),
                  pr.(iDepth := if pr.iDepth == 0 then WRAP - 1 else pr.iDepth - 1, disableCount := 0, acts := PopAct(pr.acts)));
        SetInterrupts(true);
      }
    }

    // ----------------------------------------------------------------
    // Steps and runs

    /** The code of a step. */
    method Execute(a: Step)
      requires Agrees() && Enabled(view, a)
      modifies this, table, table.heads.Keys, table.cells.Keys, timers, timers.repr
      ensures Agrees() && view == Next(old(view), a)
      ensures (forall h | h in table.heads :: h in old(table.heads) || fresh(h)) && (forall c | c in table.cells :: c in old(table.cells) || fresh(c))
      ensures forall n | n in timers.repr :: n in old(timers.repr) || fresh(n)
    {
      match a
      case DoBoot => Switch(None);
      case DoDisable => Disable(Crit);
      case DoEnable => Enable();
      case DoStart(p) => Start(p);
      case DoNewSem(k, n) => SetSem(k, n, Sem(n, n, 0, 0, [], []));
      case DoDown(k) => Down(k);
      case DoUp(k) => Up(k);
      case DoSleep(second, hz) => Sleep(second, hz);
      case DoYield => Switch(None);
      case DoKill(p) => Kill(p);
      case DoExit => Exit();
      case DoReap => Reap();
      case DoInterrupt(irq) => Interrupt(irq);
      case DoResume => Enable();
      case DoEndIrq => EndIrq();
    }

    /** Any step that can happen is carried out on linked queues, linked timers and records just
        as the machine does it, and leaves the invariant true: no panic, and everybody in the one
        queue that fits his state.  The exception is a killed process that waits inside an interrupt. */
    method Perform(a: Step)
      requires Valid() && Enabled(view, a)
      modifies this, table, table.heads.Keys, table.cells.Keys, timers, timers.repr
      ensures Agrees() && view == Next(old(view), a)
      ensures if WaitsInIrq(old(view), a) then panicked else Valid() && !panicked
      ensures (forall h | h in table.heads :: h in old(table.heads) || fresh(h)) && (forall c | c in table.cells :: c in old(table.cells) || fresh(c))
      ensures forall n | n in timers.repr :: n in old(timers.repr) || fresh(n)
    {
      StepKeepsInv(view, a);
      Execute(a);
    }

    /** A whole run. */
    method Run(steps: seq<Step>, ghost states: seq<Sched>)
      requires Valid() && IsRun(states, steps) && view == states[0]
      modifies this, table, table.heads.Keys, table.cells.Keys, timers, timers.repr
      ensures Agrees() && view == states[|steps|]
      ensures if panicked then |steps| > 0 && WaitsInIrq(states[|steps| - 1], steps[|steps| - 1]) else Valid()
    {
      ExecuteAll(steps, states);
      RunKeepsInv(states, steps, |steps|);
    }

    method ExecuteAll(steps: seq<Step>, ghost states: seq<Sched>)
      requires Agrees() && IsRun(states, steps) && view == states[0]
      modifies this, table, table.heads.Keys, table.cells.Keys, timers, timers.repr
      ensures Agrees() && view == states[|steps|]
    {
      for i := 0 to |steps|
        invariant Agrees() && view == states[i]
        invariant (forall h | h in table.heads :: h in old(table.heads) || fresh(h)) && (forall c | c in table.cells :: c in old(table.cells) || fresh(c))
        invariant forall n | n in timers.repr :: n in old(timers.repr) || fresh(n)
      {
        RunStep(states, steps, i);
        Execute(steps[i]);
      }
    }
  }

  /** makeReady touches no queue but the ready queue. */
  lemma QueueAfterReady(s: Sched, p: Pid, q: QueueId)
    requires q != ReadyQ
    ensures Queue(MakeReady(s, p), q) == Queue(s, q)
  {
  }

  /** Process `next` takes the processor from `prev`. */
  ghost function Landed(s: Sched, prev: Option<Pid>, next: Pid): Sched {
    s.(procs := s.procs[next := Rec(s, next).(state := Running, place := Here)], current := Some(next),
       interrupts := if prev == Some(next) then s.interrupts else Rec(s, next).disableCount == 0)
  }

  lemma DispatchIs(s: Sched, prev: Option<Pid>)
    ensures var ready := Queue(s, ReadyQ);
      Dispatch(s, prev) == if ready == [] then Landed(s, prev, IDLE) else Landed(RemoveHead(s, ReadyQ), prev, ready[0])
  {
  }

  /** Process `p` has gone to the reaper queue and is current no more. */
  ghost function Retired(s: Sched, p: Pid): Sched {
    SetProc(s, p, Rec(s, p).(state := Terminated, place := In(ReaperQ))).(current := None, queues := s.queues[ReaperQ := Queue(s, ReaperQ) + [p]])
  }

  lemma ExitIs(s: Sched)
    requires s.current.Some?
    ensures Exit(s) == Yield(Retired(Disable(s, Crit), s.current.value), None)
  {
    var t, p := Disable(s, Crit), s.current.value;
    var u := AddTail(SetProc(t, p, Rec(t, p).(state := Terminated)), ReaperQ, p).(current := None);
    assert u.procs == Retired(t, p).procs;
    assert u == Retired(t, p);
  }

  /** Process `me` is about to wait in queue `q`. */
  ghost function Suspended(s: Sched, me: Pid, q: QueueId): Sched {
    s.(procs := s.procs[me := Rec(s, me).(state := Blocked, place := In(q))], panicked := s.panicked || Rec(s, me).iDepth != 0)
  }

  ghost function Blocking(s: Sched, me: Pid, q: QueueId): Sched {
    Suspended(s, me, q).(queues := s.queues[q := Queue(s, q) + [me]])
  }

  ghost function Woken(s: Sched, q: QueueId): Sched
    requires Queue(s, q) != []
  {
    MakeReady(RemoveHead(s, q), Queue(s, q)[0])
  }

  ghost predicate WokenAt(trace: seq<Sched>, q: QueueId, i: nat)
    requires i + 1 < |trace|
  {
    Queue(trace[i], q) != [] && trace[i + 1] == Woken(trace[i], q) && Queue(trace[i + 1], q) == Queue(trace[i], q)[1..]
  }

  /** Each state is the one before with one process of queue `q` made ready. */
  ghost predicate IsTrace(trace: seq<Sched>, q: QueueId) {
    |trace| > 0 && forall i {:trigger WokenAt(trace, q, i)} | 0 <= i < |trace| - 1 :: WokenAt(trace, q, i)
  }

  ghost predicate Traced(trace: seq<Sched>, q: QueueId, from: Sched, to: Sched) {
    IsTrace(trace, q) && trace[0] == from && trace[|trace| - 1] == to
  }

  lemma TraceMore(trace: seq<Sched>, q: QueueId, s: Sched)
    requires IsTrace(trace, q)
    requires var last := trace[|trace| - 1]; Queue(last, q) != [] && s == Woken(last, q) && Queue(s, q) == Queue(last, q)[1..]
    ensures IsTrace(trace + [s], q)
  {
    var longer := trace + [s];
    forall i | 0 <= i < |longer| - 1 ensures WokenAt(longer, q, i) {
      assert i < |trace| - 1 ==> WokenAt(trace, q, i);
    }
  }

  lemma {:induction false} TraceIsWakeAll(trace: seq<Sched>, q: QueueId)
    requires IsTrace(trace, q) && Queue(trace[|trace| - 1], q) == []
    ensures WakeAll(trace[0], q, |Queue(trace[0], q)|) == trace[|trace| - 1]
  {
    if |trace| > 1 {
      assert WokenAt(trace, q, 0);
      var rest := trace[1..];
      forall i | 0 <= i < |rest| - 1 ensures WokenAt(rest, q, i) { assert WokenAt(trace, q, i + 1); }
      TraceIsWakeAll(rest, q);
    }
  }
}
