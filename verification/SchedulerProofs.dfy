/** What every step of the scheduler keeps. */
module SchedulerProofs {
  import opened Common
  import opened Scheduler

  // ------------------------------------------------------------------
  // One process

  /** The disable count is the number of activations that owe an enable; an interrupt can
      only be the outermost of them. */
  predicate ProcOk(pr: Proc) {
    && pr.disableCount == |pr.acts|
    && pr.iDepth == (if pr.acts != [] && pr.acts[0] == Irq then 1 else 0)
    && (forall i | 1 <= i < |pr.acts| :: pr.acts[i] != Irq)
  }

  /** A process off the processor has not begun to run, or is inside yield. */
  predicate AtRest(pr: Proc) {
    pr.acts == [] || Top(pr.acts, Yielding)
  }

  predicate StateFits(pr: Proc, p: Pid) {
    match pr.place
    case Here => pr.state == Running
    case In(q) =>
      (match q
       case ReadyQ => pr.state == Ready
       case ReaperQ => pr.state == Terminated
       case _ => pr.state == Blocked)
    case Parked => pr.state == Ready && p == IDLE
    case Reaped => pr.state == Terminated
  }

  /** `here` is the process on the processor. */
  predicate Fine(pr: Proc, p: Pid, here: Option<Pid>) {
    && ProcOk(pr) && StateFits(pr, p)
    && (pr.place == Here <==> here == Some(p))
    && (p == IDLE ==> pr.place == Here || pr.place == Parked)
    && (pr.place == Here || pr.state == Terminated || AtRest(pr))
  }

  // ------------------------------------------------------------------
  // All processes and queues

  /** Queue `q` names processes that are there, each once. */
  ghost predicate QueueOk(procs: map<Pid, Proc>, q: QueueId, ps: seq<Pid>) {
    Distinct(ps) && forall i | 0 <= i < |ps| :: ps[i] in procs && procs[ps[i]].place == In(q)
  }

  predicate Listed(procs: map<Pid, Proc>, queues: map<QueueId, seq<Pid>>, p: Pid)
    requires p in procs
  {
    procs[p].place.In? ==> procs[p].place.q in queues && p in queues[procs[p].place.q]
  }

  ghost predicate Core(procs: map<Pid, Proc>, queues: map<QueueId, seq<Pid>>, here: Option<Pid>) {
    && IDLE in procs
    && (here.Some? ==> here.value in procs)
    && (forall p {:trigger Fine(procs[p], p, here)} | p in procs :: Fine(procs[p], p, here))
    && (forall p {:trigger Listed(procs, queues, p)} | p in procs :: Listed(procs, queues, p))
    && (forall q {:trigger QueueOk(procs, q, queues[q])} | q in queues :: QueueOk(procs, q, queues[q]))
  }

  /** Interrupts are on exactly when a process runs that holds no disable. */
  ghost predicate IrqOk(s: Sched)
  {
    s.interrupts <==> s.current.Some? && Rec(s, s.current.value).disableCount == 0
  }

  // ------------------------------------------------------------------
  // Moves

  /** The running process changes its disable count. */
  lemma CoreActs(procs: map<Pid, Proc>, queues: map<QueueId, seq<Pid>>, p: Pid, pr: Proc)
    requires Core(procs, queues, Some(p)) && ProcOk(pr)
    requires pr.state == procs[p].state && pr.place == procs[p].place
    ensures Core(procs[p := pr], queues, Some(p))
  {
    var w := procs[p := pr];
    forall k | k in w ensures Fine(w[k], k, Some(p)) && Listed(w, queues, k) {
      assert Fine(procs[k], k, Some(p)) && Listed(procs, queues, k);
    }
    forall q | q in queues ensures QueueOk(w, q, queues[q]) {
      assert QueueOk(procs, q, queues[q]);
    }
  }

  /** The running process, taken out of the picture. */
  lemma DetachHere(procs: map<Pid, Proc>, queues: map<QueueId, seq<Pid>>, p: Pid)
    requires Core(procs, queues, Some(p)) && p != IDLE
    ensures Core(procs - {p}, queues, None)
  {
    var v := procs - {p};
    assert Fine(procs[p], p, Some(p));
    forall k | k in v ensures Fine(v[k], k, None) && Listed(v, queues, k) {
      assert Fine(procs[k], k, Some(p)) && Listed(procs, queues, k);
    }
    forall q | q in queues ensures QueueOk(v, q, queues[q]) {
      assert QueueOk(procs, q, queues[q]);
    }
  }

  /** The head of a queue, taken out of the queue and of the picture. */
  lemma DetachHead(procs: map<Pid, Proc>, queues: map<QueueId, seq<Pid>>, here: Option<Pid>, q: QueueId)
    requires Core(procs, queues, here) && q in queues && queues[q] != []
    ensures var p := queues[q][0];
      && p in procs && p != IDLE && here != Some(p) && Fine(procs[p], p, here) && procs[p].place == In(q)
      && Core(procs - {p}, queues[q := queues[q][1..]], here)
  {
    var p, ps := queues[q][0], queues[q];
    var v, qs := procs - {p}, queues[q := ps[1..]];
    assert QueueOk(procs, q, ps) && Fine(procs[p], p, here);
    if here.Some? { assert Fine(procs[here.value], here.value, here); }
    forall k | k in v ensures Fine(v[k], k, here) && Listed(v, qs, k) {
      assert Fine(procs[k], k, here) && Listed(procs, queues, k);
      if procs[k].place == In(q) {
        var i :| 0 <= i < |ps| && ps[i] == k;
        assert ps[1..][i - 1] == k;
      }
    }
    forall r | r in qs ensures QueueOk(v, r, qs[r]) {
      assert QueueOk(procs, r, queues[r]);
      if r == q { assert forall i | 0 <= i < |ps| - 1 :: ps[1..][i] == ps[i + 1]; }
    }
  }

  /** A process outside the picture joins queue `q`. */
  lemma Join(v: map<Pid, Proc>, queues: map<QueueId, seq<Pid>>, here: Option<Pid>, p: Pid, pr: Proc, q: QueueId)
    requires Core(v, queues, here) && p !in v && pr.place == In(q) && Fine(pr, p, None)
    ensures Core(v[p := pr], queues[q := (if q in queues then queues[q] else []) + [p]], here)
  {
    var w := v[p := pr];
    var ps := (if q in queues then queues[q] else []) + [p];
    var qs := queues[q := ps];
    forall k | k in w ensures Fine(w[k], k, here) && Listed(w, qs, k) {
      if k != p {
        assert Fine(v[k], k, here) && Listed(v, queues, k);
      } else {
        assert ps[|ps| - 1] == p;
      }
    }
    forall r | r in qs ensures QueueOk(w, r, qs[r]) {
      if r in queues { assert QueueOk(v, r, queues[r]); }
      if r == q && r in queues {
        assert forall i | 0 <= i < |queues[r]| :: ps[i] == queues[r][i];
      }
    }
  }

  /** A process outside the picture comes onto the free processor, or is gone for good. */
  lemma Attach(v: map<Pid, Proc>, queues: map<QueueId, seq<Pid>>, here: Option<Pid>, p: Pid, pr: Proc)
    requires Core(v, queues, here) && p !in v
    requires (pr.place == Here && here == None && Fine(pr, p, Some(p))) || (pr.place == Reaped && Fine(pr, p, None))
    ensures Core(v[p := pr], queues, if pr.place == Here then Some(p) else here)
  {
    var w, h := v[p := pr], if pr.place == Here then Some(p) else here;
    forall k | k in w ensures Fine(w[k], k, h) && Listed(w, queues, k) {
      if k != p { assert Fine(v[k], k, here) && Listed(v, queues, k); }
    }
    forall q | q in queues ensures QueueOk(w, q, queues[q]) {
      assert QueueOk(v, q, queues[q]);
    }
  }

  /** The idle process leaves the processor, or takes it. */
  lemma IdleMoves(procs: map<Pid, Proc>, queues: map<QueueId, seq<Pid>>, here: Option<Pid>, pr: Proc)
    requires Core(procs, queues, here)
    requires (here == Some(IDLE) && pr.place == Parked && Fine(pr, IDLE, None)) || (here == None && pr.place == Here && Fine(pr, IDLE, Some(IDLE)))
    ensures Core(procs[IDLE := pr], queues, if here == None then Some(IDLE) else None)
  {
    var w, h := procs[IDLE := pr], if here == None then Some(IDLE) else None;
    assert Fine(procs[IDLE], IDLE, here);
    forall k | k in w ensures Fine(w[k], k, h) && Listed(w, queues, k) {
      assert Fine(procs[k], k, here) && Listed(procs, queues, k);
    }
    forall q | q in queues ensures QueueOk(w, q, queues[q]) {
      assert QueueOk(procs, q, queues[q]);
    }
  }

  /** Two processes on record at the same time are in different places, or in the same queue
      at different positions: nobody is in two places. */
  lemma OnePlace(procs: map<Pid, Proc>, queues: map<QueueId, seq<Pid>>, here: Option<Pid>, p: Pid)
    requires Core(procs, queues, here) && p in procs
    ensures here == Some(p) <==> procs[p].state == Running
    ensures forall q | q in queues && p in queues[q] :: procs[p].place == In(q) && here != Some(p)
    ensures forall q, i, j | q in queues && 0 <= i < |queues[q]| && 0 <= j < |queues[q]| && queues[q][i] == p && queues[q][j] == p :: i == j
    ensures p != IDLE && procs[p].state == Ready ==> ReadyQ in queues && p in queues[ReadyQ]
    ensures procs[p].state == Blocked ==> exists q :: q in queues && (q.SemQ? || q.TimerQ?) && p in queues[q]
    ensures ReadyQ in queues ==> IDLE !in queues[ReadyQ]
  {
    assert Fine(procs[p], p, here) && Listed(procs, queues, p) && Fine(procs[IDLE], IDLE, here);
    forall q | q in queues && p in queues[q] ensures procs[p].place == In(q) {
      assert QueueOk(procs, q, queues[q]);
    }
    forall q, i, j | q in queues && 0 <= i < |queues[q]| && 0 <= j < |queues[q]| && queues[q][i] == p && queues[q][j] == p ensures i == j {
      assert QueueOk(procs, q, queues[q]);
    }
    if ReadyQ in queues { assert QueueOk(procs, ReadyQ, queues[ReadyQ]); }
  }

  // ------------------------------------------------------------------
  // The pieces of code

  ghost predicate Sound(s: Sched, here: Option<Pid>) {
    !s.panicked && Core(s.procs, s.queues, here)
  }

  predicate CurrentTop(s: Sched, a: Act) {
    s.current.Some? && Top(Rec(s, s.current.value).acts, a)
  }

  /** The current process is inside an interrupt. */
  predicate InIrq(s: Sched) {
    s.current.Some? && Rec(s, s.current.value).iDepth != 0
  }

  lemma DisableSound(s: Sched, a: Act)
    requires Sound(s, s.current) && a != Irq
    ensures Sound(Disable(s, a), s.current) && IrqOk(Disable(s, a))
  {
    if s.current.Some? {
      var p := s.current.value;
      assert Fine(s.procs[p], p, s.current);
      CoreActs(s.procs, s.queues, p, Disable(s, a).procs[p]);
    }
  }

  lemma EnableSound(s: Sched)
    requires Sound(s, s.current) && IrqOk(s)
    requires s.current.Some? ==> Rec(s, s.current.value).acts != [] && !CurrentTop(s, Irq)
    ensures Sound(Enable(s), s.current) && IrqOk(Enable(s))
  {
    if s.current.Some? {
      var p := s.current.value;
      assert Fine(s.procs[p], p, s.current);
      CoreActs(s.procs, s.queues, p, Enable(s).procs[p]);
    }
  }

  lemma MakeReadyProcs(s: Sched, p: Pid)
    requires p in s.procs && s.current.Some? && s.current.value in s.procs
    ensures MakeReady(s, p).procs == Readied(s, p).procs
  {
    assert PopAct(s.procs[s.current.value].acts + [Crit]) == s.procs[s.current.value].acts;
    if s.current.value == p { MakeReadySelf(s, p); } else { MakeReadyOther(s, p); }
  }

  lemma MakeReadySelf(s: Sched, p: Pid)
    requires p in s.procs && s.current == Some(p) && PopAct(s.procs[p].acts + [Crit]) == s.procs[p].acts
    ensures MakeReady(s, p).procs == Readied(s, p).procs
  {
  }

  lemma MakeReadyOther(s: Sched, p: Pid)
    requires p in s.procs && s.current.Some? && s.current.value in s.procs && s.current.value != p
    requires PopAct(s.procs[s.current.value].acts + [Crit]) == s.procs[s.current.value].acts
    ensures MakeReady(s, p).procs == Readied(s, p).procs
  {
  }

  lemma ReadiedFields(s: Sched, p: Pid)
    ensures var t := Readied(s, p);
      && t.current == s.current && t.interrupts == s.interrupts && t.panicked == s.panicked && SameRest(s, t)
      && (s.current.Some? ==> Rec(t, s.current.value).disableCount == Rec(s, s.current.value).disableCount)
  {
  }

  lemma EnableFields(s: Sched)
    requires s.current.Some? ==> Rec(s, s.current.value).disableCount > 0
    ensures var t := Enable(s);
      && t.current == s.current && t.panicked == s.panicked && t.queues == s.queues && SameRest(s, t)
      && t.interrupts == (s.interrupts || (s.current.Some? && Rec(s, s.current.value).disableCount == 1))
  {
  }

  lemma DisableFields(s: Sched, a: Act)
    ensures var t := Disable(s, a);
      && t.current == s.current && t.panicked == s.panicked && t.queues == s.queues && SameRest(s, t) && !t.interrupts
      && (s.current.Some? ==> Rec(t, s.current.value).disableCount == Rec(s, s.current.value).disableCount + 1)
  {
  }

  lemma MakeReadyRest(s: Sched, p: Pid)
    requires IrqOk(s)
    ensures MakeReady(s, p).queues == Readied(s, p).queues && MakeReady(s, p).interrupts == s.interrupts
    ensures MakeReady(s, p).panicked == s.panicked && MakeReady(s, p).current == s.current
    ensures SameRest(s, MakeReady(s, p))
  {
    var d := Disable(s, Crit);
    DisableFields(s, Crit);
    ReadiedFields(d, p);
    EnableFields(Readied(d, p));
    assert Queue(d, ReadyQ) == Queue(s, ReadyQ);
  }

  /** makeReady's own disable and enable leave no trace. */
  lemma MakeReadyIsReadied(s: Sched, p: Pid)
    requires p in s.procs && IrqOk(s) && (s.current.Some? ==> s.current.value in s.procs)
    ensures MakeReady(s, p) == Readied(s, p)
  {
    MakeReadyRest(s, p);
    ReadiedFields(s, p);
    if s.current.Some? { MakeReadyProcs(s, p); }
  }

  /** A sleeping or waiting process at the head of its queue becomes ready. */
  lemma WakeSound(s: Sched, q: QueueId)
    requires Sound(s, s.current) && IrqOk(s) && (q.SemQ? || q.TimerQ?) && Queue(s, q) != []
    ensures var t := MakeReady(RemoveHead(s, q), Queue(s, q)[0]);
      && Sound(t, s.current) && IrqOk(t) && t.current == s.current
      && t == Readied(RemoveHead(s, q), Queue(s, q)[0])
      && (s.current.Some? ==> Rec(t, s.current.value) == Rec(s, s.current.value))
  {
    var p, u := Queue(s, q)[0], RemoveHead(s, q);
    DetachHead(s.procs, s.queues, s.current, q);
    MakeReadyIsReadied(u, p);
    var t := Readied(u, p);
    Join(s.procs - {p}, u.queues, s.current, p, t.procs[p], ReadyQ);
    assert t.procs == (s.procs - {p})[p := t.procs[p]];
  }

  /** The yielding process leaves the processor for the ready queue, or its parking place. */
  lemma AsideReady(s: Sched)
    requires Sound(s, s.current) && IrqOk(s) && CurrentTop(s, Yielding)
    ensures Sound(StepAside(s, None), None) && StepAside(s, None) == Readied(s, s.current.value)
  {
    var me := s.current.value;
    assert Fine(s.procs[me], me, s.current);
    MakeReadyIsReadied(s, me);
    var t := Readied(s, me);
    if me == IDLE {
      IdleMoves(s.procs, s.queues, s.current, t.procs[me]);
      assert t.procs == s.procs[IDLE := t.procs[IDLE]];
    } else {
      DetachHere(s.procs, s.queues, me);
      Join(s.procs - {me}, s.queues, None, me, t.procs[me], ReadyQ);
      assert t.procs == (s.procs - {me})[me := t.procs[me]];
    }
  }

  /** The yielding process leaves the processor for the queue it blocks on. */
  lemma AsideBlocked(s: Sched, q: QueueId)
    requires Sound(s, s.current) && CurrentTop(s, Yielding) && s.current != Some(IDLE)
    requires (q.SemQ? || q.TimerQ?) && Rec(s, s.current.value).iDepth == 0
    ensures Sound(StepAside(s, Some(q)), None)
  {
    var me := s.current.value;
    assert Fine(s.procs[me], me, s.current);
    var t := StepAside(s, Some(q));
    DetachHere(s.procs, s.queues, me);
    Join(s.procs - {me}, s.queues, None, me, t.procs[me], q);
    assert t.procs == (s.procs - {me})[me := t.procs[me]];
  }

  lemma DispatchSound(s: Sched, prev: Option<Pid>)
    requires Sound(s, None) && (prev.Some? ==> prev.value in s.procs) && s.current == prev && !s.interrupts
    requires prev.Some? ==> s.procs[prev.value].disableCount > 0
    ensures var t := Dispatch(s, prev); Sound(t, t.current) && t.current.Some? && IrqOk(t)
  {
    var t := Dispatch(s, prev);
    if Queue(s, ReadyQ) == [] {
      assert Fine(s.procs[IDLE], IDLE, None);
      IdleMoves(s.procs, s.queues, None, t.procs[IDLE]);
    } else {
      var next := Queue(s, ReadyQ)[0];
      DetachHead(s.procs, s.queues, None, ReadyQ);
      Attach(s.procs - {next}, t.queues, None, next, t.procs[next]);
      assert t.procs == (s.procs - {next})[next := t.procs[next]];
    }
  }

  /** yield gives the processor to one process and leaves everyone in one place. */
  lemma YieldSound(s: Sched, q: Option<QueueId>)
    requires Sound(s, s.current)
    requires s.current.Some? && q.Some? ==>
      s.current != Some(IDLE) && (q.value.SemQ? || q.value.TimerQ?) && Rec(s, s.current.value).iDepth == 0
    ensures var t := Yield(s, q); Sound(t, t.current) && t.current.Some? && IrqOk(t)
  {
    var u := Disable(s, Yielding);
    DisableSound(s, Yielding);
    if s.current.Some? {
      if q.None? { AsideReady(u); } else { AsideBlocked(u, q.value); }
    }
    DispatchSound(StepAside(u, q), s.current);
  }

  // ------------------------------------------------------------------
  // What the pieces do to queues

  /** The ready queue from which yield picks. */
  ghost function ReadyForPick(s: Sched, q: Option<QueueId>): seq<Pid> {
    Queue(s, ReadyQ) + (if q.None? && s.current.Some? && s.current != Some(IDLE) then [s.current.value] else [])
  }

  /** The parts of the state that processes and queues are not. */
  ghost predicate SameRest(s: Sched, t: Sched) {
    t.sems == s.sems && t.timers == s.timers && t.jiffies == s.jiffies && t.killed == s.killed
  }

  lemma DispatchEffect(s: Sched, prev: Option<Pid>)
    requires s.current == prev
    ensures var t := Dispatch(s, prev);
      && SameRest(s, t)
      && t.current == Some(if Queue(s, ReadyQ) == [] then IDLE else Queue(s, ReadyQ)[0])
      && Queue(t, ReadyQ) == if Queue(s, ReadyQ) == [] then [] else Queue(s, ReadyQ)[1..]
  {
  }

  lemma DispatchQueue(s: Sched, prev: Option<Pid>, r: QueueId)
    requires r != ReadyQ
    ensures Queue(Dispatch(s, prev), r) == Queue(s, r)
  {
  }

  lemma DisableQueue(s: Sched, a: Act, r: QueueId)
    ensures Queue(Disable(s, a), r) == Queue(s, r) && Disable(s, a).current == s.current && SameRest(s, Disable(s, a))
    ensures IrqOk(Disable(s, a)) && (s.current.Some? ==> s.current.value in Disable(s, a).procs)
  {
  }

  lemma EnableQueue(s: Sched, r: QueueId)
    ensures Queue(Enable(s), r) == Queue(s, r) && Enable(s).current == s.current && SameRest(s, Enable(s))
  {
  }

  lemma AsideEffect(s: Sched, q: Option<QueueId>)
    requires IrqOk(s) && q != Some(ReadyQ) && (s.current.Some? ==> s.current.value in s.procs)
    ensures var t := StepAside(s, q);
      && SameRest(s, t) && t.current == s.current && Queue(t, ReadyQ) == ReadyForPick(s, q)
  {
    if q.None? && s.current.Some? { MakeReadyIsReadied(s, s.current.value); }
  }

  lemma AsideQueue(s: Sched, q: Option<QueueId>, r: QueueId)
    requires r != ReadyQ
    ensures Queue(StepAside(s, q), r) == Queue(s, r) + (if s.current.Some? && q == Some(r) then [s.current.value] else [])
  {
  }

  /** yield picks the head of the ready queue, or the idle process if there is none. */
  lemma YieldEffect(s: Sched, q: Option<QueueId>)
    requires q != Some(ReadyQ) && (s.current.Some? ==> s.current.value in s.procs)
    ensures var t := Yield(s, q);
      && SameRest(s, t)
      && t.current == Some(if ReadyForPick(s, q) == [] then IDLE else ReadyForPick(s, q)[0])
      && Queue(t, ReadyQ) == if ReadyForPick(s, q) == [] then [] else ReadyForPick(s, q)[1..]
  {
    var u := Disable(s, Yielding);
    DisableQueue(s, Yielding, ReadyQ);
    AsideEffect(u, q);
    DispatchEffect(StepAside(u, q), s.current);
    assert ReadyForPick(u, q) == ReadyForPick(s, q);
  }

  /** yield adds the yielding process to the queue named and to no other. */
  lemma YieldQueue(s: Sched, q: Option<QueueId>, r: QueueId)
    requires r != ReadyQ
    ensures Queue(Yield(s, q), r) == Queue(s, r) + (if s.current.Some? && q == Some(r) then [s.current.value] else [])
  {
    var u := Disable(s, Yielding);
    DisableQueue(s, Yielding, r);
    AsideQueue(u, q, r);
    DispatchQueue(StepAside(u, q), s.current, r);
  }

  /** One process moves from the head of queue `q` to the end of the ready queue. */
  lemma WakeEffect(s: Sched, q: QueueId, r: QueueId)
    requires Sound(s, s.current) && IrqOk(s) && (q.SemQ? || q.TimerQ?) && Queue(s, q) != []
    ensures var t := MakeReady(RemoveHead(s, q), Queue(s, q)[0]);
      && SameRest(s, t)
      && Queue(t, q) == Queue(s, q)[1..] && Queue(t, ReadyQ) == Queue(s, ReadyQ) + [Queue(s, q)[0]]
      && (r != ReadyQ && r != q ==> Queue(t, r) == Queue(s, r))
  {
    WakeSound(s, q);
    DetachHead(s.procs, s.queues, s.current, q);
  }

  lemma {:induction false} WakeAllSound(s: Sched, q: QueueId, n: nat)
    requires Sound(s, s.current) && IrqOk(s) && (q.SemQ? || q.TimerQ?)
    ensures var t := WakeAll(s, q, n);
      && Sound(t, s.current) && IrqOk(t) && t.current == s.current
      && (s.current.Some? ==> Rec(t, s.current.value) == Rec(s, s.current.value))
    decreases n
  {
    if n > 0 && Queue(s, q) != [] {
      WakeSound(s, q);
      WakeAllSound(MakeReady(RemoveHead(s, q), Queue(s, q)[0]), q, n - 1);
    }
  }

  /** Everyone in queue `q` goes, in order, to the end of the ready queue. */
  lemma {:induction false} WakeAllEffect(s: Sched, q: QueueId, n: nat, r: QueueId)
    requires Sound(s, s.current) && IrqOk(s) && (q.SemQ? || q.TimerQ?) && n == |Queue(s, q)|
    ensures var t := WakeAll(s, q, n);
      && SameRest(s, t)
      && Queue(t, q) == [] && Queue(t, ReadyQ) == Queue(s, ReadyQ) + Queue(s, q)
      && (r != ReadyQ && r != q ==> Queue(t, r) == Queue(s, r))
    decreases n
  {
    if n > 0 {
      WakeSound(s, q);
      WakeEffect(s, q, r);
      var u := MakeReady(RemoveHead(s, q), Queue(s, q)[0]);
      WakeAllEffect(u, q, n - 1, r);
      WakesAdd(s, u, WakeAll(u, q, n - 1), q, r);
    }
  }

  /** One process of queue `q` and then the rest of them. */
  lemma WakesAdd(s: Sched, u: Sched, t: Sched, q: QueueId, r: QueueId)
    requires q != ReadyQ && Queue(s, q) != [] && SameRest(s, u) && SameRest(u, t)
    requires Queue(u, q) == Queue(s, q)[1..] && Queue(u, ReadyQ) == Queue(s, ReadyQ) + [Queue(s, q)[0]]
    requires Queue(t, q) == [] && Queue(t, ReadyQ) == Queue(u, ReadyQ) + Queue(u, q)
    requires r != ReadyQ && r != q ==> Queue(u, r) == Queue(s, r) && Queue(t, r) == Queue(u, r)
    ensures SameRest(s, t) && Queue(t, ReadyQ) == Queue(s, ReadyQ) + Queue(s, q)
    ensures r != ReadyQ && r != q ==> Queue(t, r) == Queue(s, r)
  {
    assert Queue(s, q) == [Queue(s, q)[0]] + Queue(s, q)[1..];
  }

  // ------------------------------------------------------------------
  // Timers and semaphores

  /** Timers are strictly ascending and none is due yet. */
  ghost predicate TimerOk(timers: seq<nat>, jiffies: nat) {
    && jiffies < WRAP
    && (forall i, j | 0 <= i < j < |timers| :: timers[i] < timers[j])
    && (forall i | 0 <= i < |timers| :: jiffies < timers[i] < WRAP)
  }

  /** Count and number of waiters are the two signs of init + ups - downs, and waiters are
      released in the order in which they blocked. */
  ghost predicate SemOk(m: Sem, waiting: seq<Pid>) {
    && (m.count == 0 || waiting == [])
    && m.count - |waiting| == m.init + m.ups - m.downs
    && m.blocked == m.released + waiting
  }

  /** Waiting processes wait for a semaphore or timer that exists. */
  ghost predicate WaitsOk(s: Sched) {
    && (forall q | Queue(s, q) != [] :: (q.TimerQ? ==> q.target in s.timers) && (q.SemQ? ==> q.sem in s.sems))
    && (forall k | k in s.sems :: SemOk(s.sems[k], Queue(s, SemQ(k))))
  }

  ghost predicate Inv(s: Sched) {
    Sound(s, s.current) && IrqOk(s) && TimerOk(s.timers, s.jiffies) && WaitsOk(s)
  }

  lemma {:induction false} InsertTimerMembers(ts: seq<nat>, x: nat)
    ensures forall y :: y in InsertTimer(ts, x) <==> y in ts || y == x
  {
    if ts != [] {
      InsertTimerMembers(ts[1..], x);
      assert forall y :: y in ts <==> y == ts[0] || y in ts[1..];
    }
  }

  lemma ConsTimer(x: nat, ts: seq<nat>, jiffies: nat)
    requires TimerOk(ts, jiffies) && jiffies < x < WRAP && (forall y | y in ts :: x < y)
    ensures TimerOk([x] + ts, jiffies)
  {
    var r := [x] + ts;
    assert forall i | 0 < i < |r| :: r[i] == ts[i - 1] && ts[i - 1] in ts;
  }

  /** A new timer keeps the list in order; a timer that exists is shared. */
  lemma {:induction false} InsertTimerOk(ts: seq<nat>, jiffies: nat, x: nat)
    requires TimerOk(ts, jiffies) && jiffies < x < WRAP
    ensures TimerOk(InsertTimer(ts, x), jiffies)
  {
    if ts == [] {
    } else if ts[0] < x {
      assert TimerOk(ts[1..], jiffies);
      InsertTimerOk(ts[1..], jiffies, x);
      InsertTimerMembers(ts[1..], x);
      ConsTimer(ts[0], InsertTimer(ts[1..], x), jiffies);
    } else if ts[0] > x {
      ConsTimer(x, ts, jiffies);
    }
  }

  /** Advancing the clock by one, also from the largest value to 0, passes no timer: the
      first one may be due now, and all others are still ahead. */
  lemma ClockAdvances(ts: seq<nat>, before: nat)
    requires TimerOk(ts, before)
    ensures var now := Advance(before);
      TimerOk(if ts != [] && ts[0] == now then ts[1..] else ts, now)
  {
    if ts != [] {
      assert before < ts[0] < WRAP;
    }
  }

  ghost predicate Due(s: Sched) {
    s.timers != [] && s.timers[0] == s.jiffies
  }

  lemma TickSound(s: Sched)
    requires Sound(s, s.current) && IrqOk(s)
    requires s.current.Some? ==> Rec(s, s.current.value).acts != []
    ensures var t := Tick(s);
      && Sound(t, s.current) && IrqOk(t) && t.current == s.current
      && (s.current.Some? ==> Rec(t, s.current.value).acts == Rec(s, s.current.value).acts)
  {
    DisableSound(s, Crit);
    var u := Disable(s, Crit);
    if s.current.Some? { assert PopAct(Rec(u, s.current.value).acts) == Rec(s, s.current.value).acts; }
    if Due(s) {
      var v := u.(timers := u.timers[1..]);
      var n := |Queue(v, TimerQ(s.jiffies))|;
      WakeAllSound(v, TimerQ(s.jiffies), n);
      EnableSound(WakeAll(v, TimerQ(s.jiffies), n));
    } else {
      EnableSound(u);
    }
  }

  lemma TickIs(s: Sched)
    ensures var u := Disable(s, Crit);
      Tick(s) == Enable(if Due(s) then WakeAll(u.(timers := s.timers[1..]), TimerQ(s.jiffies), |Queue(u, TimerQ(s.jiffies))|) else u)
  {
    DisableQueue(s, Crit, ReadyQ);
  }

  /** tick: the sleepers of the timer that is due, and nobody else, become ready. */
  lemma TickEffect(s: Sched, r: QueueId)
    requires Sound(s, s.current)
    ensures var t := Tick(s);
      && t.sems == s.sems && t.jiffies == s.jiffies && t.killed == s.killed
      && t.timers == (if Due(s) then s.timers[1..] else s.timers)
      && Queue(t, ReadyQ) == Queue(s, ReadyQ) + (if Due(s) then Queue(s, TimerQ(s.jiffies)) else [])
      && (r != ReadyQ ==> Queue(t, r) == if Due(s) && r == TimerQ(s.jiffies) then [] else Queue(s, r))
  {
    TickIs(s);
    var u := Disable(s, Crit);
    DisableQueue(s, Crit, r);
    DisableQueue(s, Crit, ReadyQ);
    if Due(s) {
      DisableSound(s, Crit);
      DisableQueue(s, Crit, TimerQ(s.jiffies));
      var v, q := u.(timers := s.timers[1..]), TimerQ(s.jiffies);
      WakeAllEffect(v, q, |Queue(u, q)|, r);
      EnableQueue(WakeAll(v, q, |Queue(u, q)|), r);
      EnableQueue(WakeAll(v, q, |Queue(u, q)|), ReadyQ);
    } else {
      EnableQueue(u, r);
      EnableQueue(u, ReadyQ);
    }
  }

  // ------------------------------------------------------------------
  // Every step keeps the invariant

  /** Queues that hold waiting processes. */
  predicate IsWait(q: QueueId) {
    q.SemQ? || q.TimerQ?
  }

  lemma WaitsKept(s: Sched, t: Sched)
    requires WaitsOk(s) && t.sems == s.sems && t.timers == s.timers
    requires forall q | IsWait(q) :: Queue(t, q) == Queue(s, q)
    ensures WaitsOk(t)
  {
    forall q | Queue(t, q) != [] ensures (q.TimerQ? ==> q.target in t.timers) && (q.SemQ? ==> q.sem in t.sems) {
      if IsWait(q) { assert Queue(s, q) != []; }
    }
  }

  /** The invariant's part for a plain yield. */
  lemma YieldKeeps(s: Sched)
    requires Sound(s, s.current) && TimerOk(s.timers, s.jiffies) && WaitsOk(s)
    ensures Inv(Yield(s, None))
  {
    YieldSound(s, None);
    YieldEffect(s, None);
    var t := Yield(s, None);
    forall q | IsWait(q) ensures Queue(t, q) == Queue(s, q) {
      YieldQueue(s, None, q);
    }
    WaitsKept(s, t);
  }

  lemma DisableKeeps(s: Sched)
    requires Inv(s)
    ensures Inv(Disable(s, Crit))
  {
    var t := Disable(s, Crit);
    DisableSound(s, Crit);
    DisableFields(s, Crit);
    WaitsKept(s, t);
  }

  lemma EnableKeeps(s: Sched)
    requires Inv(s)
    requires s.current.Some? ==> Rec(s, s.current.value).acts != [] && !CurrentTop(s, Irq)
    ensures Inv(Enable(s))
  {
    var t := Enable(s);
    EnableSound(s);
    assert s.current.Some? ==> Fine(s.procs[s.current.value], s.current.value, s.current);
    EnableFields(s);
    WaitsKept(s, t);
  }

  lemma StartKeeps(s: Sched, p: Pid)
    requires Inv(s) && p !in s.procs
    ensures Inv(Start(s, p))
  {
    var u := SetProc(s, p, Proc(Ready, 0, 0, [], Parked));
    MakeReadyIsReadied(u, p);
    var t := Readied(u, p);
    Join(s.procs, s.queues, s.current, p, t.procs[p], ReadyQ);
    assert t.procs == s.procs[p := t.procs[p]];
    WaitsKept(s, t);
  }

  lemma NewSemKeeps(s: Sched, k: nat, n: nat)
    requires Inv(s) && k !in s.sems
    ensures Inv(SetSem(s, k, Sem(n, n, 0, 0, [], [])))
  {
    var t := SetSem(s, k, Sem(n, n, 0, 0, [], []));
    assert Queue(s, SemQ(k)) == [];
    assert forall q :: Queue(t, q) == Queue(s, q);
  }

  lemma ClientFacts(s: Sched)
    requires Sound(s, s.current) && Client(s)
    ensures !CurrentTop(s, Irq) && s.current.value in s.procs && (InIrq(s) ==> s.current.value in s.killed)
    ensures var t := Disable(s, Crit); t.current == s.current && CurrentTop(t, Crit)
  {
    assert Fine(s.procs[s.current.value], s.current.value, s.current);
  }

  /** Changing one semaphore's record changes nothing else. */
  lemma SetSemKeeps(s: Sched, k: nat, m: Sem)
    requires Inv(s) && k in s.sems && SemOk(m, Queue(s, SemQ(k)))
    ensures Inv(SetSem(s, k, m))
  {
    var t := SetSem(s, k, m);
    assert forall q :: Queue(t, q) == Queue(s, q);
  }

  lemma SetAndEnable(u: Sched, k: nat, m: Sem)
    requires Inv(u) && CurrentTop(u, Crit) && k in u.sems && SemOk(m, Queue(u, SemQ(k)))
    ensures Inv(Enable(SetSem(u, k, m)))
  {
    SetSemKeeps(u, k, m);
    EnableKeeps(SetSem(u, k, m));
  }

  lemma SemStep(m: Sem, w: seq<Pid>, p: Pid)
    requires SemOk(m, w)
    ensures SemOk(DownRecord(m, p), if m.count == 0 then w + [p] else w)
    ensures SemOk(UpRecord(m, w), if w == [] then [] else w[1..])
  {
    if w != [] { assert m.released + [w[0]] + w[1..] == m.released + w; }
    assert m.released + (w + [p]) == m.released + w + [p];
  }

  lemma DownIs(s: Sched, k: nat)
    requires k in s.sems && s.current.Some?
    ensures var t := SetSem(Disable(s, Crit), k, DownRecord(s.sems[k], s.current.value));
      Down(s, k) == if s.sems[k].count == 0 then Yield(t, Some(SemQ(k))) else Enable(t)
  {
  }

  /** down keeps the invariant, unless it has to wait inside an interrupt: then it panics. */
  lemma DownKeeps(s: Sched, k: nat)
    requires Inv(s) && Client(s) && k in s.sems && (s.current == Some(IDLE) ==> s.sems[k].count > 0)
    ensures if s.sems[k].count == 0 && InIrq(s) then Down(s, k).panicked else Inv(Down(s, k))
  {
    DownIs(s, k);
    ClientFacts(s);
    DisableKeeps(s);
    DisableQueue(s, Crit, SemQ(k));
    DisableDepth(s);
    SemStep(s.sems[k], Queue(s, SemQ(k)), s.current.value);
    if s.sems[k].count == 0 {
      if InIrq(s) {
        WaitPanics(SetSem(Disable(s, Crit), k, DownRecord(s.sems[k], s.current.value)), SemQ(k));
      } else {
        BlockKeeps(Disable(s, Crit), k, DownRecord(s.sems[k], s.current.value));
      }
    } else {
      SetAndEnable(Disable(s, Crit), k, DownRecord(s.sems[k], s.current.value));
    }
  }

  /** Waiting inside an interrupt is a panic. */
  lemma WaitPanics(s: Sched, q: QueueId)
    requires InIrq(s)
    ensures Yield(s, Some(q)).panicked
  {
    DisableDepth(s);
  }

  lemma DisableDepth(s: Sched)
    requires s.current.Some?
    ensures forall a :: Rec(Disable(s, a), s.current.value).iDepth == Rec(s, s.current.value).iDepth
  {
  }

  lemma BlockKeeps(u: Sched, k: nat, m: Sem)
    requires Inv(u) && u.current.Some? && u.current.value in u.procs && !InIrq(u)
    requires k in u.sems && u.current != Some(IDLE) && SemOk(m, Queue(u, SemQ(k)) + [u.current.value])
    ensures Inv(Yield(SetSem(u, k, m), Some(SemQ(k))))
  {
    var v := SetSem(u, k, m);
    YieldSound(v, Some(SemQ(k)));
    YieldEffect(v, Some(SemQ(k)));
    var t := Yield(v, Some(SemQ(k)));
    forall q | IsWait(q) ensures Queue(t, q) == Queue(u, q) + (if q == SemQ(k) then [u.current.value] else []) {
      YieldQueue(v, Some(SemQ(k)), q);
    }
    forall q | Queue(t, q) != [] ensures (q.TimerQ? ==> q.target in t.timers) && (q.SemQ? ==> q.sem in t.sems) {
      if IsWait(q) && q != SemQ(k) { assert Queue(u, q) != []; }
    }
    forall j | j in t.sems ensures SemOk(t.sems[j], Queue(t, SemQ(j))) {
      if j != k { assert Queue(t, SemQ(j)) == Queue(u, SemQ(j)); }
    }
  }

  lemma UpIs(s: Sched, k: nat)
    requires k in s.sems
    ensures var (t, w) := (SetSem(Disable(s, Crit), k, UpRecord(s.sems[k], Queue(s, SemQ(k)))), Queue(s, SemQ(k)));
      && Queue(t, SemQ(k)) == w
      && Up(s, k) == Enable(if w == [] then t else MakeReady(RemoveHead(t, SemQ(k)), w[0]))
  {
    DisableQueue(s, Crit, SemQ(k));
  }

  lemma UpKeeps(s: Sched, k: nat)
    requires Inv(s) && Client(s) && k in s.sems
    ensures Inv(Up(s, k))
  {
    UpIs(s, k);
    ClientFacts(s);
    DisableKeeps(s);
    DisableQueue(s, Crit, SemQ(k));
    SemStep(s.sems[k], Queue(s, SemQ(k)), 0);
    if Queue(s, SemQ(k)) == [] {
      SetAndEnable(Disable(s, Crit), k, UpRecord(s.sems[k], []));
    } else {
      HandOffAndEnable(Disable(s, Crit), k, UpRecord(s.sems[k], Queue(s, SemQ(k))));
    }
  }

  lemma HandOffAndEnable(u: Sched, k: nat, m: Sem)
    requires Inv(u) && CurrentTop(u, Crit) && k in u.sems
    requires Queue(u, SemQ(k)) != [] && SemOk(m, Queue(u, SemQ(k))[1..])
    requires Queue(SetSem(u, k, m), SemQ(k)) == Queue(u, SemQ(k))
    ensures Inv(Enable(MakeReady(RemoveHead(SetSem(u, k, m), SemQ(k)), Queue(u, SemQ(k))[0])))
  {
    HandOffKeeps(u, k, m);
    EnableKeeps(MakeReady(RemoveHead(SetSem(u, k, m), SemQ(k)), Queue(u, SemQ(k))[0]));
  }

  lemma HandOffKeeps(u: Sched, k: nat, m: Sem)
    requires Inv(u) && CurrentTop(u, Crit) && k in u.sems && Queue(u, SemQ(k)) != [] && SemOk(m, Queue(u, SemQ(k))[1..])
    ensures var t := MakeReady(RemoveHead(SetSem(u, k, m), SemQ(k)), Queue(u, SemQ(k))[0]);
      && Inv(t) && t.current == u.current && Rec(t, u.current.value) == Rec(u, u.current.value)
  {
    var v, q := SetSem(u, k, m), SemQ(k);
    WakeSound(v, q);
    var t := MakeReady(RemoveHead(v, q), Queue(v, q)[0]);
    forall r | IsWait(r) ensures Queue(t, r) == if r == q then Queue(u, q)[1..] else Queue(u, r) {
      WakeEffect(v, q, r);
    }
    WakeEffect(v, q, q);
    forall r | Queue(t, r) != [] ensures (r.TimerQ? ==> r.target in t.timers) && (r.SemQ? ==> r.sem in t.sems) {
      if IsWait(r) { assert Queue(u, r) != []; }
    }
    forall j | j in t.sems ensures SemOk(t.sems[j], Queue(t, SemQ(j))) {
      if j != k { assert Queue(t, SemQ(j)) == Queue(u, SemQ(j)); }
    }
  }

  /** sleepUntil keeps the invariant, with the same exception. */
  lemma SleepKeeps(s: Sched, second: nat, hz: nat)
    requires Inv(s) && Client(s) && s.current != Some(IDLE)
    ensures if Target(second, hz) > s.jiffies && InIrq(s) then Sleep(s, second, hz).panicked else Inv(Sleep(s, second, hz))
  {
    ClientFacts(s);
    DisableKeeps(s);
    DisableFields(s, Crit);
    var u, x := Disable(s, Crit), Target(second, hz);
    if x > s.jiffies {
      DisableDepth(s);
      if InIrq(s) { WaitPanics(u.(timers := InsertTimer(u.timers, x)), TimerQ(x)); } else { SleepBlocks(u, x); }
    } else {
      EnableKeeps(u);
    }
  }

  lemma SleepBlocks(u: Sched, x: nat)
    requires Inv(u) && u.current.Some? && u.current.value in u.procs && !InIrq(u)
    requires u.current != Some(IDLE) && u.jiffies < x < WRAP
    ensures Inv(Yield(u.(timers := InsertTimer(u.timers, x)), Some(TimerQ(x))))
  {
    InsertTimerOk(u.timers, u.jiffies, x);
    InsertTimerMembers(u.timers, x);
    var v, q := u.(timers := InsertTimer(u.timers, x)), TimerQ(x);
    YieldSound(v, Some(q));
    YieldEffect(v, Some(q));
    var t := Yield(v, Some(q));
    forall r | IsWait(r) ensures Queue(t, r) == Queue(u, r) + (if r == q then [u.current.value] else []) {
      YieldQueue(v, Some(q), r);
    }
    forall r | Queue(t, r) != [] ensures (r.TimerQ? ==> r.target in t.timers) && (r.SemQ? ==> r.sem in t.sems) {
      if IsWait(r) && r != q { assert Queue(u, r) != []; }
    }
    forall j | j in t.sems ensures SemOk(t.sems[j], Queue(t, SemQ(j))) {
      assert Queue(t, SemQ(j)) == Queue(u, SemQ(j));
    }
  }

  /** kill marks the process and leaves no other trace. */
  lemma KillIs(s: Sched, p: Pid)
    requires Inv(s) && s.current.Some?
    ensures Kill(s, p) == s.(killed := s.killed + {p})
  {
    var pr := Rec(s, s.current.value);
    assert PopAct(pr.acts + [Crit]) == pr.acts;
    assert Kill(s, p).procs == s.procs;
  }

  lemma KillKeeps(s: Sched, p: Pid)
    requires Inv(s) && s.current.Some?
    ensures Inv(Kill(s, p))
  {
    KillIs(s, p);
    WaitsKept(s, Kill(s, p));
  }

  lemma ExitKeeps(s: Sched)
    requires Inv(s) && Client(s) && s.current != Some(IDLE)
    ensures Inv(Exit(s))
  {
    ClientFacts(s);
    DisableKeeps(s);
    var u, p := Disable(s, Crit), s.current.value;
    assert Fine(u.procs[p], p, u.current);
    var v := AddTail(SetProc(u, p, Rec(u, p).(state := Terminated)), ReaperQ, p).(current := None);
    DetachHere(u.procs, u.queues, p);
    Join(u.procs - {p}, u.queues, None, p, v.procs[p], ReaperQ);
    assert v.procs == (u.procs - {p})[p := v.procs[p]];
    WaitsKept(u, v);
    YieldKeeps(v);
  }

  /** The reaper's own disable and enable leave no trace, wherever it runs. */
  lemma ReapIs(s: Sched)
    requires Inv(s) && s.current.Some? && Queue(s, ReaperQ) != []
    ensures var p := Queue(s, ReaperQ)[0];
      Reap(s) == SetProc(RemoveHead(s, ReaperQ), p, Rec(s, p).(place := Reaped))
  {
    var p, me := Queue(s, ReaperQ)[0], s.current.value;
    DetachHead(s.procs, s.queues, s.current, ReaperQ);
    var pr := Rec(s, me);
    assert PopAct(pr.acts + [Crit]) == pr.acts;
    var t := SetProc(RemoveHead(s, ReaperQ), p, Rec(s, p).(place := Reaped));
    assert Reap(s).procs == t.procs;
  }

  lemma ReapKeeps(s: Sched)
    requires Inv(s) && s.current.Some? && Queue(s, ReaperQ) != []
    ensures Inv(Reap(s))
  {
    ReapIs(s);
    var p := Queue(s, ReaperQ)[0];
    DetachHead(s.procs, s.queues, s.current, ReaperQ);
    var v := Reap(s);
    Attach(s.procs - {p}, v.queues, s.current, p, v.procs[p]);
    assert v.procs == (s.procs - {p})[p := v.procs[p]];
    WaitsKept(s, v);
  }

  /** An interrupt is only taken with no disable outstanding: startIrq does not panic. */
  lemma StartIrqSound(s: Sched)
    requires Inv(s) && s.interrupts
    ensures var t := StartIrq(s);
      && Sound(t, s.current) && IrqOk(t) && t.current == s.current && Rec(t, s.current.value).acts == [Irq]
      && t.queues == s.queues && SameRest(s, t)
  {
    var p := s.current.value;
    assert Fine(s.procs[p], p, s.current);
    CoreActs(s.procs, s.queues, p, StartIrq(s).procs[p]);
  }

  lemma InterruptKeeps(s: Sched, irq: nat)
    requires Inv(s) && s.interrupts
    ensures Inv(Interrupt(s, irq))
  {
    StartIrqSound(s);
    HandleKeeps(StartIrq(s), s, irq);
  }

  lemma HandleKeeps(u: Sched, s: Sched, irq: nat)
    requires Sound(u, u.current) && IrqOk(u) && u.current.Some? && Rec(u, u.current.value).acts == [Irq]
    requires WaitsOk(s) && u.queues == s.queues && SameRest(s, u) && TimerOk(s.timers, s.jiffies)
    ensures Inv(Handle(u, irq))
  {
    if irq == 0 {
      TimerHandlerKeeps(u, s);
      YieldKeeps(TimerHandler(u));
    } else {
      WaitsKept(s, u);
      YieldKeeps(u);
    }
  }

  lemma TimerHandlerKeeps(u: Sched, s: Sched)
    requires Sound(u, u.current) && IrqOk(u) && u.current.Some? && Rec(u, u.current.value).acts == [Irq]
    requires WaitsOk(s) && u.queues == s.queues && SameRest(s, u) && TimerOk(s.timers, s.jiffies)
    ensures var t := TimerHandler(u); Sound(t, t.current) && TimerOk(t.timers, t.jiffies) && WaitsOk(t)
  {
    ClockAdvances(s.timers, s.jiffies);
    TickKeeps(u.(jiffies := Advance(u.jiffies)), s);
  }

  lemma TickKeeps(v: Sched, s: Sched)
    requires Sound(v, v.current) && IrqOk(v) && v.current.Some? && Rec(v, v.current.value).acts == [Irq]
    requires WaitsOk(s) && v.queues == s.queues && v.sems == s.sems && v.timers == s.timers
    requires TimerOk(if Due(v) then v.timers[1..] else v.timers, v.jiffies)
    ensures var t := Tick(v); Sound(t, t.current) && TimerOk(t.timers, t.jiffies) && WaitsOk(t)
  {
    WaitsKept(s, v);
    TickSound(v);
    TickWaits(v);
    TickEffect(v, ReadyQ);
  }

  lemma TickWaits(v: Sched)
    requires Sound(v, v.current) && WaitsOk(v)
    ensures WaitsOk(Tick(v))
  {
    var t := Tick(v);
    TickEffect(v, ReadyQ);
    forall r | Queue(t, r) != [] ensures (r.TimerQ? ==> r.target in t.timers) && (r.SemQ? ==> r.sem in t.sems) {
      if IsWait(r) {
        TickEffect(v, r);
        assert Queue(v, r) != [];
        if r.TimerQ? && Due(v) {
          assert r.target in v.timers && r.target != v.timers[0];
        }
      }
    }
    forall j | j in t.sems ensures SemOk(t.sems[j], Queue(t, SemQ(j))) {
      TickEffect(v, SemQ(j));
    }
  }

  /** An interrupt ends with its own disable as the only one: endIrq does not panic. */
  lemma EndIrqKeeps(s: Sched)
    requires Inv(s) && CurrentTop(s, Irq)
    ensures Inv(EndIrq(s))
  {
    var p := s.current.value;
    assert Fine(s.procs[p], p, s.current);
    CoreActs(s.procs, s.queues, p, EndIrq(s).procs[p]);
    WaitsKept(s, EndIrq(s));
  }

  /** A step that waits, inside an interrupt. */
  ghost predicate WaitsInIrq(s: Sched, a: Step) {
    && InIrq(s)
    && match a
       case DoDown(k) => k in s.sems && s.sems[k].count == 0
       case DoSleep(second, hz) => Target(second, hz) > s.jiffies
       case _ => false
  }

  /** Only a killed process can come to wait inside an interrupt. */
  lemma OnlyKilledWait(s: Sched, a: Step)
    requires Inv(s) && Enabled(s, a) && WaitsInIrq(s, a)
    ensures s.current.Some? && s.current.value in s.killed
  {
    ClientFacts(s);
  }

  /** Every step from a good state leads to a good state, and none panics but one that waits
      inside an interrupt. */
  lemma StepKeepsInv(s: Sched, a: Step)
    requires Inv(s) && Enabled(s, a)
    ensures if WaitsInIrq(s, a) then Next(s, a).panicked else Inv(Next(s, a))
  {
    if Client(s) { ClientFacts(s); }
    match a {
      case DoBoot => YieldKeeps(s);
      case DoDisable => DisableKeeps(s);
      case DoEnable => EnableKeeps(s);
      case DoStart(p) => StartKeeps(s, p);
      case DoNewSem(k, n) => NewSemKeeps(s, k, n);
      case DoDown(k) => DownKeeps(s, k);
      case DoUp(k) => UpKeeps(s, k);
      case DoSleep(second, hz) => SleepKeeps(s, second, hz);
      case DoYield => YieldKeeps(s);
      case DoKill(p) => KillKeeps(s, p);
      case DoExit => ExitKeeps(s);
      case DoReap => ReapKeeps(s);
      case DoInterrupt(irq) => InterruptKeeps(s, irq);
      case DoResume => EnableKeeps(s);
      case DoEndIrq => EndIrqKeeps(s);
    }
  }
}
