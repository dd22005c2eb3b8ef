/** Reference-counted lifetime of processes (kernel/resource.h, kernel/table.cc and the exit,
    reaper and join paths of kernel/process.cc and kernel/syscall.cc), as a machine whose steps
    are the single reference-count updates, so that every interleaving is a run. */
module Refcounts {
  import opened Common

  datatype Kind = Process | Semaphore | Directory

  /** Life of a process; from exit on with the exit code. */
  datatype Phase =
    | New                    // constructed, not started
    | Live
    | Exiting(code: int)     // in exit, closing its table
    | Done(code: int)        // doneEvent signalled
    | Queued(code: int)      // on the reaper queue
    | Taken(code: int)       // off the queue, about to be released by the reaper
    | Reaped(code: int)

  /** Objects are numbered and 0 is the null pointer.  `count` holds the objects that exist, and
      `kinds` all that ever did.  `tables` holds the resource table of each process. */
  datatype System = System(
    slots: nat, count: map<nat, nat>, kinds: map<nat, Kind>, phase: map<nat, Phase>,
    tables: map<nat, seq<nat>>, reaper: seq<nat>, current: nat)

  // ------------------------------------------------------------------
  // Counting references

  function Ref(count: map<nat, nat>, r: nat): map<nat, nat> {
    if r in count then count[r := count[r] + 1] else count
  }

  /** The object is deleted by its last unref. */
  function Unref(count: map<nat, nat>, r: nat): map<nat, nat> {
    if r !in count then count
    else if count[r] <= 1 then count - {r}
    else count[r := count[r] - 1]
  }

  /** Table slots that name `r`. */
  ghost function Named(tables: map<nat, seq<nat>>, r: nat): set<(nat, nat)> {
    set q, i | q in tables && 0 <= i < |tables[q]| && tables[q][i] == r :: (q, i)
  }

  function Put(tables: map<nat, seq<nat>>, q: nat, i: nat, v: nat): map<nat, seq<nat>>
    requires q in tables && i < |tables[q]|
  {
    var t: seq<nat> := tables[q][i := v];
    tables[q := t]
  }

  /** A slot that changes from one object to another leaves one set and enters the other. */
  lemma NamedPut(tables: map<nat, seq<nat>>, q: nat, i: nat, v: nat, r: nat)
    requires q in tables && i < |tables[q]|
    ensures |Named(Put(tables, q, i, v), r)| ==
      |Named(tables, r)| - (if tables[q][i] == r then 1 else 0) + (if v == r then 1 else 0)
  {
    NamedElsewhere(tables, q, i, v, r);
    SetMove(Named(tables, r), Named(Put(tables, q, i, v), r), (q, i));
  }

  lemma NamedElsewhere(tables: map<nat, seq<nat>>, q: nat, i: nat, v: nat, r: nat)
    requires q in tables && i < |tables[q]|
    ensures Named(tables, r) - {(q, i)} == Named(Put(tables, q, i, v), r) - {(q, i)}
    ensures ((q, i) in Named(tables, r) <==> tables[q][i] == r) && ((q, i) in Named(Put(tables, q, i, v), r) <==> v == r)
  {
  }

  lemma NamedFresh(tables: map<nat, seq<nat>>, c: nat, t: seq<nat>, r: nat)
    requires c !in tables && r !in t
    ensures Named(tables[c := t], r) == Named(tables, r)
  {
  }

  // ------------------------------------------------------------------
  // Steps

  predicate Ended(ph: Phase) {
    !ph.New? && !ph.Live? && !ph.Exiting?
  }

  /** The process can be the current one. */
  predicate Runs(ph: Phase) {
    ph.Live? || ph.Exiting? || ph.Done?
  }

  /** The reference that a process is created with is still there. */
  predicate Held(s: System, r: nat) {
    r in s.phase && !s.phase[r].Reaped?
  }

  function NoSlots(n: nat): (t: seq<nat>)
    ensures |t| == n && forall i | 0 <= i < n :: t[i] == 0
  {
    seq(n, _ => 0)
  }

  ghost predicate Emptied(t: seq<nat>) {
    forall i | 0 <= i < |t| :: t[i] == 0
  }

  datatype Step =
    | Construct(c: nat)              // new Process
    | Create(r: nat, kind: Kind)     // any other new resource
    | Share(c: nat, i: nat)          // one slot of the table copied for a child
    | Fill(i: nat, r: nat)           // open, or addWorkingDir in slot 1
    | Start(c: nat)
    | Drop(i: nat)                   // close, closeWorkingDir, one turn of closeAll
    | Exit(code: int)
    | Signal
    | Die
    | Unqueue
    | Reap(p: nat)
    | Join(i: nat, code: int)
    | Switch(p: nat)

  predicate Acting(s: System) {
    s.current in s.phase && s.current in s.tables && Runs(s.phase[s.current])
  }

  predicate OwnSlot(s: System, i: nat) {
    Acting(s) && 0 < i < |s.tables[s.current]|
  }

  predicate Enabled(s: System, step: Step) {
    match step
    case Construct(c) => c != 0 && c !in s.kinds
    case Create(r, kind) => r != 0 && r !in s.kinds && kind != Process
    case Share(c, i) =>
      && OwnSlot(s, i) && s.phase[s.current].Live? && c in s.phase && s.phase[c].New? && c != s.current
      && c in s.tables && i < |s.tables[c]| && s.tables[c][i] == 0
      && s.tables[s.current][i] in s.kinds && s.kinds[s.tables[s.current][i]] != Process
    case Fill(i, r) =>
      && OwnSlot(s, i) && s.phase[s.current].Live? && s.tables[s.current][i] == 0
      && r in s.count && r in s.kinds && (r in s.phase ==> s.phase[r].New?) && (i == 1 ==> s.kinds[r] == Directory)
    case Start(c) => c in s.phase && s.phase[c].New?
    case Drop(i) => OwnSlot(s, i) && !s.phase[s.current].Done?
    case Exit(code) => Acting(s) && s.phase[s.current].Live?
    case Signal => Acting(s) && s.phase[s.current].Exiting? && (forall i | 0 <= i < |s.tables[s.current]| :: s.tables[s.current][i] == 0)
    case Die => Acting(s) && s.phase[s.current].Done?
    case Unqueue => s.reaper != [] && s.reaper[0] in s.phase && s.phase[s.reaper[0]].Queued?
    case Reap(p) => p in s.phase && s.phase[p].Taken?
    case Join(i, code) =>
      && OwnSlot(s, i) && s.phase[s.current].Live?
      && s.tables[s.current][i] in s.phase && Ended(s.phase[s.tables[s.current][i]])
      && code == s.phase[s.tables[s.current][i]].code
    case Switch(p) => p in s.phase && Runs(s.phase[p])
  }

  function Dropped(s: System, i: nat): System
    requires OwnSlot(s, i)
  {
    s.(count := Unref(s.count, s.tables[s.current][i]), tables := Put(s.tables, s.current, i, 0))
  }

  function Next(s: System, step: Step): System
    requires Enabled(s, step)
  {
    match step
    case Construct(c) =>
      s.(count := s.count[c := 1], kinds := s.kinds[c := Process], phase := s.phase[c := New], tables := s.tables[c := NoSlots(s.slots)])
    case Create(r, kind) => s.(count := s.count[r := 0], kinds := s.kinds[r := kind])
    case Share(c, i) =>
      s.(count := Ref(s.count, s.tables[s.current][i]), tables := Put(s.tables, c, i, s.tables[s.current][i]))
    case Fill(i, r) => s.(count := Ref(s.count, r), tables := Put(s.tables, s.current, i, r))
    case Start(c) => s.(phase := s.phase[c := Live])
    case Drop(i) => Dropped(s, i)
    case Exit(code) => s.(phase := s.phase[s.current := Exiting(code)])
    case Signal => s.(phase := s.phase[s.current := Done(s.phase[s.current].code)])
    case Die => s.(phase := s.phase[s.current := Queued(s.phase[s.current].code)], reaper := s.reaper + [s.current], current := 0)
    case Unqueue => s.(phase := s.phase[s.reaper[0] := Taken(s.phase[s.reaper[0]].code)], reaper := s.reaper[1..])
    case Reap(p) => s.(phase := s.phase[p := Reaped(s.phase[p].code)], count := Unref(s.count, p))
    case Join(i, code) => Dropped(s, i)
    case Switch(p) => s.(current := p)
  }

  // ------------------------------------------------------------------
  // Invariant

  predicate SlotOk(s: System, q: nat, i: nat)
    requires q in s.tables && i < |s.tables[q]|
  {
    var v := s.tables[q][i];
    v == 0 || (v in s.count && v in s.kinds && i != 0 && (i == 1 ==> s.kinds[v] == Directory))
  }

  /** Slots name only objects that exist. */
  ghost predicate NoDangling(s: System) {
    forall q, i {:trigger SlotOk(s, q, i)} | q in s.tables && 0 <= i < |s.tables[q]| :: SlotOk(s, q, i)
  }

  ghost predicate CountOk(s: System, r: nat)
    requires r in s.count
  {
    r in s.kinds && s.count[r] == (if Held(s, r) then 1 else 0) + |Named(s.tables, r)| && (r in s.phase ==> s.count[r] > 0)
  }

  ghost predicate Counted(s: System) {
    forall r {:trigger CountOk(s, r)} | r in s.count :: CountOk(s, r)
  }

  ghost predicate ProcOk(s: System, p: nat)
    requires p in s.phase
  {
    && p in s.tables && |s.tables[p]| == s.slots && p in s.kinds && s.kinds[p] == Process
    && (!s.phase[p].Reaped? ==> p in s.count)
    && (Ended(s.phase[p]) ==> Emptied(s.tables[p]))
    && (p in s.reaper <==> s.phase[p].Queued?)
  }

  ghost predicate Procs(s: System) {
    && s.tables.Keys == s.phase.Keys
    && (forall r {:trigger s.kinds[r]} | r in s.kinds && s.kinds[r] == Process :: r in s.phase)
    && (forall p {:trigger ProcOk(s, p)} | p in s.phase :: ProcOk(s, p))
  }

  ghost predicate Queue(s: System) {
    && (forall i, j | 0 <= i < j < |s.reaper| :: s.reaper[i] != s.reaper[j])
    && (forall i | 0 <= i < |s.reaper| :: s.reaper[i] in s.phase)
  }

  ghost predicate Inv(s: System) {
    && s.slots >= 2 && 0 !in s.kinds
    && NoDangling(s) && Counted(s) && Procs(s) && Queue(s)
    && (s.current != 0 ==> s.current in s.phase && Runs(s.phase[s.current]))
  }

  // ------------------------------------------------------------------
  // Every step keeps the invariant

  lemma NamedNone(tables: map<nat, seq<nat>>, r: nat, q: nat, i: nat)
    requires |Named(tables, r)| == 0 && q in tables && i < |tables[q]|
    ensures tables[q][i] != r
  {
    assert (q, i) !in Named(tables, r);
  }

  lemma NamedSome(tables: map<nat, seq<nat>>, r: nat, q: nat, i: nat)
    requires q in tables && i < |tables[q]| && tables[q][i] == r
    ensures |Named(tables, r)| > 0
  {
    assert (q, i) in Named(tables, r);
  }

  lemma PutAt(tables: map<nat, seq<nat>>, q: nat, i: nat, v: nat, q2: nat, i2: nat)
    requires q in tables && i < |tables[q]| && q2 in tables && i2 < |tables[q2]|
    ensures |Put(tables, q, i, v)[q2]| == |tables[q2]|
    ensures Put(tables, q, i, v)[q2][i2] == if q2 == q && i2 == i then v else tables[q2][i2]
  {
  }

  /** An empty slot takes a reference. */
  lemma FillKeeps(s: System, q: nat, i: nat, v: nat)
    requires Inv(s) && q in s.tables && 0 < i < |s.tables[q]| && s.tables[q][i] == 0 && q in s.phase && !Ended(s.phase[q])
    requires v in s.count && (i == 1 ==> v in s.kinds && s.kinds[v] == Directory)
    ensures Inv(s.(count := Ref(s.count, v), tables := Put(s.tables, q, i, v)))
  {
    var t := s.(count := Ref(s.count, v), tables := Put(s.tables, q, i, v));
    assert CountOk(s, v);
    forall q2, i2 | q2 in t.tables && 0 <= i2 < |t.tables[q2]| ensures SlotOk(t, q2, i2) {
      PutAt(s.tables, q, i, v, q2, i2);
      assert SlotOk(s, q2, i2);
    }
    forall r | r in t.count ensures CountOk(t, r) {
      assert CountOk(s, r);
      NamedPut(s.tables, q, i, v, r);
    }
    TablesKept(s, q, i, v, t.count);
  }

  /** A slot lets its reference go. */
  lemma DropKeeps(s: System, q: nat, i: nat)
    requires Inv(s) && q in s.tables && 0 < i < |s.tables[q]| && q in s.phase && !Ended(s.phase[q])
    ensures Inv(s.(count := Unref(s.count, s.tables[q][i]), tables := Put(s.tables, q, i, 0)))
  {
    var u := s.tables[q][i];
    var t := s.(count := Unref(s.count, u), tables := Put(s.tables, q, i, 0));
    assert SlotOk(s, q, i);
    NamedSome(s.tables, u, q, i);
    NamedPut(s.tables, q, i, 0, u);
    if u in s.count { assert CountOk(s, u); }
    forall q2, i2 | q2 in t.tables && 0 <= i2 < |t.tables[q2]| ensures SlotOk(t, q2, i2) {
      PutAt(s.tables, q, i, 0, q2, i2);
      assert SlotOk(s, q2, i2);
      if u in s.count && u !in t.count { NamedNone(t.tables, u, q2, i2); }
    }
    forall r | r in t.count ensures CountOk(t, r) {
      assert CountOk(s, r);
      NamedPut(s.tables, q, i, 0, r);
    }
    TablesKept(s, q, i, 0, t.count);
  }

  lemma TablesKept(s: System, q: nat, i: nat, v: nat, count: map<nat, nat>)
    requires Inv(s) && q in s.tables && i < |s.tables[q]| && q in s.phase && !Ended(s.phase[q])
    requires forall p | Held(s, p) && p in s.count :: p in count
    ensures Procs(s.(count := count, tables := Put(s.tables, q, i, v)))
  {
    var t := s.(count := count, tables := Put(s.tables, q, i, v));
    forall p | p in t.phase ensures ProcOk(t, p) {
      assert ProcOk(s, p);
    }
  }

  /** The reaper lets go of the reference that the process was created with. */
  lemma ReapKeeps(s: System, p: nat)
    requires Inv(s) && p in s.phase && s.phase[p].Taken?
    ensures Inv(Next(s, Reap(p)))
  {
    var t := Next(s, Reap(p));
    assert ProcOk(s, p) && CountOk(s, p);
    forall q, i | q in t.tables && 0 <= i < |t.tables[q]| ensures SlotOk(t, q, i) {
      assert SlotOk(s, q, i);
      if p !in t.count { NamedNone(t.tables, p, q, i); }
    }
    forall r | r in t.count ensures CountOk(t, r) { assert CountOk(s, r); }
    forall q | q in t.phase ensures ProcOk(t, q) { assert ProcOk(s, q); }
  }

  lemma ConstructKeeps(s: System, c: nat)
    requires Inv(s) && Enabled(s, Construct(c))
    ensures Inv(Next(s, Construct(c)))
  {
    var t := Next(s, Construct(c));
    forall q, i | q in t.tables && 0 <= i < |t.tables[q]| ensures SlotOk(t, q, i) {
      if q != c { assert SlotOk(s, q, i); }
    }
    assert c in s.count ==> CountOk(s, c);
    assert c in s.phase ==> ProcOk(s, c);
    forall r | r in t.count ensures CountOk(t, r) {
      if r != 0 { NamedFresh(s.tables, c, NoSlots(s.slots), r); }
      if r != c { assert CountOk(s, r); } else { UnknownNotNamed(s, c); }
    }
    forall p | p in t.phase ensures ProcOk(t, p) {
      if p != c { assert ProcOk(s, p); }
    }
  }

  lemma UnknownNotNamed(s: System, r: nat)
    requires NoDangling(s) && r !in s.kinds && r != 0
    ensures Named(s.tables, r) == {}
  {
    forall q, i | q in s.tables && 0 <= i < |s.tables[q]| ensures s.tables[q][i] != r { assert SlotOk(s, q, i); }
  }

  lemma CreateKeeps(s: System, r: nat, kind: Kind)
    requires Inv(s) && Enabled(s, Create(r, kind))
    ensures Inv(Next(s, Create(r, kind)))
  {
    var t := Next(s, Create(r, kind));
    assert r in s.phase ==> ProcOk(s, r);
    UnknownNotNamed(s, r);
    forall q, i | q in t.tables && 0 <= i < |t.tables[q]| ensures SlotOk(t, q, i) { assert SlotOk(s, q, i); }
    forall x | x in t.count ensures CountOk(t, x) {
      if x != r { assert CountOk(s, x); }
    }
    forall p | p in t.phase ensures ProcOk(t, p) { assert ProcOk(s, p); }
  }

  /** Steps that only move a process on in its life. */
  lemma PhaseKeeps(s: System, p: nat, ph: Phase, reaper: seq<nat>, current: nat)
    requires Inv(s) && p in s.phase && !ph.Reaped? && !s.phase[p].Reaped?
    requires Ended(ph) ==> Emptied(s.tables[p])
    requires forall q :: q in reaper <==> if q == p then ph.Queued? else q in s.reaper
    requires forall i, j | 0 <= i < j < |reaper| :: reaper[i] != reaper[j]
    requires current != 0 ==> if current == p then Runs(ph) else current in s.phase && Runs(s.phase[current])
    ensures Inv(s.(phase := s.phase[p := ph], reaper := reaper, current := current))
  {
    var t := s.(phase := s.phase[p := ph], reaper := reaper, current := current);
    forall q, i | q in t.tables && 0 <= i < |t.tables[q]| ensures SlotOk(t, q, i) { assert SlotOk(s, q, i); }
    forall r | r in t.count ensures CountOk(t, r) { assert CountOk(s, r); }
    forall q | q in t.phase ensures ProcOk(t, q) { assert ProcOk(s, q); }
    forall i | 0 <= i < |reaper| ensures reaper[i] in t.phase {
      assert reaper[i] in reaper;
    }
  }

  lemma DieKeeps(s: System)
    requires Inv(s) && Enabled(s, Die)
    ensures Inv(Next(s, Die))
  {
    assert ProcOk(s, s.current);
    PhaseKeeps(s, s.current, Queued(s.phase[s.current].code), s.reaper + [s.current], 0);
  }

  lemma UnqueueKeeps(s: System)
    requires Inv(s) && Enabled(s, Unqueue)
    ensures Inv(Next(s, Unqueue))
  {
    var p := s.reaper[0];
    assert ProcOk(s, p);
    forall q ensures q in s.reaper[1..] <==> q != p && q in s.reaper {
      if q in s.reaper && q != p { var i :| 0 <= i < |s.reaper| && s.reaper[i] == q; assert s.reaper[1..][i - 1] == q; }
    }
    PhaseKeeps(s, p, Taken(s.phase[p].code), s.reaper[1..], s.current);
  }

  /** Every step keeps the invariant. */
  lemma StepKeeps(s: System, step: Step)
    requires Inv(s) && Enabled(s, step)
    ensures Inv(Next(s, step))
  {
    match step
    case Construct(c) => ConstructKeeps(s, c);
    case Create(r, kind) => CreateKeeps(s, r, kind);
    case Share(c, i) => ShareKeeps(s, c, i);
    case Fill(i, r) => FillKeeps(s, s.current, i, r);
    case Start(c) => assert ProcOk(s, c); PhaseKeeps(s, c, Live, s.reaper, s.current);
    case Drop(i) => DropKeeps(s, s.current, i);
    case Exit(code) => assert ProcOk(s, s.current); PhaseKeeps(s, s.current, Exiting(code), s.reaper, s.current);
    case Signal => assert ProcOk(s, s.current); PhaseKeeps(s, s.current, Done(s.phase[s.current].code), s.reaper, s.current);
    case Die => DieKeeps(s);
    case Unqueue => UnqueueKeeps(s);
    case Reap(p) => ReapKeeps(s, p);
    case Join(i, code) => DropKeeps(s, s.current, i);
    case Switch(p) => assert ProcOk(s, p); PhaseKeeps(s, p, s.phase[p], s.reaper, p); assert s.phase[p := s.phase[p]] == s.phase;
  }

  lemma ShareKeeps(s: System, c: nat, i: nat)
    requires Inv(s) && Enabled(s, Share(c, i))
    ensures Inv(Next(s, Share(c, i)))
  {
    assert SlotOk(s, s.current, i) && ProcOk(s, c);
    FillKeeps(s, c, i, s.tables[s.current][i]);
  }

  // ------------------------------------------------------------------
  // Runs

  /** A machine with nothing in it; processes come from Construct steps. */
  function Booted(slots: nat): System {
    System(slots, map[], map[], map[], map[], [], 0)
  }

  lemma BootedInv(slots: nat)
    requires slots >= 2
    ensures Inv(Booted(slots))
  {
  }

  ghost predicate IsRun(states: seq<System>, steps: seq<Step>) {
    && |states| == |steps| + 1 && states[0].slots >= 2 && states[0] == Booted(states[0].slots)
    && forall k {:trigger StepAt(states, steps, k)} | 0 <= k < |steps| :: StepAt(states, steps, k)
  }

  ghost predicate StepAt(states: seq<System>, steps: seq<Step>, k: nat)
    requires k < |steps| < |states|
  {
    Enabled(states[k], steps[k]) && states[k + 1] == Next(states[k], steps[k])
  }

  lemma {:induction false} RunInv(states: seq<System>, steps: seq<Step>, k: nat)
    requires IsRun(states, steps) && k < |states|
    ensures Inv(states[k])
  {
    if k == 0 {
      BootedInv(states[0].slots);
    } else {
      RunInv(states, steps, k - 1);
      assert StepAt(states, steps, k - 1);
      StepKeeps(states[k - 1], steps[k - 1]);
    }
  }

  /** The object existed once and does not any more. */
  predicate Deleted(s: System, r: nat) {
    r in s.kinds && r !in s.count
  }

  /** A process exists exactly as long as it is not reaped or some slot names it; its count
      is one until it is reaped, plus the number of those slots. */
  lemma ProcessExists(s: System, p: nat)
    requires Inv(s) && p in s.phase
    ensures p in s.count <==> !s.phase[p].Reaped? || Named(s.tables, p) != {}
    ensures p in s.count ==> s.count[p] == (if s.phase[p].Reaped? then 0 else 1) + |Named(s.tables, p)|
  {
    assert ProcOk(s, p);
    if p in s.count {
      assert CountOk(s, p);
    } else {
      forall q, i | q in s.tables && 0 <= i < |s.tables[q]| ensures s.tables[q][i] != p { assert SlotOk(s, q, i); }
    }
  }

  /** A deleted process had exited, is not current, names nothing and is named by nothing. */
  lemma DeletedIsOver(s: System, p: nat)
    requires Inv(s) && p in s.phase && Deleted(s, p)
    ensures s.phase[p].Reaped? && s.current != p && Emptied(s.tables[p]) && Named(s.tables, p) == {}
  {
    assert ProcOk(s, p);
    ProcessExists(s, p);
  }

  /** What a step deletes is the object of one reference that it lets go. */
  lemma StepDeletes(s: System, step: Step, r: nat)
    requires Inv(s) && Enabled(s, step)
    ensures Deleted(s, r) ==> Deleted(Next(s, step), r)
    ensures !Deleted(s, r) && Deleted(Next(s, step), r) ==>
      && r in s.count && s.count[r] == 1
      && (step == Reap(r) || ((step.Drop? || step.Join?) && OwnSlot(s, step.i) && s.tables[s.current][step.i] == r))
  {
    if step.Drop? || step.Join? {
      assert SlotOk(s, s.current, step.i);
      NamedSome(s.tables, s.tables[s.current][step.i], s.current, step.i);
    }
    if step.Fill? { assert CountOk(s, step.r); }
    if r in s.count { assert CountOk(s, r); }
  }

  /** An object is deleted at most once in a run. */
  lemma {:induction false} DeletedForGood(states: seq<System>, steps: seq<Step>, k: nat, m: nat, r: nat)
    requires IsRun(states, steps) && k <= m < |states| && Deleted(states[k], r)
    ensures Deleted(states[m], r)
  {
    if k < m {
      DeletedForGood(states, steps, k, m - 1, r);
      RunInv(states, steps, m - 1);
      assert StepAt(states, steps, m - 1);
      StepDeletes(states[m - 1], steps[m - 1], r);
    }
  }

  /** The code in a process's record was stored by its own exit. */
  ghost predicate StoredBy(states: seq<System>, steps: seq<Step>, k: nat, q: nat, code: int) {
    exists j :: ExitAt(states, steps, k, j, q, code)
  }

  ghost predicate ExitAt(states: seq<System>, steps: seq<Step>, k: nat, j: nat, q: nat, code: int) {
    j < k && j < |steps| && j < |states| && steps[j] == Exit(code) && states[j].current == q
  }

  predicate HasCode(ph: Phase) {
    !ph.New? && !ph.Live?
  }

  lemma {:induction false} CodeIsStored(states: seq<System>, steps: seq<Step>, k: nat, q: nat)
    requires IsRun(states, steps) && k < |states| && q in states[k].phase && HasCode(states[k].phase[q])
    ensures StoredBy(states, steps, k, q, states[k].phase[q].code)
  {
    assert k > 0;
    var s, step := states[k - 1], steps[k - 1];
    assert StepAt(states, steps, k - 1);
    if q in s.phase && HasCode(s.phase[q]) {
      CodeIsStored(states, steps, k - 1, q);
      CodeStays(s, step, q);
      var j :| ExitAt(states, steps, k - 1, j, q, s.phase[q].code);
      assert ExitAt(states, steps, k, j, q, states[k].phase[q].code);
    } else {
      CodeComes(s, step, q);
      assert ExitAt(states, steps, k, k - 1, q, states[k].phase[q].code);
    }
  }

  lemma CodeStays(s: System, step: Step, q: nat)
    requires Enabled(s, step) && q in s.phase && HasCode(s.phase[q])
    requires step.Construct? ==> step.c != q
    ensures q in Next(s, step).phase && HasCode(Next(s, step).phase[q]) && Next(s, step).phase[q].code == s.phase[q].code
  {
  }

  lemma CodeComes(s: System, step: Step, q: nat)
    requires Enabled(s, step) && !(q in s.phase && HasCode(s.phase[q]))
    requires q in Next(s, step).phase && HasCode(Next(s, step).phase[q])
    ensures step.Exit? && s.current == q && Next(s, step).phase[q].code == step.code
  {
  }

  /** A join returns the code that the joined process gave to its exit; the process still
      exists at that moment. */
  lemma JoinReturnsExitCode(states: seq<System>, steps: seq<Step>, k: nat)
    requires IsRun(states, steps) && k < |steps| && steps[k].Join?
    ensures OwnSlot(states[k], steps[k].i)
    ensures var q := states[k].tables[states[k].current][steps[k].i];
      q in states[k].count && StoredBy(states, steps, k, q, steps[k].code)
  {
    assert StepAt(states, steps, k);
    RunInv(states, steps, k);
    var s := states[k];
    var q := s.tables[s.current][steps[k].i];
    assert SlotOk(s, s.current, steps[k].i) && ProcOk(s, q);
    CodeIsStored(states, steps, k, q);
  }
}
