/** The bounded buffer (kernel/bb.h) under any number of producers and consumers that
    interleave between any two actions, with semaphores that hand their unit directly to
    the first waiter (kernel/semaphore.cc). */
module BoundedBuffer {
  import opened Common
  import opened Semaphores

  /** Where a thread is in put(v) or get(): about to do what the name says, or waiting. */
  datatype Pc<T> =
    | PutEmpty(v: T) | PutEmptyWait(v: T) | PutLock(v: T) | PutLockWait(v: T)
    | PutStore(v: T) | PutAdvance(v: T) | PutWrap(v: T) | PutUnlock(v: T) | PutFull(v: T)
    | GetFull | GetFullWait | GetLock | GetLockWait
    | GetLoad | GetAdvance(v: T) | GetWrap(v: T) | GetUnlock(v: T) | GetEmpty(v: T)
    | PutDone | GetDone(v: T)

  /** `puts` and `gets` record the values in the order of the critical sections. */
  datatype State<T> = State(
    n: nat, arr: seq<T>, head: nat, tail: nat,
    nFull: Semaphore, nEmpty: Semaphore, mutex: Semaphore,
    pcs: map<Tid, Pc<T>>,
    puts: seq<T>, gets: seq<T>)

  // ------------------------------------------------------------------
  // Waiters

  /** Where a thread stands once the semaphore it waits for is its own. */
  function Granted<T>(pc: Pc<T>): Pc<T> {
    match pc
    case PutEmptyWait(v) => PutLock(v)
    case PutLockWait(v) => PutStore(v)
    case GetFullWait => GetLock
    case GetLockWait => GetLoad
    case _ => pc
  }

  /** Program counters after thread `t` has gone on to `pc` and released a waiter of `m`. */
  function AfterUp<T>(pcs: map<Tid, Pc<T>>, m: Semaphore, t: Tid, pc: Pc<T>): map<Tid, Pc<T>> {
    var moved := pcs[t := pc];
    if m.waiting == [] || m.waiting[0] !in moved then moved
    else moved[m.waiting[0] := Granted(moved[m.waiting[0]])]
  }

  // ------------------------------------------------------------------
  // Steps

  /** A thread calls put or get. */
  datatype Call<T> = CallPut(v: T) | CallGet

  predicate MayCall<T>(s: State<T>, t: Tid) {
    t in s.pcs ==> s.pcs[t].PutDone? || s.pcs[t].GetDone?
  }

  function Begin<T>(s: State<T>, t: Tid, c: Call<T>): State<T> {
    s.(pcs := s.pcs[t := match c case CallPut(v) => PutEmpty(v) case CallGet => GetFull])
  }

  predicate MayRun<T>(s: State<T>, t: Tid) {
    t in s.pcs && !Waits(s.pcs[t]) && !s.pcs[t].PutDone? && !s.pcs[t].GetDone?
  }

  predicate Waits<T>(pc: Pc<T>) {
    pc.PutEmptyWait? || pc.PutLockWait? || pc.GetFullWait? || pc.GetLockWait?
  }

  /** The next action of thread `t`. */
  function Run<T>(s: State<T>, t: Tid): State<T>
    requires MayRun(s, t)
  {
    match s.pcs[t]
    case PutEmpty(v) => s.(nEmpty := DownSem(s.nEmpty, t), pcs := s.pcs[t := if s.nEmpty.count == 0 then PutEmptyWait(v) else PutLock(v)])
    case PutLock(v) => s.(mutex := DownSem(s.mutex, t), pcs := s.pcs[t := if s.mutex.count == 0 then PutLockWait(v) else PutStore(v)])
    case PutStore(v) => s.(arr := if s.tail < |s.arr| then s.arr[s.tail := v] else s.arr, pcs := s.pcs[t := PutAdvance(v)])
    case PutAdvance(v) => s.(tail := s.tail + 1, pcs := s.pcs[t := PutWrap(v)])
    case PutWrap(v) => s.(tail := if s.tail == s.n then 0 else s.tail, puts := s.puts + [v], pcs := s.pcs[t := PutUnlock(v)])
    case PutUnlock(v) => s.(mutex := UpSem(s.mutex), pcs := AfterUp(s.pcs, s.mutex, t, PutFull(v)))
    case PutFull(v) => s.(nFull := UpSem(s.nFull), pcs := AfterUp(s.pcs, s.nFull, t, PutDone))
    case GetFull => s.(nFull := DownSem(s.nFull, t), pcs := s.pcs[t := if s.nFull.count == 0 then GetFullWait else GetLock])
    case GetLock => s.(mutex := DownSem(s.mutex, t), pcs := s.pcs[t := if s.mutex.count == 0 then GetLockWait else GetLoad])
    case GetLoad => if s.head < |s.arr| then s.(pcs := s.pcs[t := GetAdvance(s.arr[s.head])]) else s
    case GetAdvance(v) => s.(head := s.head + 1, pcs := s.pcs[t := GetWrap(v)])
    case GetWrap(v) => s.(head := if s.head == s.n then 0 else s.head, gets := s.gets + [v], pcs := s.pcs[t := GetUnlock(v)])
    case GetUnlock(v) => s.(mutex := UpSem(s.mutex), pcs := AfterUp(s.pcs, s.mutex, t, GetEmpty(v)))
    case GetEmpty(v) => s.(nEmpty := UpSem(s.nEmpty), pcs := AfterUp(s.pcs, s.nEmpty, t, GetDone(v)))
    case _ => s
  }

  /** BB(n), with whatever the new array holds. */
  function Initial<T>(arr: seq<T>): State<T> {
    State(|arr|, arr, 0, 0, Semaphore(0, []), Semaphore(|arr|, []), Semaphore(1, []), map[], [], [])
  }

  // ------------------------------------------------------------------
  // Counting threads

  datatype Class = Locked | HoldsEmpty | HoldsFull

  /** Whether a thread holds the mutex, or a unit of nEmpty or nFull: a slot it may fill, or
      has emptied and not yet announced; an item it may take, or has stored and not yet
      announced. */
  predicate InClass<T>(c: Class, pc: Pc<T>) {
    match c
    case Locked =>
      pc.PutStore? || pc.PutAdvance? || pc.PutWrap? || pc.PutUnlock? || pc.GetLoad? || pc.GetAdvance? || pc.GetWrap? || pc.GetUnlock?
    case HoldsEmpty =>
      pc.PutLock? || pc.PutLockWait? || pc.PutStore? || pc.PutAdvance? || pc.PutWrap? || pc.GetUnlock? || pc.GetEmpty?
    case HoldsFull =>
      pc.GetLock? || pc.GetLockWait? || pc.GetLoad? || pc.GetAdvance? || pc.GetWrap? || pc.PutUnlock? || pc.PutFull?
  }

  ghost function Members<T>(pcs: map<Tid, Pc<T>>, c: Class): set<Tid> {
    set t | t in pcs && InClass(c, pcs[t])
  }

  lemma CountMove<T>(pcs: map<Tid, Pc<T>>, c: Class, t: Tid, pc: Pc<T>)
    ensures |Members(pcs[t := pc], c)| == |Members(pcs, c)| - Bit(t in pcs && InClass(c, pcs[t])) + Bit(InClass(c, pc))
  {
    var a, b := Members(pcs, c), Members(pcs[t := pc], c);
    assert a - {t} == b - {t};
    SetMove(a, b, t);
  }

  lemma TwoMembers(a: set<Tid>, t: Tid, u: Tid)
    ensures t in a && u in a && t != u ==> |a| >= 2
  {
    if t in a && u in a && t != u {
      assert |a| == |a - {t}| + 1 && u in a - {t};
    }
  }

  // ------------------------------------------------------------------
  // The invariant

  datatype SemName = Full | Empty | Mutex

  predicate WaitsFor<T>(pc: Pc<T>, m: SemName) {
    match m
    case Full => pc.GetFullWait?
    case Empty => pc.PutEmptyWait?
    case Mutex => pc.PutLockWait? || pc.GetLockWait?
  }

  /** The waiters of a semaphore are the threads that wait for it, once each. */
  ghost predicate WaitersOk<T>(pcs: map<Tid, Pc<T>>, m: SemName, waiting: seq<Tid>) {
    && Distinct(waiting)
    && (forall i | 0 <= i < |waiting| :: waiting[i] in pcs && WaitsFor(pcs[waiting[i]], m))
    && (forall t | t in pcs && WaitsFor(pcs[t], m) :: t in waiting)
  }

  /** Units of each semaphore are neither made nor lost. */
  ghost predicate UnitsOk<T>(s: State<T>) {
    && s.mutex.count + |Members(s.pcs, Locked)| == 1
    && s.nEmpty.count + |Members(s.pcs, HoldsEmpty)| + |s.puts| - |s.gets| == s.n
    && s.nFull.count + |Members(s.pcs, HoldsFull)| == |s.puts| - |s.gets|
  }

  /** The slot of the `i`-th value put. */
  function Slot(i: nat, n: nat): nat {
    if n == 0 then 0 else i % n
  }

  /** The buffer holds the values put and not yet taken. */
  ghost predicate BufferOk<T>(s: State<T>) {
    && |s.arr| == s.n
    && s.gets <= s.puts
    && (forall i | |s.gets| <= i < |s.puts| :: Slot(i, s.n) < s.n && s.arr[Slot(i, s.n)] == s.puts[i])
  }

  /** The indices, as seen outside the critical section; inside it, the one thread there has
      got this far. */
  ghost predicate IndicesOk<T>(s: State<T>) {
    && ((forall t | t in s.pcs :: !s.pcs[t].PutWrap?) ==> s.tail == Slot(|s.puts|, s.n))
    && ((forall t | t in s.pcs :: !s.pcs[t].GetWrap?) ==> s.head == Slot(|s.gets|, s.n))
    && forall t {:trigger HolderOk(s, s.pcs[t])} | t in s.pcs :: HolderOk(s, s.pcs[t])
  }

  ghost predicate HolderOk<T>(s: State<T>, pc: Pc<T>) {
    match pc
    case PutAdvance(v) => s.tail < |s.arr| && s.arr[s.tail] == v
    case PutWrap(v) => s.tail == Slot(|s.puts|, s.n) + 1 && s.tail <= |s.arr| && s.arr[s.tail - 1] == v
    case GetAdvance(v) => s.head < |s.arr| && s.arr[s.head] == v
    case GetWrap(v) => s.head == Slot(|s.gets|, s.n) + 1 && s.head <= |s.arr| && s.arr[s.head - 1] == v
    case _ => true
  }

  ghost predicate Inv<T>(s: State<T>) {
    && WaitersOk(s.pcs, Full, s.nFull.waiting)
    && WaitersOk(s.pcs, Empty, s.nEmpty.waiting)
    && WaitersOk(s.pcs, Mutex, s.mutex.waiting)
    && UnitsOk(s) && BufferOk(s) && IndicesOk(s)
  }

  // ------------------------------------------------------------------
  // What an action keeps

  lemma WaitersMove<T>(pcs: map<Tid, Pc<T>>, m: SemName, w: seq<Tid>, t: Tid, pc: Pc<T>)
    requires WaitersOk(pcs, m, w) && !WaitsFor(pc, m) && (t in pcs ==> !WaitsFor(pcs[t], m))
    ensures WaitersOk(pcs[t := pc], m, w)
  {
  }

  lemma WaitersJoin<T>(pcs: map<Tid, Pc<T>>, m: SemName, w: seq<Tid>, t: Tid, pc: Pc<T>)
    requires WaitersOk(pcs, m, w) && WaitsFor(pc, m) && t in pcs && !WaitsFor(pcs[t], m)
    ensures WaitersOk(pcs[t := pc], m, w + [t])
  {
    var w' := w + [t];
    assert w'[|w|] == t;
    forall u | u in pcs[t := pc] && WaitsFor(pcs[t := pc][u], m) ensures u in w' {
      if u != t { assert u in w; }
    }
  }

  /** The first waiter is granted the semaphore. */
  lemma WaitersGrant<T>(pcs: map<Tid, Pc<T>>, m: SemName, w: seq<Tid>)
    requires WaitersOk(pcs, m, w) && w != []
    ensures w[0] in pcs && WaitersOk(pcs[w[0] := Granted(pcs[w[0]])], m, w[1..])
  {
    var q, u := pcs[w[0] := Granted(pcs[w[0]])], w[1..];
    assert forall i | 0 <= i < |u| :: u[i] == w[i + 1];
    forall t | t in q && WaitsFor(q[t], m) ensures t in u {
      assert t in w && t != w[0];
    }
  }

  /** Threads other than the one in the critical section are outside it. */
  lemma Alone<T>(s: State<T>, t: Tid, u: Tid)
    requires UnitsOk(s) && t in s.pcs && u in s.pcs && t != u && InClass(Locked, s.pcs[t])
    ensures !InClass(Locked, s.pcs[u])
  {
    TwoMembers(Members(s.pcs, Locked), t, u);
  }

  lemma Holds<T>(pcs: map<Tid, Pc<T>>, c: Class, t: Tid)
    requires t in pcs && InClass(c, pcs[t])
    ensures |Members(pcs, c)| >= 1
  {
    assert t in Members(pcs, c);
  }

  /** A producer about to store has a slot that holds no unread item. */
  lemma StoreIsSafe<T>(s: State<T>, t: Tid)
    requires Inv(s) && t in s.pcs && s.pcs[t].PutStore?
    ensures s.tail < |s.arr| && s.tail == Slot(|s.puts|, s.n) && |s.puts| - |s.gets| < s.n
    ensures forall i | |s.gets| <= i < |s.puts| :: Slot(i, s.n) != s.tail
  {
    Holds(s.pcs, HoldsEmpty, t);
    forall u | u in s.pcs ensures !s.pcs[u].PutWrap? { if u != t { Alone(s, t, u); } }
    forall i | |s.gets| <= i < |s.puts| ensures Slot(i, s.n) != s.tail {
      SlotsDiffer(i, |s.puts|, s.n);
    }
  }

  lemma SlotsDiffer(i: nat, j: nat, n: nat)
    requires i < j < i + n
    ensures i % n != j % n
  {
    var d := j / n - i / n;
    MulSign(n, d);
    assert j - i == n * d + (j % n - i % n);
  }

  /** A consumer about to load finds the oldest value not yet taken. */
  lemma LoadIsSafe<T>(s: State<T>, t: Tid)
    requires Inv(s) && t in s.pcs && s.pcs[t].GetLoad?
    ensures |s.gets| < |s.puts| && s.head == Slot(|s.gets|, s.n) && s.head < |s.arr| && s.arr[s.head] == s.puts[|s.gets|]
  {
    Holds(s.pcs, HoldsFull, t);
    forall u | u in s.pcs ensures !s.pcs[u].GetWrap? { if u != t { Alone(s, t, u); } }
  }

  predicate Quiet<T>(pc: Pc<T>) {
    !pc.PutAdvance? && !pc.PutWrap? && !pc.GetAdvance? && !pc.GetWrap?
  }

  ghost predicate SameBuffer<T>(s: State<T>, r: State<T>) {
    r.n == s.n && r.arr == s.arr && r.head == s.head && r.tail == s.tail && r.puts == s.puts && r.gets == s.gets
  }

  /** Moves between places outside the middle of the critical section. */
  lemma QuietMoves<T>(s: State<T>, r: State<T>)
    requires BufferOk(s) && IndicesOk(s) && SameBuffer(s, r)
    requires forall t | t in r.pcs :: (t in s.pcs && r.pcs[t] == s.pcs[t]) || Quiet(r.pcs[t])
    requires forall t | t in s.pcs && !Quiet(s.pcs[t]) :: t in r.pcs && r.pcs[t] == s.pcs[t]
    ensures BufferOk(r) && IndicesOk(r)
  {
    forall t | t in r.pcs ensures HolderOk(r, r.pcs[t]) {
      if t in s.pcs && r.pcs[t] == s.pcs[t] { assert HolderOk(s, s.pcs[t]); }
    }
  }

  lemma BeginKeeps<T>(s: State<T>, t: Tid, c: Call<T>)
    requires Inv(s) && MayCall(s, t)
    ensures Inv(Begin(s, t, c))
  {
    var r := Begin(s, t, c);
    var pc := r.pcs[t];
    WaitersMove(s.pcs, Full, s.nFull.waiting, t, pc);
    WaitersMove(s.pcs, Empty, s.nEmpty.waiting, t, pc);
    WaitersMove(s.pcs, Mutex, s.mutex.waiting, t, pc);
    BeginUnits(s, r, t, pc);
    QuietMoves(s, r);
  }

  lemma BeginUnits<T>(s: State<T>, r: State<T>, t: Tid, pc: Pc<T>)
    requires UnitsOk(s) && MayCall(s, t) && (pc.PutEmpty? || pc.GetFull?)
    requires SameBuffer(s, r) && r.pcs == s.pcs[t := pc] && r.mutex == s.mutex && r.nEmpty == s.nEmpty && r.nFull == s.nFull
    ensures UnitsOk(r)
  {
    CountMove(s.pcs, Locked, t, pc);
    CountMove(s.pcs, HoldsEmpty, t, pc);
    CountMove(s.pcs, HoldsFull, t, pc);
  }

  /** Waiters after a down: the caller waits if and only if its new place says so. */
  lemma DownWaiters<T>(pcs: map<Tid, Pc<T>>, m: SemName, sem: Semaphore, t: Tid, pc: Pc<T>)
    requires WaitersOk(pcs, m, sem.waiting) && t in pcs && !Waits(pcs[t]) && (WaitsFor(pc, m) <==> sem.count == 0)
    ensures WaitersOk(pcs[t := pc], m, DownSem(sem, t).waiting)
  {
    if sem.count == 0 { WaitersJoin(pcs, m, sem.waiting, t, pc); } else { WaitersMove(pcs, m, sem.waiting, t, pc); }
  }

  lemma CountMoves<T>(pcs: map<Tid, Pc<T>>, t: Tid, pc: Pc<T>)
    requires t in pcs
    ensures |Members(pcs[t := pc], Locked)| == |Members(pcs, Locked)| - Bit(InClass(Locked, pcs[t])) + Bit(InClass(Locked, pc))
    ensures |Members(pcs[t := pc], HoldsEmpty)| == |Members(pcs, HoldsEmpty)| - Bit(InClass(HoldsEmpty, pcs[t])) + Bit(InClass(HoldsEmpty, pc))
    ensures |Members(pcs[t := pc], HoldsFull)| == |Members(pcs, HoldsFull)| - Bit(InClass(HoldsFull, pcs[t])) + Bit(InClass(HoldsFull, pc))
  {
    CountMove(pcs, Locked, t, pc);
    CountMove(pcs, HoldsEmpty, t, pc);
    CountMove(pcs, HoldsFull, t, pc);
  }

  /** Thread `t` is about to do a down of `m` and then to be at `pc`. */
  predicate DownOf<T>(s: State<T>, t: Tid, m: SemName, sem: Semaphore, pc: Pc<T>)
    requires t in s.pcs
  {
    match m
    case Full => sem == s.nFull && s.pcs[t].GetFull? && (if sem.count == 0 then pc.GetFullWait? else pc.GetLock?)
    case Empty => sem == s.nEmpty && s.pcs[t].PutEmpty? && (if sem.count == 0 then pc.PutEmptyWait? else pc.PutLock?)
    case Mutex =>
      && sem == s.mutex
      && ((s.pcs[t].PutLock? && (if sem.count == 0 then pc.PutLockWait? else pc.PutStore?))
          || (s.pcs[t].GetLock? && (if sem.count == 0 then pc.GetLockWait? else pc.GetLoad?)))
  }

  /** Units after a down. */
  lemma DownUnits<T>(s: State<T>, r: State<T>, t: Tid, m: SemName, sem: Semaphore, pc: Pc<T>)
    requires UnitsOk(s) && t in s.pcs && DownOf(s, t, m, sem, pc)
    requires SameBuffer(s, r) && r.pcs == s.pcs[t := pc]
    requires r.mutex.count == s.mutex.count - Bit(m == Mutex && sem.count > 0)
    requires r.nEmpty.count == s.nEmpty.count - Bit(m == Empty && sem.count > 0)
    requires r.nFull.count == s.nFull.count - Bit(m == Full && sem.count > 0)
    ensures UnitsOk(r)
  {
    CountMoves(s.pcs, t, pc);
  }

  lemma DownWaits<T>(s: State<T>, r: State<T>, t: Tid, m: SemName, sem: Semaphore, pc: Pc<T>)
    requires Inv(s) && MayRun(s, t) && DownOf(s, t, m, sem, pc) && r.pcs == s.pcs[t := pc]
    requires r.mutex == (if m == Mutex then DownSem(s.mutex, t) else s.mutex)
    requires r.nEmpty == (if m == Empty then DownSem(s.nEmpty, t) else s.nEmpty)
    requires r.nFull == (if m == Full then DownSem(s.nFull, t) else s.nFull)
    ensures WaitersOk(r.pcs, Full, r.nFull.waiting) && WaitersOk(r.pcs, Empty, r.nEmpty.waiting) && WaitersOk(r.pcs, Mutex, r.mutex.waiting)
  {
    if m == Full { DownWaiters(s.pcs, Full, s.nFull, t, pc); } else { WaitersMove(s.pcs, Full, s.nFull.waiting, t, pc); }
    if m == Empty { DownWaiters(s.pcs, Empty, s.nEmpty, t, pc); } else { WaitersMove(s.pcs, Empty, s.nEmpty.waiting, t, pc); }
    if m == Mutex { DownWaiters(s.pcs, Mutex, s.mutex, t, pc); } else { WaitersMove(s.pcs, Mutex, s.mutex.waiting, t, pc); }
  }

  lemma DownRest<T>(s: State<T>, r: State<T>, t: Tid, m: SemName, sem: Semaphore, pc: Pc<T>)
    requires UnitsOk(s) && BufferOk(s) && IndicesOk(s) && MayRun(s, t) && DownOf(s, t, m, sem, pc)
    requires SameBuffer(s, r) && r.pcs == s.pcs[t := pc]
    requires r.mutex == (if m == Mutex then DownSem(s.mutex, t) else s.mutex)
    requires r.nEmpty == (if m == Empty then DownSem(s.nEmpty, t) else s.nEmpty)
    requires r.nFull == (if m == Full then DownSem(s.nFull, t) else s.nFull)
    ensures UnitsOk(r) && BufferOk(r) && IndicesOk(r)
  {
    DownUnits(s, r, t, m, sem, pc);
    QuietMoves(s, r);
  }

  lemma DownKeeps<T>(s: State<T>, r: State<T>, t: Tid, m: SemName, sem: Semaphore, pc: Pc<T>)
    requires Inv(s) && MayRun(s, t) && DownOf(s, t, m, sem, pc)
    requires SameBuffer(s, r) && r.pcs == s.pcs[t := pc]
    requires r.mutex == (if m == Mutex then DownSem(s.mutex, t) else s.mutex)
    requires r.nEmpty == (if m == Empty then DownSem(s.nEmpty, t) else s.nEmpty)
    requires r.nFull == (if m == Full then DownSem(s.nFull, t) else s.nFull)
    ensures Inv(r)
  {
    DownWaits(s, r, t, m, sem, pc);
    DownRest(s, r, t, m, sem, pc);
  }

  /** Waiters after an up of semaphore `m`: those of `m` lose their first, all others stay. */
  lemma UpWaiters<T>(pcs: map<Tid, Pc<T>>, m: SemName, sem: Semaphore, t: Tid, pc: Pc<T>, k: SemName, w: seq<Tid>)
    requires WaitersOk(pcs, m, sem.waiting) && WaitersOk(pcs, k, w) && t in pcs && !Waits(pcs[t]) && !Waits(pc)
    requires k == m ==> w == sem.waiting
    ensures WaitersOk(AfterUp(pcs, sem, t, pc), k, if k == m then UpSem(sem).waiting else w)
  {
    WaitersMove(pcs, m, sem.waiting, t, pc);
    WaitersMove(pcs, k, w, t, pc);
    if sem.waiting != [] {
      var moved, u := pcs[t := pc], sem.waiting[0];
      if k == m { WaitersGrant(moved, m, sem.waiting); } else { WaitersMove(moved, k, w, u, Granted(moved[u])); }
    }
  }

  /** Class sizes after an up. */
  lemma UpCounts<T>(pcs: map<Tid, Pc<T>>, m: SemName, sem: Semaphore, t: Tid, pc: Pc<T>, c: Class)
    requires WaitersOk(pcs, m, sem.waiting) && t in pcs && !Waits(pcs[t])
    ensures sem.waiting == [] ==>
      |Members(AfterUp(pcs, sem, t, pc), c)| == |Members(pcs, c)| - Bit(InClass(c, pcs[t])) + Bit(InClass(c, pc))
    ensures sem.waiting != [] ==>
      var u := sem.waiting[0];
      && u in pcs && u != t
      && |Members(AfterUp(pcs, sem, t, pc), c)| == |Members(pcs, c)| - Bit(InClass(c, pcs[t])) + Bit(InClass(c, pc))
                                                   - Bit(InClass(c, pcs[u])) + Bit(InClass(c, Granted(pcs[u])))
  {
    CountMove(pcs, c, t, pc);
    if sem.waiting != [] {
      var u := sem.waiting[0];
      CountMove(pcs[t := pc], c, u, Granted(pcs[u]));
    }
  }

  lemma UpMovesQuietly<T>(s: State<T>, r: State<T>, m: SemName, sem: Semaphore, t: Tid, pc: Pc<T>)
    requires BufferOk(s) && IndicesOk(s) && SameBuffer(s, r) && WaitersOk(s.pcs, m, sem.waiting)
    requires t in s.pcs && !Waits(s.pcs[t]) && Quiet(s.pcs[t]) && Quiet(pc) && r.pcs == AfterUp(s.pcs, sem, t, pc)
    ensures BufferOk(r) && IndicesOk(r)
  {
    QuietMoves(s, r);
  }

  /** Units after an up. */
  lemma UpUnits<T>(s: State<T>, r: State<T>, t: Tid, m: SemName, sem: Semaphore, pc: Pc<T>)
    requires UnitsOk(s) && t in s.pcs && !Waits(s.pcs[t]) && WaitersOk(s.pcs, m, sem.waiting) && UpOf(s, t, m, sem, pc)
    requires SameBuffer(s, r) && r.pcs == AfterUp(s.pcs, sem, t, pc)
    requires r.mutex.count == s.mutex.count + Bit(m == Mutex && sem.waiting == [])
    requires r.nEmpty.count == s.nEmpty.count + Bit(m == Empty && sem.waiting == [])
    requires r.nFull.count == s.nFull.count + Bit(m == Full && sem.waiting == [])
    ensures UnitsOk(r)
  {
    UpDelta(s, t, m, sem, pc, Locked);
    UpDelta(s, t, m, sem, pc, HoldsEmpty);
    UpDelta(s, t, m, sem, pc, HoldsFull);
  }

  /** An up takes its unit from the caller, and gives it to the semaphore or to a waiter. */
  lemma UpDelta<T>(s: State<T>, t: Tid, m: SemName, sem: Semaphore, pc: Pc<T>, c: Class)
    requires t in s.pcs && !Waits(s.pcs[t]) && WaitersOk(s.pcs, m, sem.waiting) && UpOf(s, t, m, sem, pc)
    ensures |Members(AfterUp(s.pcs, sem, t, pc), c)| == |Members(s.pcs, c)| - Bit(ClassOf(m) == c && sem.waiting == [])
  {
    UpCounts(s.pcs, m, sem, t, pc, c);
  }

  function ClassOf(m: SemName): Class {
    match m case Full => HoldsFull case Empty => HoldsEmpty case Mutex => Locked
  }

  /** Thread `t` is about to do an up of `m` and then to go on to `pc`. */
  predicate UpOf<T>(s: State<T>, t: Tid, m: SemName, sem: Semaphore, pc: Pc<T>)
    requires t in s.pcs
  {
    match m
    case Full => sem == s.nFull && s.pcs[t].PutFull? && pc.PutDone?
    case Empty => sem == s.nEmpty && s.pcs[t].GetEmpty? && pc.GetDone?
    case Mutex => sem == s.mutex && ((s.pcs[t].PutUnlock? && pc.PutFull?) || (s.pcs[t].GetUnlock? && pc.GetEmpty?))
  }

  lemma UpKeeps<T>(s: State<T>, r: State<T>, t: Tid, m: SemName, sem: Semaphore, pc: Pc<T>)
    requires Inv(s) && MayRun(s, t) && UpOf(s, t, m, sem, pc)
    requires SameBuffer(s, r) && r.pcs == AfterUp(s.pcs, sem, t, pc)
    requires r.mutex == (if m == Mutex then UpSem(s.mutex) else s.mutex)
    requires r.nEmpty == (if m == Empty then UpSem(s.nEmpty) else s.nEmpty)
    requires r.nFull == (if m == Full then UpSem(s.nFull) else s.nFull)
    ensures Inv(r)
  {
    UpWaiters(s.pcs, m, sem, t, pc, Full, s.nFull.waiting);
    UpWaiters(s.pcs, m, sem, t, pc, Empty, s.nEmpty.waiting);
    UpWaiters(s.pcs, m, sem, t, pc, Mutex, s.mutex.waiting);
    UpUnits(s, r, t, m, sem, pc);
    UpMovesQuietly(s, r, m, sem, t, pc);
  }

  // ------------------------------------------------------------------
  // Inside the critical section

  lemma WaitersStay<T>(s: State<T>, t: Tid, pc: Pc<T>)
    requires WaitersOk(s.pcs, Full, s.nFull.waiting) && WaitersOk(s.pcs, Empty, s.nEmpty.waiting) && WaitersOk(s.pcs, Mutex, s.mutex.waiting)
    requires t in s.pcs && !Waits(s.pcs[t]) && !Waits(pc)
    ensures WaitersOk(s.pcs[t := pc], Full, s.nFull.waiting)
    ensures WaitersOk(s.pcs[t := pc], Empty, s.nEmpty.waiting)
    ensures WaitersOk(s.pcs[t := pc], Mutex, s.mutex.waiting)
  {
    WaitersMove(s.pcs, Full, s.nFull.waiting, t, pc);
    WaitersMove(s.pcs, Empty, s.nEmpty.waiting, t, pc);
    WaitersMove(s.pcs, Mutex, s.mutex.waiting, t, pc);
  }

  /** A move inside the critical section that changes neither puts nor gets. */
  lemma InnerUnits<T>(s: State<T>, r: State<T>, t: Tid, pc: Pc<T>)
    requires UnitsOk(s) && t in s.pcs && r.pcs == s.pcs[t := pc]
    requires forall c :: InClass(c, s.pcs[t]) == InClass(c, pc)
    requires r.mutex == s.mutex && r.nEmpty == s.nEmpty && r.nFull == s.nFull && r.n == s.n && r.puts == s.puts && r.gets == s.gets
    ensures UnitsOk(r)
  {
    CountMoves(s.pcs, t, pc);
  }

  lemma InnerKeeps<T>(s: State<T>, r: State<T>, t: Tid, pc: Pc<T>)
    requires WaitersOk(s.pcs, Full, s.nFull.waiting) && WaitersOk(s.pcs, Empty, s.nEmpty.waiting) && WaitersOk(s.pcs, Mutex, s.mutex.waiting)
    requires UnitsOk(s) && t in s.pcs && r.pcs == s.pcs[t := pc] && !Waits(s.pcs[t]) && !Waits(pc)
    requires forall c :: InClass(c, s.pcs[t]) == InClass(c, pc)
    requires r.mutex == s.mutex && r.nEmpty == s.nEmpty && r.nFull == s.nFull && r.n == s.n && r.puts == s.puts && r.gets == s.gets
    requires BufferOk(r) && IndicesOk(r)
    ensures Inv(r)
  {
    WaitersStay(s, t, pc);
    InnerUnits(s, r, t, pc);
  }

  /** While `t` is inside, nobody else's place depends on buffer or indices. */
  lemma OthersQuiet<T>(s: State<T>, t: Tid)
    requires UnitsOk(s) && t in s.pcs && InClass(Locked, s.pcs[t])
    ensures forall u | u in s.pcs && u != t :: Quiet(s.pcs[u])
  {
    forall u | u in s.pcs && u != t ensures Quiet(s.pcs[u]) {
      Alone(s, t, u);
    }
  }

  lemma PutStoreBuffer<T>(s: State<T>, r: State<T>, t: Tid)
    requires BufferOk(s) && IndicesOk(s) && t in s.pcs && s.pcs[t].PutStore? && (forall u | u in s.pcs && u != t :: Quiet(s.pcs[u]))
    requires s.tail < |s.arr| && forall i | |s.gets| <= i < |s.puts| :: Slot(i, s.n) != s.tail
    requires r == s.(arr := if s.tail < |s.arr| then s.arr[s.tail := s.pcs[t].v] else s.arr, pcs := s.pcs[t := PutAdvance(s.pcs[t].v)])
    ensures BufferOk(r) && IndicesOk(r)
  {
    forall u | u in s.pcs ensures !s.pcs[u].GetWrap? && !s.pcs[u].PutWrap? { }
  }

  lemma PutStoreBufferKept<T>(s: State<T>, r: State<T>, t: Tid)
    requires Inv(s) && MayRun(s, t) && s.pcs[t].PutStore?
    requires r == s.(arr := if s.tail < |s.arr| then s.arr[s.tail := s.pcs[t].v] else s.arr, pcs := s.pcs[t := PutAdvance(s.pcs[t].v)])
    ensures BufferOk(r) && IndicesOk(r)
  {
    StoreIsSafe(s, t);
    OthersQuiet(s, t);
    PutStoreBuffer(s, r, t);
  }

  lemma PutStoreKeeps<T>(s: State<T>, r: State<T>, t: Tid)
    requires Inv(s) && MayRun(s, t) && s.pcs[t].PutStore?
    requires r == s.(arr := if s.tail < |s.arr| then s.arr[s.tail := s.pcs[t].v] else s.arr, pcs := s.pcs[t := PutAdvance(s.pcs[t].v)])
    ensures Inv(r)
  {
    PutStoreBufferKept(s, r, t);
    InnerKeeps(s, r, t, PutAdvance(s.pcs[t].v));
  }

  lemma PutAdvanceBuffer<T>(s: State<T>, r: State<T>, t: Tid)
    requires BufferOk(s) && IndicesOk(s) && t in s.pcs && s.pcs[t].PutAdvance? && (forall u | u in s.pcs && u != t :: Quiet(s.pcs[u]))
    requires r == s.(tail := s.tail + 1, pcs := s.pcs[t := PutWrap(s.pcs[t].v)])
    ensures BufferOk(r) && IndicesOk(r)
  {
    assert HolderOk(s, s.pcs[t]);
    forall u | u in s.pcs ensures !s.pcs[u].GetWrap? && !s.pcs[u].PutWrap? { }
    assert r.pcs[t].PutWrap?;
  }

  lemma PutAdvanceBufferKept<T>(s: State<T>, r: State<T>, t: Tid)
    requires Inv(s) && MayRun(s, t) && s.pcs[t].PutAdvance?
    requires r == s.(tail := s.tail + 1, pcs := s.pcs[t := PutWrap(s.pcs[t].v)])
    ensures BufferOk(r) && IndicesOk(r)
  {
    OthersQuiet(s, t);
    PutAdvanceBuffer(s, r, t);
  }

  lemma PutAdvanceKeeps<T>(s: State<T>, r: State<T>, t: Tid)
    requires Inv(s) && MayRun(s, t) && s.pcs[t].PutAdvance?
    requires r == s.(tail := s.tail + 1, pcs := s.pcs[t := PutWrap(s.pcs[t].v)])
    ensures Inv(r)
  {
    PutAdvanceBufferKept(s, r, t);
    InnerKeeps(s, r, t, PutWrap(s.pcs[t].v));
  }

  lemma SlotNext(i: nat, n: nat)
    requires Slot(i, n) + 1 <= n
    ensures Slot(i + 1, n) == if Slot(i, n) + 1 == n then 0 else Slot(i, n) + 1
  {
    var x := if i % n + 1 == n then 0 else i % n + 1;
    var d := (i + 1) / n - i / n - (if i % n + 1 == n then 1 else 0);
    MulSign(n, d);
    MulSign(n, -d);
    assert n * d == x - (i + 1) % n;
  }

  lemma PutWrapUnits<T>(s: State<T>, r: State<T>, t: Tid)
    requires UnitsOk(s) && t in s.pcs && s.pcs[t].PutWrap? && r.pcs == s.pcs[t := PutUnlock(s.pcs[t].v)]
    requires r.mutex == s.mutex && r.nEmpty == s.nEmpty && r.nFull == s.nFull && r.n == s.n
    requires r.puts == s.puts + [s.pcs[t].v] && r.gets == s.gets
    ensures UnitsOk(r)
  {
    CountMoves(s.pcs, t, PutUnlock(s.pcs[t].v));
  }

  lemma PutWrapBuffer<T>(s: State<T>, r: State<T>, t: Tid)
    requires BufferOk(s) && IndicesOk(s) && t in s.pcs && s.pcs[t].PutWrap? && (forall u | u in s.pcs && u != t :: Quiet(s.pcs[u]))
    requires r == s.(tail := if s.tail == s.n then 0 else s.tail, puts := s.puts + [s.pcs[t].v], pcs := s.pcs[t := PutUnlock(s.pcs[t].v)])
    ensures BufferOk(r) && IndicesOk(r)
  {
    assert HolderOk(s, s.pcs[t]);
    SlotNext(|s.puts|, s.n);
    forall u | u in r.pcs ensures Quiet(r.pcs[u]) { }
    assert forall u | u in s.pcs :: !s.pcs[u].GetWrap?;
  }

  lemma PutWrapKeeps<T>(s: State<T>, r: State<T>, t: Tid)
    requires Inv(s) && MayRun(s, t) && s.pcs[t].PutWrap?
    requires r == s.(tail := if s.tail == s.n then 0 else s.tail, puts := s.puts + [s.pcs[t].v], pcs := s.pcs[t := PutUnlock(s.pcs[t].v)])
    ensures Inv(r)
  {
    OthersQuiet(s, t);
    PutWrapBuffer(s, r, t);
    WaitersStay(s, t, PutUnlock(s.pcs[t].v));
    PutWrapUnits(s, r, t);
  }

  lemma GetLoadBuffer<T>(s: State<T>, r: State<T>, t: Tid)
    requires BufferOk(s) && IndicesOk(s) && t in s.pcs && s.pcs[t].GetLoad? && (forall u | u in s.pcs && u != t :: Quiet(s.pcs[u]))
    requires s.head < |s.arr|
    requires r == if s.head < |s.arr| then s.(pcs := s.pcs[t := GetAdvance(s.arr[s.head])]) else s
    ensures BufferOk(r) && IndicesOk(r)
  {
    forall u | u in s.pcs ensures !s.pcs[u].GetWrap? && !s.pcs[u].PutWrap? { }
  }

  lemma GetLoadBufferKept<T>(s: State<T>, r: State<T>, t: Tid)
    requires Inv(s) && MayRun(s, t) && s.pcs[t].GetLoad?
    requires r == if s.head < |s.arr| then s.(pcs := s.pcs[t := GetAdvance(s.arr[s.head])]) else s
    ensures s.head < |s.arr| && r == s.(pcs := s.pcs[t := GetAdvance(s.arr[s.head])]) && BufferOk(r) && IndicesOk(r)
  {
    LoadIsSafe(s, t);
    OthersQuiet(s, t);
    GetLoadBuffer(s, r, t);
  }

  lemma GetLoadKeeps<T>(s: State<T>, r: State<T>, t: Tid)
    requires Inv(s) && MayRun(s, t) && s.pcs[t].GetLoad?
    requires r == if s.head < |s.arr| then s.(pcs := s.pcs[t := GetAdvance(s.arr[s.head])]) else s
    ensures Inv(r)
  {
    GetLoadBufferKept(s, r, t);
    InnerKeeps(s, r, t, GetAdvance(s.arr[s.head]));
  }

  lemma GetAdvanceBuffer<T>(s: State<T>, r: State<T>, t: Tid)
    requires BufferOk(s) && IndicesOk(s) && t in s.pcs && s.pcs[t].GetAdvance? && (forall u | u in s.pcs && u != t :: Quiet(s.pcs[u]))
    requires r == s.(head := s.head + 1, pcs := s.pcs[t := GetWrap(s.pcs[t].v)])
    ensures BufferOk(r) && IndicesOk(r)
  {
    assert HolderOk(s, s.pcs[t]);
    forall u | u in s.pcs ensures !s.pcs[u].GetWrap? && !s.pcs[u].PutWrap? { }
    assert r.pcs[t].GetWrap?;
  }

  lemma GetAdvanceBufferKept<T>(s: State<T>, r: State<T>, t: Tid)
    requires Inv(s) && MayRun(s, t) && s.pcs[t].GetAdvance?
    requires r == s.(head := s.head + 1, pcs := s.pcs[t := GetWrap(s.pcs[t].v)])
    ensures BufferOk(r) && IndicesOk(r)
  {
    OthersQuiet(s, t);
    GetAdvanceBuffer(s, r, t);
  }

  lemma GetAdvanceKeeps<T>(s: State<T>, r: State<T>, t: Tid)
    requires Inv(s) && MayRun(s, t) && s.pcs[t].GetAdvance?
    requires r == s.(head := s.head + 1, pcs := s.pcs[t := GetWrap(s.pcs[t].v)])
    ensures Inv(r)
  {
    GetAdvanceBufferKept(s, r, t);
    InnerKeeps(s, r, t, GetWrap(s.pcs[t].v));
  }

  lemma GetWrapUnits<T>(s: State<T>, r: State<T>, t: Tid)
    requires UnitsOk(s) && t in s.pcs && s.pcs[t].GetWrap? && r.pcs == s.pcs[t := GetUnlock(s.pcs[t].v)]
    requires r.mutex == s.mutex && r.nEmpty == s.nEmpty && r.nFull == s.nFull && r.n == s.n
    requires r.puts == s.puts && r.gets == s.gets + [s.pcs[t].v]
    ensures UnitsOk(r)
  {
    CountMoves(s.pcs, t, GetUnlock(s.pcs[t].v));
  }

  lemma GetWrapBuffer<T>(s: State<T>, r: State<T>, t: Tid)
    requires BufferOk(s) && IndicesOk(s) && t in s.pcs && s.pcs[t].GetWrap? && (forall u | u in s.pcs && u != t :: Quiet(s.pcs[u]))
    requires |s.gets| < |s.puts|
    requires r == s.(head := if s.head == s.n then 0 else s.head, gets := s.gets + [s.pcs[t].v], pcs := s.pcs[t := GetUnlock(s.pcs[t].v)])
    ensures BufferOk(r) && IndicesOk(r)
  {
    assert HolderOk(s, s.pcs[t]);
    SlotNext(|s.gets|, s.n);
    assert s.puts[|s.gets|] == s.pcs[t].v;
    forall u | u in r.pcs ensures Quiet(r.pcs[u]) { }
    assert forall u | u in s.pcs :: !s.pcs[u].PutWrap?;
  }

  lemma GetWrapKeeps<T>(s: State<T>, r: State<T>, t: Tid)
    requires Inv(s) && MayRun(s, t) && s.pcs[t].GetWrap?
    requires r == s.(head := if s.head == s.n then 0 else s.head, gets := s.gets + [s.pcs[t].v], pcs := s.pcs[t := GetUnlock(s.pcs[t].v)])
    ensures Inv(r)
  {
    Holds(s.pcs, HoldsFull, t);
    OthersQuiet(s, t);
    GetWrapBuffer(s, r, t);
    WaitersStay(s, t, GetUnlock(s.pcs[t].v));
    GetWrapUnits(s, r, t);
  }

  /** Every action of every thread keeps the invariant. */
  lemma RunKeeps<T>(s: State<T>, t: Tid)
    requires Inv(s) && MayRun(s, t)
    ensures Inv(Run(s, t)) && Run(s, t).n == s.n
  {
    if InGet(s.pcs[t]) {
      RunGetKeeps(s, t);
    } else {
      RunPutKeeps(s, t);
    }
  }

  predicate InGet<T>(pc: Pc<T>) {
    pc.GetFull? || pc.GetLock? || pc.GetLoad? || pc.GetAdvance? || pc.GetWrap? || pc.GetUnlock? || pc.GetEmpty?
  }

  lemma RunPutKeeps<T>(s: State<T>, t: Tid)
    requires Inv(s) && MayRun(s, t) && !InGet(s.pcs[t])
    ensures Inv(Run(s, t)) && Run(s, t).n == s.n
  {
    var r := Run(s, t);
    match s.pcs[t] {
      case PutEmpty(v) => DownKeeps(s, r, t, Empty, s.nEmpty, r.pcs[t]);
      case PutLock(v) => DownKeeps(s, r, t, Mutex, s.mutex, r.pcs[t]);
      case PutStore(v) => PutStoreKeeps(s, r, t);
      case PutAdvance(v) => PutAdvanceKeeps(s, r, t);
      case PutWrap(v) => PutWrapKeeps(s, r, t);
      case PutUnlock(v) => UpKeeps(s, r, t, Mutex, s.mutex, PutFull(v));
      case PutFull(v) => UpKeeps(s, r, t, Full, s.nFull, PutDone);
    }
  }

  lemma RunGetKeeps<T>(s: State<T>, t: Tid)
    requires Inv(s) && MayRun(s, t) && InGet(s.pcs[t])
    ensures Inv(Run(s, t)) && Run(s, t).n == s.n
  {
    var r := Run(s, t);
    match s.pcs[t] {
      case GetFull => DownKeeps(s, r, t, Full, s.nFull, r.pcs[t]);
      case GetLock => DownKeeps(s, r, t, Mutex, s.mutex, r.pcs[t]);
      case GetLoad => GetLoadKeeps(s, r, t);
      case GetAdvance(v) => GetAdvanceKeeps(s, r, t);
      case GetWrap(v) => GetWrapKeeps(s, r, t);
      case GetUnlock(v) => UpKeeps(s, r, t, Mutex, s.mutex, GetEmpty(v));
      case GetEmpty(v) => UpKeeps(s, r, t, Empty, s.nEmpty, GetDone(v));
    }
  }

  lemma InitialInv<T>(arr: seq<T>)
    ensures Inv(Initial(arr))
  {
    var s := Initial(arr);
    assert Members(s.pcs, Locked) == {} && Members(s.pcs, HoldsEmpty) == {} && Members(s.pcs, HoldsFull) == {};
    if |arr| > 0 { assert 0 % |arr| == 0; }
  }

  // ------------------------------------------------------------------
  // Runs

  /** One state follows another by a call or an action of some thread. */
  ghost predicate Follows<T(!new)>(s: State<T>, r: State<T>) {
    (exists t, c :: Calls(s, t, c, r)) || (exists t :: Runs(s, t, r))
  }

  ghost predicate Calls<T(!new)>(s: State<T>, t: Tid, c: Call<T>, r: State<T>) {
    MayCall(s, t) && r == Begin(s, t, c)
  }

  ghost predicate Runs<T(!new)>(s: State<T>, t: Tid, r: State<T>) {
    MayRun(s, t) && r == Run(s, t)
  }

  lemma FollowsKeeps<T(!new)>(s: State<T>, r: State<T>)
    requires Inv(s) && Follows(s, r)
    ensures Inv(r) && r.n == s.n
  {
    if t, c :| Calls(s, t, c, r) {
      BeginKeeps(s, t, c);
    } else {
      var t :| Runs(s, t, r);
      RunKeeps(s, t);
    }
  }

  ghost predicate IsRun<T(!new)>(states: seq<State<T>>, arr: seq<T>) {
    && |states| > 0 && states[0] == Initial(arr)
    && forall i | 0 <= i < |states| - 1 :: Follows(states[i], states[i + 1])
  }

  lemma {:induction false} RunKeepsInv<T(!new)>(states: seq<State<T>>, arr: seq<T>, k: nat)
    requires IsRun(states, arr) && k < |states|
    ensures Inv(states[k]) && states[k].n == |arr|
  {
    if k == 0 {
      InitialInv(arr);
    } else {
      RunKeepsInv(states, arr, k - 1);
      FollowsKeeps(states[k - 1], states[k]);
    }
  }

  /** In every reachable state the values taken are a prefix of the values put, and the
      values in between sit unharmed in the buffer, in order. */
  lemma TakenInOrder<T(!new)>(states: seq<State<T>>, arr: seq<T>, k: nat)
    requires IsRun(states, arr) && k < |states|
    ensures var s := states[k];
      && s.gets <= s.puts && |s.puts| - |s.gets| <= |arr| && |s.arr| == |arr|
      && forall i | |s.gets| <= i < |s.puts| :: Slot(i, |arr|) < |arr| && s.arr[Slot(i, |arr|)] == s.puts[i]
  {
    RunKeepsInv(states, arr, k);
  }
}
