/** The event (kernel/semaphore.h) that a join waits on: wait is a down followed by an up, so
    that each thread let through lets the next one through. */
module Events {
  import opened Common
  import opened Semaphores
  import opened BoundedBuffer

  datatype Spot = Waiting | Passing | Out   // blocked in down; between down and up; returned

  /** `signals` counts the calls of signal. */
  datatype Event = Event(status: Semaphore, spots: map<Tid, Spot>, signals: nat)

  datatype Action = Wait(t: Tid) | Pass(t: Tid) | Signal

  predicate May(e: Event, a: Action) {
    match a
    case Wait(t) => t in e.spots ==> e.spots[t].Out?
    case Pass(t) => t in e.spots && e.spots[t].Passing?
    case Signal => true
  }

  /** The first waiter, if any, is let through. */
  function Freed(spots: map<Tid, Spot>, waiting: seq<Tid>): map<Tid, Spot> {
    if waiting == [] then spots else spots[waiting[0] := Passing]
  }

  function Act(e: Event, a: Action): Event
    requires May(e, a)
  {
    match a
    case Wait(t) => Event(DownSem(e.status, t), e.spots[t := if e.status.count == 0 then Waiting else Passing], e.signals)
    case Pass(t) => Event(UpSem(e.status), Freed(e.spots[t := Out], e.status.waiting), e.signals)
    case Signal => Event(UpSem(e.status), Freed(e.spots, e.status.waiting), e.signals + 1)
  }

  const FRESH := Event(Semaphore(0, []), map[], 0)

  ghost function At(spots: map<Tid, Spot>, spot: Spot): set<Tid> {
    set t | t in spots && spots[t] == spot
  }

  ghost predicate Queued(spots: map<Tid, Spot>, waiting: seq<Tid>) {
    && Distinct(waiting) && (forall i | 0 <= i < |waiting| :: waiting[i] in spots)
    && (forall t | t in spots :: spots[t].Waiting? <==> t in waiting)
  }

  /** Units are neither made nor lost: one per signal, in the semaphore or with a thread that
      has yet to pass it on. */
  ghost predicate Inv(e: Event) {
    && Queued(e.spots, e.status.waiting)
    && (e.status.count > 0 ==> e.status.waiting == [])
    && e.status.count + |At(e.spots, Passing)| == e.signals
    && (e.signals == 0 ==> At(e.spots, Out) == {})
  }

  lemma AtMove(spots: map<Tid, Spot>, t: Tid, spot: Spot, c: Spot)
    ensures |At(spots[t := spot], c)| == |At(spots, c)| - Bit(t in spots && spots[t] == c) + Bit(spot == c)
  {
    SetMove(At(spots, c), At(spots[t := spot], c), t);
  }

  lemma WaitKeeps(e: Event, t: Tid)
    requires Inv(e) && May(e, Wait(t))
    ensures Inv(Act(e, Wait(t)))
  {
    var f := Act(e, Wait(t));
    AtMove(e.spots, t, f.spots[t], Passing);
    assert t !in e.status.waiting;
    if e.signals == 0 { forall x | x in f.spots ensures !f.spots[x].Out? { assert x in e.spots ==> x !in At(e.spots, Out); } }
  }

  lemma FreeKeeps(spots: map<Tid, Spot>, waiting: seq<Tid>)
    requires Queued(spots, waiting)
    ensures Queued(Freed(spots, waiting), if waiting == [] then [] else waiting[1..])
    ensures |At(Freed(spots, waiting), Passing)| == |At(spots, Passing)| + Bit(waiting != [])
    ensures |At(Freed(spots, waiting), Waiting)| == |At(spots, Waiting)| - Bit(waiting != [])
    ensures At(Freed(spots, waiting), Out) == At(spots, Out)
  {
    if waiting != [] {
      var t := waiting[0];
      assert t in waiting;
      AtMove(spots, t, Passing, Passing);
      AtMove(spots, t, Passing, Waiting);
      forall x | x in spots && x != t ensures x in waiting <==> x in waiting[1..] {
        if x in waiting { var i :| 0 <= i < |waiting| && waiting[i] == x; assert waiting[1..][i - 1] == x; }
      }
    }
  }

  lemma PassKeeps(e: Event, t: Tid)
    requires Inv(e) && May(e, Pass(t))
    ensures Inv(Act(e, Pass(t)))
    ensures var f := Act(e, Pass(t));
      |At(f.spots, Waiting)| + |At(f.spots, Passing)| + 1 == |At(e.spots, Waiting)| + |At(e.spots, Passing)|
  {
    AtMove(e.spots, t, Out, Passing);
    AtMove(e.spots, t, Out, Waiting);
    FreeKeeps(e.spots[t := Out], e.status.waiting);
    assert t in At(e.spots, Passing);
  }

  lemma SignalKeeps(e: Event)
    requires Inv(e)
    ensures Inv(Act(e, Signal))
  {
    FreeKeeps(e.spots, e.status.waiting);
  }

  lemma ActKeeps(e: Event, a: Action)
    requires Inv(e) && May(e, a)
    ensures Inv(Act(e, a))
  {
    match a
    case Wait(t) => WaitKeeps(e, t);
    case Pass(t) => PassKeeps(e, t);
    case Signal => SignalKeeps(e);
  }

  ghost predicate IsRun(states: seq<Event>, actions: seq<Action>) {
    |states| == |actions| + 1 && forall i {:trigger ActsAt(states, actions, i)} | 0 <= i < |actions| :: ActsAt(states, actions, i)
  }

  predicate ActsAt(states: seq<Event>, actions: seq<Action>, i: nat)
    requires i < |actions| < |states|
  {
    May(states[i], actions[i]) && states[i + 1] == Act(states[i], actions[i])
  }

  lemma {:induction false} RunKeeps(states: seq<Event>, actions: seq<Action>, k: nat)
    requires IsRun(states, actions) && states[0] == FRESH && k < |states|
    ensures Inv(states[k])
  {
    if k == 0 {
      assert At(FRESH.spots, Passing) == {};
    } else {
      RunKeeps(states, actions, k - 1);
      assert ActsAt(states, actions, k - 1);
      ActKeeps(states[k - 1], actions[k - 1]);
    }
  }

  /** Nobody gets through before the signal. */
  lemma NobodyEarly(states: seq<Event>, actions: seq<Action>, k: nat, t: Tid)
    requires IsRun(states, actions) && states[0] == FRESH && k < |states| && t in states[k].spots
    ensures states[k].signals == 0 ==> states[k].spots[t].Waiting?
  {
    RunKeeps(states, actions, k);
    var e := states[k];
    if e.signals == 0 {
      assert At(e.spots, Passing) == {};
      assert t !in At(e.spots, Passing) && t !in At(e.spots, Out);
    }
  }

  /** The chain never breaks: after a signal, somebody waits only while somebody passes. */
  lemma ChainHolds(states: seq<Event>, actions: seq<Action>, k: nat)
    requires IsRun(states, actions) && states[0] == FRESH && k < |states|
    requires states[k].signals > 0 && At(states[k].spots, Passing) == {}
    ensures At(states[k].spots, Waiting) == {} && states[k].status.count > 0
  {
    RunKeeps(states, actions, k);
    var e := states[k];
    forall t | t in e.spots ensures !e.spots[t].Waiting? { assert t in e.status.waiting ==> e.status.waiting != []; }
  }

  /** Every pass brings one thread out for good: when all who can have passed, as many have
      as were waiting or passing. */
  lemma {:induction false} PassesDrain(states: seq<Event>, actions: seq<Action>, k: nat, m: nat)
    requires IsRun(states, actions) && states[0] == FRESH && k <= m < |states|
    requires forall i | k <= i < m :: actions[i].Pass?
    ensures |At(states[m].spots, Waiting)| + |At(states[m].spots, Passing)| + (m - k)
      == |At(states[k].spots, Waiting)| + |At(states[k].spots, Passing)|
    ensures states[m].signals == states[k].signals
  {
    if k < m {
      PassesDrain(states, actions, k, m - 1);
      RunKeeps(states, actions, m - 1);
      assert ActsAt(states, actions, m - 1);
      PassKeeps(states[m - 1], actions[m - 1].t);
    }
  }
}
