/** The linked structures under the scheduler: the doubly linked queue (kernel/queue.h) and
    the sorted list of timers (kernel/process.cc). */
module LinkedLists {
  import Scheduler

  class Node<T> {
    var next: Node?<T>
    var prev: Node?<T>
    const value: T

    constructor (v: T)
      ensures value == v && next == null && prev == null
    {
      value := v;
      next, prev := null, null;
    }
  }

  /** A doubly linked queue that holds a sequence. */
  class SimpleQueue<T> {
    var first: Node?<T>
    var last: Node?<T>
    /** The nodes from first to last. */
    ghost var nodes: seq<Node<T>>

    ghost predicate Valid()
      reads this, nodes
    {
      && (forall i, j | 0 <= i < j < |nodes| :: nodes[i] != nodes[j])
      && first == (if nodes == [] then null else nodes[0])
      && last == (if nodes == [] then null else nodes[|nodes| - 1])
      && (forall i {:trigger LinkOk(i)} | 0 <= i < |nodes| :: LinkOk(i))
    }

    ghost predicate LinkOk(i: nat)
      requires i < |nodes|
      reads this, nodes
    {
      && nodes[i].next == (if i + 1 < |nodes| then nodes[i + 1] else null)
      && nodes[i].prev == (if i > 0 then nodes[i - 1] else null)
    }

    static ghost function ValuesOf(ns: seq<Node<T>>): seq<T> {
      seq(|ns|, i requires 0 <= i < |ns| => ns[i].value)
    }

    ghost function Contents(): seq<T>
      reads this
    {
      ValuesOf(nodes)
    }

    constructor ()
      ensures Valid() && Contents() == [] && nodes == []
    {
      first, last := null, null;
      nodes := [];
    }

    method AddTail(v: T)
      requires Valid()
      modifies this, nodes
      ensures Valid() && Contents() == old(Contents()) + [v]
      ensures |nodes| == |old(nodes)| + 1 && nodes[..|old(nodes)|] == old(nodes)
      ensures fresh(nodes[|old(nodes)|]) && nodes[|old(nodes)|].value == v
    {
      var n := new Node(v);
      ghost var old' := nodes;
      if nodes != [] { assert LinkOk(|nodes| - 1); }
      n.prev := last;
      if last != null {
        last.next := n;
      }
      last := n;
      if first == null {
        first := n;
      }
      nodes := nodes + [n];
      forall i | 0 <= i < |nodes| ensures LinkOk(i) {
        assert i < |old'| ==> nodes[i] == old'[i] && old(LinkOk(i));
      }
    }

    predicate IsEmpty()
      requires Valid()
      reads this, nodes
      ensures IsEmpty() <==> Contents() == []
      ensures IsEmpty() <==> nodes == []
    {
      first == null
    }

    method RemoveHead() returns (v: T)
      requires Valid() && nodes != []
      modifies this, nodes
      ensures Valid() && old(Contents()) == [v] + Contents()
      ensures nodes == old(nodes)[1..] && v == old(nodes)[0].value
    {
      var p := first;
      assert LinkOk(0);
      if |nodes| > 1 { assert LinkOk(1); }
      ghost var all, rest := nodes, nodes[1..];
      first := p.next;
      if first == null {
        last := null;
      } else {
        first.prev := null;
      }
      nodes := rest;
      forall i | 0 <= i < |nodes| ensures LinkOk(i) {
        assert nodes[i] == all[i + 1] && old(LinkOk(i + 1));
      }
      v := p.value;
    }
  }

  class Timer {
    const target: nat
    var next: Timer?

    constructor (t: nat)
      ensures target == t && next == null
    {
      target, next := t, null;
    }
  }

  class TimerList {
    var timers: Timer?
    ghost var nodes: seq<Timer>
    /** The timers that are or were in the list. */
    ghost var repr: set<Timer>

    ghost predicate Valid()
      reads this, repr
    {
      && (forall i | 0 <= i < |nodes| :: nodes[i] in repr)
      && (forall i, j | 0 <= i < j < |nodes| :: nodes[i] != nodes[j])
      && timers == (if nodes == [] then null else nodes[0])
      && (forall i {:trigger LinkOk(i)} | 0 <= i < |nodes| :: LinkOk(i))
    }

    ghost predicate LinkOk(i: nat)
      requires i < |nodes| && nodes[i] in repr
      reads this, repr
    {
      nodes[i].next == if i + 1 < |nodes| then nodes[i + 1] else null
    }

    static ghost function TargetsOf(ns: seq<Timer>): seq<nat> {
      seq(|ns|, i requires 0 <= i < |ns| => ns[i].target)
    }

    ghost function Targets(): seq<nat>
      reads this
    {
      TargetsOf(nodes)
    }

    constructor ()
      ensures Valid() && Targets() == [] && repr == {}
    {
      timers := null;
      nodes, repr := [], {};
    }

    /** Put timer `p` between `prev` and the rest. */
    method Splice(prev: Timer?, p: Timer, ghost k: nat)
      requires Valid() && k <= |nodes| && p !in repr
      requires prev == if k == 0 then null else nodes[k - 1]
      modifies this, repr, p
      ensures Valid() && Targets() == InsertAt(old(Targets()), k, p.target) && p in nodes
      ensures repr == old(repr) + {p}
    {
      ghost var all := nodes;
      if k > 0 { assert LinkOk(k - 1); }
      if prev == null {
        p.next := timers;
        timers := p;
      } else {
        p.next := prev.next;
        prev.next := p;
      }
      nodes := all[..k] + [p] + all[k..];
      repr := repr + {p};
      forall i | 0 <= i < |nodes| ensures LinkOk(i) {
        if i < k { assert nodes[i] == all[i] && old(LinkOk(i)); }
        if i > k { assert nodes[i] == all[i - 1] && old(LinkOk(i - 1)); }
      }
      assert nodes[k] == p;
    }

    /** Take the first timer off the list. */
    method DropFirst()
      requires Valid() && nodes != []
      modifies this
      ensures Valid() && repr == old(repr) && Targets() == old(Targets())[1..]
    {
      assert LinkOk(0);
      timers := timers.next;
      ghost var all := nodes;
      nodes := nodes[1..];
      forall i | 0 <= i < |nodes| ensures LinkOk(i) {
        assert nodes[i] == all[i + 1] && old(LinkOk(i + 1));
      }
    }

    /** The search and insertion of sleepUntil: the timer to wait on. */
    method TimerFor(target: nat) returns (p: Timer)
      requires Valid()
      modifies this, repr
      ensures Valid() && Targets() == Scheduler.InsertTimer(old(Targets()), target)
      ensures p in nodes && p.target == target
      ensures forall n | n in repr :: n in old(repr) || fresh(n)
    {
      var prev: Timer? := null;
      var q := timers;
      ghost var k := 0;
      while q != null && q.target < target
        invariant 0 <= k <= |nodes| && prev == (if k == 0 then null else nodes[k - 1])
        invariant q == if k < |nodes| then nodes[k] else null
        invariant forall i | 0 <= i < k :: nodes[i].target < target
        decreases |nodes| - k
      {
        assert LinkOk(k);
        prev := q;
        q := q.next;
        k := k + 1;
      }
      ghost var ns := nodes;
      if q != null && q.target == target {
        InsertWalk(TargetsOf(ns), k, target);
        p := q;
      } else {
        p := new Timer(target);
        Splice(prev, p, k);
        InsertWalk(TargetsOf(ns), k, target);
      }
    }
  }

  function InsertAt(ts: seq<nat>, k: nat, x: nat): seq<nat>
    requires k <= |ts|
  {
    ts[..k] + [x] + ts[k..]
  }

  lemma InsertAtTail(ts: seq<nat>, k: nat, x: nat)
    requires 0 < k <= |ts|
    ensures [ts[0]] + InsertAt(ts[1..], k - 1, x) == InsertAt(ts, k, x)
  {
    assert ts[1..][..k - 1] == ts[1..k] && ts[1..][k - 1..] == ts[k..];
  }

  /** Insertion happens behind the smaller targets. */
  lemma {:induction false} InsertWalk(ts: seq<nat>, k: nat, x: nat)
    requires k <= |ts| && (forall i | 0 <= i < k :: ts[i] < x) && (k < |ts| ==> ts[k] >= x)
    ensures Scheduler.InsertTimer(ts, x) == if k < |ts| && ts[k] == x then ts else InsertAt(ts, k, x)
  {
    if k == 0 {
      assert InsertAt(ts, 0, x) == [x] + ts;
    } else {
      InsertWalk(ts[1..], k - 1, x);
      InsertAtTail(ts, k, x);
      assert [ts[0]] + ts[1..] == ts;
    }
  }
}
