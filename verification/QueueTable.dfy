/** The scheduler's queues as linked lists: one for the ready processes, one for the reaper, one
    for each semaphore and each timer. */
module QueueTables {
  import opened Scheduler
  import opened LinkedLists

  type PidQueue = SimpleQueue<Pid>
  type Cell = Node<Pid>

  /** The nodes carry these values and belong to queue `q`. */
  ghost predicate Filled(q: QueueId, ps: seq<Pid>, ns: seq<Cell>, cells: map<Cell, QueueId>) {
    |ps| == |ns| && forall i | 0 <= i < |ns| :: ns[i] in cells && cells[ns[i]] == q && ns[i].value == ps[i]
  }

  /** A node of one queue is no node of any other. */
  lemma FilledApart(q: QueueId, ps: seq<Pid>, ns: seq<Cell>, r: QueueId, qs: seq<Pid>, ms: seq<Cell>, cells: map<Cell, QueueId>)
    requires q != r && Filled(q, ps, ns, cells) && Filled(r, qs, ms, cells)
    ensures forall i | 0 <= i < |ms| :: ms[i] !in ns
  {
  }

  lemma AppendFilled(q: QueueId, ps: seq<Pid>, ns: seq<Cell>, cells: map<Cell, QueueId>, p: Pid, n: Cell)
    requires Filled(q, ps, ns, cells) && n.value == p
    ensures Filled(q, ps + [p], ns + [n], cells[n := q])
  {
  }

  lemma RestFilled(q: QueueId, ps: seq<Pid>, ns: seq<Cell>, cells: map<Cell, QueueId>)
    requires Filled(q, ps, ns, cells) && ps != []
    ensures Filled(q, ps[1..], ns[1..], cells)
  {
  }

  class QueueTable {
    var queues: map<QueueId, PidQueue>
    /** What every queue holds, in which nodes. */
    ghost var held: map<QueueId, seq<Pid>>
    ghost var nodesOf: map<QueueId, seq<Cell>>
    /** Which queue every node and every queue object belongs to. */
    ghost var cells: map<Cell, QueueId>
    ghost var heads: map<PidQueue, QueueId>

    ghost predicate Valid()
      reads this, heads.Keys, cells.Keys
    {
      && held.Keys == queues.Keys
      && (forall q {:trigger Owned(q)} | q in queues :: Owned(q))
      && (forall q {:trigger Sound(q)} | q in queues :: Sound(q))
    }

    /** Nodes and head of queue `q` are its own. */
    ghost predicate Owned(q: QueueId)
      reads this
      requires q in queues
    {
      queues[q] in heads && heads[queues[q]] == q && q in nodesOf && q in held && Filled(q, held[q], nodesOf[q], cells)
    }

    ghost predicate Sound(q: QueueId)
      requires q in queues && Owned(q)
      reads this, heads.Keys, cells.Keys
    {
      queues[q].nodes == nodesOf[q] && queues[q].Valid()
    }

    constructor ()
      ensures Valid() && held == map[] && heads == map[] && cells == map[]
    {
      queues, held, nodesOf, heads, cells := map[], map[], map[], map[], map[];
    }

    /** A queue made when it is first used. */
    method Provide(q: QueueId)
      requires Valid() && q !in queues
      modifies this
      ensures Valid() && fresh(heads.Keys - old(heads).Keys) && cells == old(cells) && q in queues
      ensures held == old(held)[q := []]
    {
      var empty := new SimpleQueue<Pid>();
      forall r | r in queues ensures Sound(r) {
        assert Owned(r) && old(Sound(r));
      }
      Include(q, empty);
    }

    method Include(q: QueueId, empty: PidQueue)
      requires Valid() && q !in queues && empty !in heads && empty.Valid() && empty.nodes == []
      modifies this
      ensures Valid() && heads == old(heads)[empty := q] && cells == old(cells) && q in queues
      ensures held == old(held)[q := []]
    {
      IncludeMaps(q, empty);
      forall r | r in queues ensures Sound(r) {
        assert Owned(r);
        if r != q { assert old(Owned(r)) && old(Sound(r)); }
      }
    }

    method IncludeMaps(q: QueueId, empty: PidQueue)
      requires q !in queues && empty !in heads && (forall r {:trigger Owned(r)} | r in queues :: Owned(r))
      modifies this
      ensures queues == old(queues)[q := empty] && held == old(held)[q := []] && nodesOf == old(nodesOf)[q := []]
      ensures heads == old(heads)[empty := q] && cells == old(cells)
      ensures forall r {:trigger Owned(r)} | r in queues :: Owned(r)
    {
      queues, held, nodesOf, heads := queues[q := empty], held[q := []], nodesOf[q := []], heads[empty := q];
      forall r | r in queues ensures Owned(r) {
        if r != q { assert old(Owned(r)); }
      }
    }

    /** A node more behind one linked list; no other list is touched. */
    method LinkLast(q: QueueId, p: Pid) returns (ghost n: Cell)
      requires Valid() && q in queues
      modifies heads.Keys, cells.Keys
      ensures Owned(q) && queues[q].Valid() && queues[q].nodes == nodesOf[q] + [n] && n.value == p && fresh(n) && n !in cells
      ensures forall r | r in queues && r != q :: Sound(r)
    {
      assert Owned(q) && Sound(q);
      queues[q].AddTail(p);
      n := queues[q].nodes[|nodesOf[q]|];
      forall r | r in queues && r != q ensures Sound(r) {
        assert Owned(r) && old(Sound(r));
        var x := queues[r];
        FilledApart(q, held[q], nodesOf[q], r, held[r], nodesOf[r], cells);
        forall i | 0 <= i < |x.nodes| ensures x.nodes[i].next == old(x.nodes[i].next) && x.nodes[i].prev == old(x.nodes[i].prev) {
          assert x.nodes[i] !in old(queues[q].nodes);
        }
        forall i | 0 <= i < |x.nodes| ensures x.LinkOk(i) { assert old(x.LinkOk(i)); }
      }
    }

    /** The first node off one linked list; no other list is touched. */
    method UnlinkFirst(q: QueueId) returns (p: Pid)
      requires Valid() && q in queues && Owned(q) && held[q] != []
      modifies heads.Keys, cells.Keys
      ensures Owned(q) && queues[q].Valid() && queues[q].nodes == nodesOf[q][1..] && p == held[q][0]
      ensures forall r | r in queues && r != q :: Sound(r)
    {
      assert Owned(q) && Sound(q);
      p := queues[q].RemoveHead();
      forall r | r in queues && r != q ensures Sound(r) {
        assert Owned(r) && old(Sound(r));
        var x := queues[r];
        FilledApart(q, held[q], nodesOf[q], r, held[r], nodesOf[r], cells);
        forall i | 0 <= i < |x.nodes| ensures x.nodes[i].next == old(x.nodes[i].next) && x.nodes[i].prev == old(x.nodes[i].prev) {
          assert x.nodes[i] !in old(queues[q].nodes);
        }
        forall i | 0 <= i < |x.nodes| ensures x.LinkOk(i) { assert old(x.LinkOk(i)); }
      }
    }

    /** PidQueue `q` holds other values now, in other nodes. */
    ghost method Note(q: QueueId, ps: seq<Pid>, ns: seq<Cell>, cs: map<Cell, QueueId>)
      requires q in queues && (forall r {:trigger Owned(r)} | r in queues :: Owned(r))
      requires Filled(q, ps, ns, cs) && (forall c | c in cells :: c in cs && cs[c] == cells[c])
      requires held.Keys == queues.Keys && queues[q].nodes == ns && queues[q].Valid()
      requires forall r {:trigger Sound(r)} | r in queues && r != q :: Sound(r)
      modifies this`held, this`nodesOf, this`cells
      ensures held == old(held)[q := ps] && cells == cs && Valid()
    {
      NoteMaps(q, ps, ns, cs);
      forall r | r in queues ensures Sound(r) {
        assert Owned(r);
        if r != q { assert old(Owned(r)) && old(Sound(r)); }
      }
    }

    ghost method NoteMaps(q: QueueId, ps: seq<Pid>, ns: seq<Cell>, cs: map<Cell, QueueId>)
      requires q in queues && (forall r {:trigger Owned(r)} | r in queues :: Owned(r))
      requires Filled(q, ps, ns, cs) && (forall c | c in cells :: c in cs && cs[c] == cells[c])
      modifies this`held, this`nodesOf, this`cells
      ensures held == old(held)[q := ps] && nodesOf == old(nodesOf)[q := ns] && cells == cs
      ensures forall r {:trigger Owned(r)} | r in queues :: Owned(r)
    {
      assert Owned(q);
      held, nodesOf, cells := held[q := ps], nodesOf[q := ns], cs;
      forall r | r in queues ensures Owned(r) {
        assert old(Owned(r));
      }
    }

    /** A value put behind a queue that is there. */
    method Append(q: QueueId, p: Pid)
      requires Valid() && q in queues
      modifies this, heads.Keys, cells.Keys
      ensures Valid() && heads == old(heads) && fresh(cells.Keys - old(cells).Keys)
      ensures held == old(held)[q := old(held)[q] + [p]]
    {
      assert Owned(q);
      ghost var n := LinkLast(q, p);
      AppendFilled(q, held[q], nodesOf[q], cells, p, n);
      Note(q, held[q] + [p], nodesOf[q] + [n], cells[n := q]);
    }

    method RemoveHead(q: QueueId) returns (p: Pid)
      requires Valid() && q in queues && held[q] != []
      modifies this, heads.Keys, cells.Keys
      ensures Valid() && heads == old(heads) && cells == old(cells)
      ensures p == old(held)[q][0] && held == old(held)[q := old(held)[q][1..]]
    {
      assert Owned(q);
      p := UnlinkFirst(q);
      RestFilled(q, held[q], nodesOf[q], cells);
      Note(q, held[q][1..], nodesOf[q][1..], cells);
    }

    method AddTail(q: QueueId, p: Pid)
      requires Valid()
      modifies this, heads.Keys, cells.Keys
      ensures Valid() && fresh(heads.Keys - old(heads).Keys) && fresh(cells.Keys - old(cells).Keys)
      ensures held == old(held)[q := (if q in old(held) then old(held)[q] else []) + [p]]
    {
      if q !in queues { Provide(q); }
      Append(q, p);
    }

    predicate IsEmpty(q: QueueId)
      requires Valid()
      reads this, heads.Keys, cells.Keys
      ensures IsEmpty(q) <==> q !in held || held[q] == []
    {
      if q !in queues then true
      else
        assert Owned(q) && Sound(q);
        queues[q].IsEmpty()
    }
  }
}
