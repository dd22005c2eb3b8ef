/** Resource tables (kernel/table.cc): slots filled and cleared in place, with the reference
    counts of what they name. */
module ResourceTables {
  import opened Refcounts

  const ERR_INVALID_ID := -1002
  const ERR_NO_ID := -1003
  const ERR_NOT_DIR := -1007
  const ERR_CLOSE_WD := -1013

  /** `m` references fewer; what has none left is deleted. */
  ghost function Minus(count: map<nat, nat>, m: multiset<nat>): map<nat, nat> {
    map r | r in count && (m[r] == 0 || m[r] < count[r]) :: count[r] - m[r]
  }

  ghost function Plus(count: map<nat, nat>, m: multiset<nat>): map<nat, nat> {
    map r | r in count :: count[r] + m[r]
  }

  /** Every slot holds a reference of its own. */
  ghost predicate Covers(count: map<nat, nat>, t: seq<nat>) {
    0 !in count && forall r | r in t && r != 0 :: r in count && multiset(t)[r] <= count[r]
  }

  lemma MinusOne(count: map<nat, nat>, m: multiset<nat>, r: nat)
    requires 0 !in count && (r != 0 ==> r in count && m[r] < count[r])
    ensures Unref(Minus(count, m), r) == Minus(count, m + multiset{r})
  {
    var a, b := Unref(Minus(count, m), r), Minus(count, m + multiset{r});
    forall x ensures x in a <==> x in b { }
    forall x | x in a ensures a[x] == b[x] { }
  }

  lemma PlusOne(count: map<nat, nat>, m: multiset<nat>, r: nat)
    ensures Ref(Plus(count, m), r) == Plus(count, m + multiset{r})
  {
  }

  lemma PrefixStep(t: seq<nat>, from: nat, i: nat)
    requires from <= i < |t|
    ensures multiset(t[from..i + 1]) == multiset(t[from..i]) + multiset{t[i]}
    ensures multiset(t[from..i])[t[i]] < multiset(t)[t[i]]
  {
    assert t[from..i + 1] == t[from..i] + [t[i]];
    assert t == t[..from] + (t[from..i] + ([t[i]] + t[i + 1..]));
  }

  /** Slots `from..i` unreferenced one after the other. */
  ghost function UnrefSlots(count: map<nat, nat>, t: seq<nat>, from: nat, i: nat): map<nat, nat>
    requires from <= i <= |t|
  {
    if i == from then count else Unref(UnrefSlots(count, t, from, i - 1), t[i - 1])
  }

  lemma CoversAt(count: map<nat, nat>, t: seq<nat>, i: nat)
    requires Covers(count, t) && i < |t|
    ensures 0 !in count && (t[i] != 0 ==> t[i] in count && multiset(t)[t[i]] <= count[t[i]])
  {
    assert t[i] in t;
  }

  /** Slot `i` still has a reference when those before it have been let go. */
  lemma SlotFree(count: map<nat, nat>, t: seq<nat>, from: nat, i: nat)
    requires from <= i < |t| && Covers(count, t)
    ensures 0 !in count && (t[i] != 0 ==> t[i] in count && multiset(t[from..i])[t[i]] < count[t[i]])
  {
    PrefixStep(t, from, i);
    CoversAt(count, t, i);
  }

  lemma MinusNone(count: map<nat, nat>, t: seq<nat>, from: nat)
    requires from <= |t|
    ensures Minus(count, multiset(t[from..from])) == count
  {
    assert t[from..from] == [];
  }

  lemma MinusSlot(count: map<nat, nat>, t: seq<nat>, from: nat, i: nat, u: map<nat, nat>)
    requires from <= i < |t| && Covers(count, t) && u == Minus(count, multiset(t[from..i]))
    ensures Unref(u, t[i]) == Minus(count, multiset(t[from..i + 1]))
  {
    SlotFree(count, t, from, i);
    PrefixStep(t, from, i);
    MinusOne(count, multiset(t[from..i]), t[i]);
  }

  lemma {:induction false} UnrefSlotsMinus(count: map<nat, nat>, t: seq<nat>, from: nat, i: nat)
    requires from <= i <= |t| && Covers(count, t)
    ensures UnrefSlots(count, t, from, i) == Minus(count, multiset(t[from..i]))
  {
    if i == from {
      MinusNone(count, t, from);
    } else {
      var j := i - 1;
      UnrefSlotsMinus(count, t, from, j);
      MinusSlot(count, t, from, j, UnrefSlots(count, t, from, j));
      assert j + 1 == i;
    }
  }

  ghost function RefSlots(count: map<nat, nat>, t: seq<nat>, i: nat): map<nat, nat>
    requires i <= |t|
  {
    if i == 0 then count else Ref(RefSlots(count, t, i - 1), t[i - 1])
  }

  lemma {:induction false} RefSlotsPlus(count: map<nat, nat>, t: seq<nat>, i: nat)
    requires i <= |t|
    ensures RefSlots(count, t, i) == Plus(count, multiset(t[..i]))
  {
    if i == 0 {
      assert t[..i] == [];
    } else {
      RefSlotsPlus(count, t, i - 1);
      assert t[..i] == t[..i - 1] + [t[i - 1]];
      PlusOne(count, multiset(t[..i - 1]), t[i - 1]);
    }
  }

  lemma {:induction false} RefSlotsKeys(count: map<nat, nat>, t: seq<nat>, i: nat)
    requires i <= |t|
    ensures RefSlots(count, t, i).Keys == count.Keys
  {
    if i > 0 { RefSlotsKeys(count, t, i - 1); }
  }

  /** The slots of a child: processes are not inherited. */
  ghost function Inherited(t: seq<nat>, procs: set<nat>): (c: seq<nat>)
    ensures |c| == |t| && forall i | 0 <= i < |t| :: c[i] == if t[i] in procs then 0 else t[i]
  {
    seq(|t|, i requires 0 <= i < |t| => if t[i] in procs then 0 else t[i])
  }

  // ------------------------------------------------------------------
  // What the operations keep

  lemma PutCount(t: seq<nat>, i: nat, v: nat, r: nat)
    requires i < |t|
    ensures multiset(t[i := v])[r] == multiset(t)[r] - (if t[i] == r then 1 else 0) + (if v == r then 1 else 0)
  {
    assert t == t[..i] + ([t[i]] + t[i + 1..]);
    assert t[i := v] == t[..i] + ([v] + t[i + 1..]);
  }

  lemma OpenCovers(count: map<nat, nat>, t: seq<nat>, i: nat, p: nat)
    requires Covers(count, t) && i < |t| && t[i] == 0 && p in count
    ensures Covers(Ref(count, p), t[i := p])
  {
    var u := t[i := p];
    forall r | r in u && r != 0 ensures r in Ref(count, p) && multiset(u)[r] <= Ref(count, p)[r] {
      PutCount(t, i, p, r);
      assert r in t || r == p;
      assert r !in t ==> multiset(t)[r] == 0;
    }
  }

  lemma CloseCovers(count: map<nat, nat>, t: seq<nat>, i: nat)
    requires Covers(count, t) && i < |t|
    ensures Covers(Unref(count, t[i]), t[i := 0])
  {
    var u, x := t[i := 0], t[i];
    assert x in t;
    forall r | r in u && r != 0 ensures r in Unref(count, x) && multiset(u)[r] <= Unref(count, x)[r] {
      PutCount(t, i, 0, r);
      assert r in t && multiset(u)[r] > 0;
    }
  }

  lemma ReplaceCovers(count: map<nat, nat>, t: seq<nat>, p: nat)
    requires Covers(count, t) && |t| > 1 && p in count && (p == t[1] ==> count[p] > 1)
    ensures Covers(Ref(Unref(count, t[1]), p), t[1 := p])
  {
    CloseCovers(count, t, 1);
    OpenCovers(Unref(count, t[1]), t[1 := 0], 1, p);
    assert t[1 := 0][1 := p] == t[1 := p];
  }

  lemma CloseFromCovers(count: map<nat, nat>, t: seq<nat>, from: nat)
    requires Covers(count, t) && from <= |t|
    ensures Covers(Minus(count, multiset(t[from..])), t[..from] + NoSlots(|t| - from))
  {
    var u, c := t[..from] + NoSlots(|t| - from), Minus(count, multiset(t[from..]));
    assert t == t[..from] + t[from..];
    forall r | r in u && r != 0 ensures r in c && multiset(u)[r] <= c[r] {
      NoneOf(NoSlots(|t| - from), r);
      assert r in t[..from] && r in t && multiset(t[..from])[r] > 0;
    }
  }

  lemma NoneOf(z: seq<nat>, r: nat)
    requires r !in z
    ensures multiset(z)[r] == 0
  {
  }

  lemma ForkCovers(count: map<nat, nat>, t: seq<nat>, procs: set<nat>)
    requires Covers(count, t)
    ensures Covers(Plus(count, multiset(Inherited(t, procs))), t) && Covers(Plus(count, multiset(Inherited(t, procs))), Inherited(t, procs))
  {
    var h := Inherited(t, procs);
    forall r | r in h && r != 0 ensures r in count {
      var i :| 0 <= i < |h| && h[i] == r;
      assert t[i] == r;
    }
  }

  /** Reference counts of the objects that exist. */
  class Counts {
    var count: map<nat, nat>

    method Ref(r: nat)
      modifies this
      ensures count == Refcounts.Ref(old(count), r)
    {
      if r in count { count := count[r := count[r] + 1]; }
    }

    method Unref(r: nat)
      modifies this
      ensures count == Refcounts.Unref(old(count), r)
    {
      if r in count {
        var was := count[r];
        if was <= 1 { count := count - {r}; } else { count := count[r := was - 1]; }
      }
    }
  }

  class Table {
    const slots: array<nat>
    const counts: Counts

    ghost predicate Valid()
      reads slots, counts
    {
      slots.Length >= 2 && Covers(counts.count, slots[..])
    }

    constructor (n: nat, c: Counts)
      requires n >= 2 && 0 !in c.count
      ensures Valid() && fresh(slots) && counts == c && slots[..] == NoSlots(n)
    {
      slots := new nat[n](_ => 0);
      counts := c;
    }

    /** Put a reference to `p` into the first empty slot from 2 on. */
    method Open(p: nat) returns (i: int)
      requires Valid() && p in counts.count
      modifies slots, counts
      ensures Valid()
      ensures i == ERR_NO_ID || 2 <= i < slots.Length
      ensures i == ERR_NO_ID <==> forall j | 2 <= j < slots.Length :: old(slots[j]) != 0
      ensures i == ERR_NO_ID ==> slots[..] == old(slots[..]) && counts.count == old(counts.count)
      ensures 2 <= i < slots.Length ==>
        && old(slots[i]) == 0 && (forall j | 2 <= j < i :: old(slots[j]) != 0)
        && slots[..] == old(slots[..])[i := p] && counts.count == Refcounts.Ref(old(counts.count), p)
    {
      i := 2;
      while i < slots.Length
        invariant 2 <= i <= slots.Length
        invariant forall j | 2 <= j < i :: slots[j] != 0
        invariant slots[..] == old(slots[..]) && counts.count == old(counts.count)
      {
        if slots[i] == 0 {
          OpenCovers(counts.count, slots[..], i, p);
          counts.Ref(p);
          slots[i] := p;
          return;
        }
        i := i + 1;
      }
      i := ERR_NO_ID;
    }

    method Close(i: int) returns (r: int)
      requires Valid()
      modifies slots, counts
      ensures Valid()
      ensures i < 0 || i >= slots.Length ==> r == ERR_INVALID_ID
      ensures i == 1 ==> r == ERR_CLOSE_WD
      ensures i < 0 || i >= slots.Length || i == 1 ==> slots[..] == old(slots[..]) && counts.count == old(counts.count)
      ensures 0 <= i < slots.Length && i != 1 ==>
        && r == (if old(slots[i]) == 0 then ERR_INVALID_ID else 0)
        && slots[..] == old(slots[..])[i := 0] && counts.count == Refcounts.Unref(old(counts.count), old(slots[i]))
    {
      if i < 0 || i >= slots.Length { return ERR_INVALID_ID; }
      if i == 1 { return ERR_CLOSE_WD; }
      var was := slots[i];
      CloseCovers(counts.count, slots[..], i);
      counts.Unref(was);
      slots[i] := 0;
      r := if was == 0 then ERR_INVALID_ID else 0;
    }

    /** The loop that unreferences and clears slots `from` to the end. */
    method ClearSlots(from: nat)
      requires from <= slots.Length
      modifies slots, counts
      ensures forall j | 0 <= j < slots.Length :: slots[j] == if from <= j then 0 else old(slots[j])
      ensures counts.count == UnrefSlots(old(counts.count), old(slots[..]), from, slots.Length)
    {
      ghost var t, c := slots[..], counts.count;
      for i := from to slots.Length
        invariant forall j | 0 <= j < slots.Length :: slots[j] == if from <= j < i then 0 else t[j]
        invariant counts.count == UnrefSlots(c, t, from, i)
      {
        counts.Unref(slots[i]);
        slots[i] := 0;
      }
    }

    /** Close slots `from` to the end. */
    method CloseFrom(from: nat)
      requires Valid() && from <= slots.Length
      modifies slots, counts
      ensures Valid()
      ensures slots[..] == old(slots[..])[..from] + NoSlots(slots.Length - from)
      ensures counts.count == Minus(old(counts.count), multiset(old(slots[..])[from..]))
    {
      ghost var t, c := slots[..], counts.count;
      ClearSlots(from);
      UnrefSlotsMinus(c, t, from, |t|);
      assert t[from..|t|] == t[from..];
      CloseFromCovers(c, t, from);
      assert slots[..] == t[..from] + NoSlots(slots.Length - from);
    }

    /** Replace the working directory.  The one installed already is asked for only while
        somebody else holds it too, since it is let go before it is taken again. */
    method AddWorkingDir(p: nat, kind: Kind) returns (r: int)
      requires Valid() && p in counts.count && (p == slots[1] ==> counts.count[p] > 1)
      modifies slots, counts
      ensures Valid()
      ensures r == if kind == Directory then 0 else ERR_NOT_DIR
      ensures r != 0 ==> slots[..] == old(slots[..]) && counts.count == old(counts.count)
      ensures r == 0 ==>
        && slots[..] == old(slots[..])[1 := p]
        && counts.count == Refcounts.Ref(Refcounts.Unref(old(counts.count), old(slots[1])), p)
    {
      if kind != Directory { return ERR_NOT_DIR; }
      ReplaceCovers(counts.count, slots[..], p);
      if slots[1] != 0 { counts.Unref(slots[1]); }
      counts.Ref(p);
      slots[1] := p;
      r := 0;
    }

    /** Let the working directory go; the slot is not empty. */
    method CloseWorkingDir(kind: Kind) returns (r: int)
      requires Valid() && slots[1] != 0
      modifies slots, counts
      ensures Valid()
      ensures r == if kind == Directory then 0 else ERR_NOT_DIR
      ensures r != 0 ==> slots[..] == old(slots[..]) && counts.count == old(counts.count)
      ensures r == 0 ==> slots[..] == old(slots[..])[1 := 0] && counts.count == Refcounts.Unref(old(counts.count), old(slots[1]))
    {
      if kind != Directory { return ERR_NOT_DIR; }
      CloseCovers(counts.count, slots[..], 1);
      counts.Unref(slots[1]);
      slots[1] := 0;
      r := 0;
    }

    /** closeAll keeps slot 1, the working directory. */
    method CloseAll()
      requires Valid()
      modifies slots, counts
      ensures Valid()
      ensures slots[..] == old(slots[..])[..2] + NoSlots(slots.Length - 2)
      ensures counts.count == Minus(old(counts.count), multiset(old(slots[..])[2..]))
    {
      CloseFrom(2);
    }

    /** A table for a child process, with a reference more to each resource it inherits. */
    method ForkMe(procs: set<nat>) returns (child: Table)
      requires Valid()
      modifies counts
      ensures Valid() && child.Valid()
      ensures slots[..] == old(slots[..]) && fresh(child.slots) && child.counts == counts
      ensures child.slots[..] == Inherited(slots[..], procs)
      ensures counts.count == Plus(old(counts.count), multiset(Inherited(slots[..], procs)))
    {
      ghost var c, inherited := counts.count, Inherited(slots[..], procs);
      child := new Table(slots.Length, counts);
      CopyTo(child.slots, procs);
      RefSlotsPlus(c, inherited, |inherited|);
      ForkCovers(c, slots[..], procs);
      assert inherited[..|inherited|] == inherited;
    }

    method CopyTo(dest: array<nat>, procs: set<nat>)
      requires Valid() && dest != slots && dest[..] == NoSlots(slots.Length)
      modifies dest, counts
      ensures dest[..] == Inherited(slots[..], procs)
      ensures counts.count == RefSlots(old(counts.count), Inherited(slots[..], procs), slots.Length)
    {
      ghost var c, inherited := counts.count, Inherited(slots[..], procs);
      assert forall j | 0 <= j < slots.Length :: dest[j] == dest[..][j] == 0;
      for i := 0 to slots.Length
        invariant forall j | 0 <= j < slots.Length :: dest[j] == if j < i then inherited[j] else 0
        invariant 0 !in counts.count && counts.count == RefSlots(c, inherited, i)
      {
        RefSlotsKeys(c, inherited, i);
        CopySlot(dest, i, procs);
      }
    }

    /** One slot of the child: a further reference unless it names a process. */
    method CopySlot(dest: array<nat>, i: nat, procs: set<nat>)
      requires i < slots.Length == dest.Length && dest != slots && dest[i] == 0 && 0 !in counts.count
      modifies dest, counts
      ensures var v := if slots[i] in procs then 0 else slots[i];
        dest[..] == old(dest[..])[i := v] && counts.count == Refcounts.Ref(old(counts.count), v)
    {
      if slots[i] != 0 && slots[i] !in procs {
        counts.Ref(slots[i]);
        dest[i] := slots[i];
      }
    }
  }

  // ------------------------------------------------------------------
  // Tables in the machine

  lemma {:induction false} OccursAtMost(tables: map<nat, seq<nat>>, q: nat, r: nat, i: nat, seen: set<(nat, nat)>)
    requires q in tables && i <= |tables[q]|
    requires seen == set j | 0 <= j < i && tables[q][j] == r :: (q, j)
    ensures multiset(tables[q][..i])[r] == |seen|
  {
    var t := tables[q];
    if i == 0 {
      assert seen == {} && t[..0] == [];
    } else {
      var before := set j | 0 <= j < i - 1 && t[j] == r :: (q, j);
      OccursAtMost(tables, q, r, i - 1, before);
      assert t[..i] == t[..i - 1] + [t[i - 1]];
      assert seen == before + if t[i - 1] == r then {(q, i - 1)} else {};
    }
  }

  lemma SubsetSize(a: set<(nat, nat)>, b: set<(nat, nat)>)
    requires a <= b
    ensures |a| <= |b|
  {
    assert b == a + (b - a);
  }

  /** In every state of a run, each table owns a reference per slot, as its operations need. */
  lemma InvCovers(s: System, q: nat)
    requires Inv(s) && q in s.tables
    ensures Covers(s.count, s.tables[q])
  {
    var t := s.tables[q];
    assert 0 in s.count ==> CountOk(s, 0);
    forall r | r in t && r != 0 ensures r in s.count && multiset(t)[r] <= s.count[r] {
      var i :| 0 <= i < |t| && t[i] == r;
      assert SlotOk(s, q, i) && CountOk(s, r);
      var seen := set j | 0 <= j < |t| && t[j] == r :: (q, j);
      OccursAtMost(s.tables, q, r, |t|, seen);
      assert t[..|t|] == t;
      SubsetSize(seen, Named(s.tables, r));
    }
  }

  /** Drop steps for slots `from..i` of the current process. */
  ghost function DropRange(s: System, from: nat, i: nat): System
    requires from <= i
  {
    if i == from then s
    else
      var m := DropRange(s, from, i - 1);
      if Enabled(m, Drop(i - 1)) then Next(m, Drop(i - 1)) else m
  }

  /** State `m` is `s` with slots `from..i` of the current process let go. */
  ghost predicate DroppedTo(s: System, m: System, t: seq<nat>, from: nat, i: nat)
    requires from <= i <= |t|
  {
    && Inv(m) && m.current == s.current && m.phase == s.phase && m.count == UnrefSlots(s.count, t, from, i)
    && s.current in m.tables && |m.tables[s.current]| == |t|
    && forall j | 0 <= j < |t| :: m.tables[s.current][j] == if from <= j < i then 0 else t[j]
  }

  lemma DropOne(s: System, m: System, t: seq<nat>, from: nat, i: nat)
    requires Acting(s) && !s.phase[s.current].Done? && 0 < from <= i < |t| && DroppedTo(s, m, t, from, i)
    ensures Enabled(m, Drop(i)) && DroppedTo(s, Next(m, Drop(i)), t, from, i + 1)
  {
    StepKeeps(m, Drop(i));
    var n := Next(m, Drop(i));
    assert n.count == Unref(m.count, t[i]) && n.tables[s.current] == m.tables[s.current][i := 0];
  }

  /** The loop of closeAll is a run of Drop steps of the machine. */
  lemma {:induction false} CloseAllIsDrops(s: System, from: nat, i: nat)
    requires Inv(s) && Acting(s) && !s.phase[s.current].Done? && 0 < from <= i <= |s.tables[s.current]|
    ensures DroppedTo(s, DropRange(s, from, i), s.tables[s.current], from, i)
  {
    if from < i {
      CloseAllIsDrops(s, from, i - 1);
      DropOne(s, DropRange(s, from, i - 1), s.tables[s.current], from, i - 1);
    }
  }
}
