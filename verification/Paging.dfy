/** Physical frames, page directories and page tables as values, and the ownership
    invariant that every memory operation of kernel/vmm.cc keeps.  Frames are named by
    number; entry words have the 32-bit paging format of section 4.3 of the Intel 64 and
    IA-32 Architectures SDM, Vol. 3A: frame address in the upper 20 bits, flags below. */
module Paging {

  const WORDS := 1024
  /** First directory index of user addresses (0x80000000). */
  const USER := 512

  type Frame = seq<int>
  type Memory = seq<Frame>

  function ZeroFrame(): (z: Frame)
    ensures |z| == WORDS && forall i | 0 <= i < WORDS :: z[i] == 0
  {
    seq(WORDS, _ => 0)
  }

  function Entry(f: int, flags: nat): int {
    0x1000 * f + flags
  }

  predicate Present(e: int) {
    e % 2 == 1
  }

  function FrameOf(e: int): int {
    e / 0x1000
  }

  lemma EntryFields(f: int, flags: nat)
    requires flags < 0x1000
    ensures FrameOf(Entry(f, flags)) == f && (Present(Entry(f, flags)) <==> flags % 2 == 1) && Entry(f, flags) % 0x1000 == flags
  {
    EvenFrame(f, flags);
  }

  lemma EvenFrame(f: int, flags: nat)
    ensures (0x1000 * f + flags) % 2 == flags % 2
  {
    assert 0x1000 * f + flags == 2 * (0x800 * f) + flags;
  }

  /** What a frame that has ever been handed out is used for.  A loose frame has been
      allocated and is not, or no longer, part of an address space. */
  datatype Owner = Free | Loose | Dir | Table(pd: nat, i0: nat) | Page(pd: nat, i0: nat, i1: nat)

  type Ownership = map<nat, Owner>

  predicate Owns(own: Ownership, f: int, o: Owner) {
    f >= 0 && f in own && own[f] == o
  }

  /** The directory entry in use at `i0` of directory `pd`, and the table it names. */
  predicate HasTable(mem: Memory, pd: nat, i0: nat) {
    pd < |mem| && i0 < |mem[pd]| && Present(mem[pd][i0])
  }

  function TableAt(mem: Memory, pd: nat, i0: nat): int
    requires HasTable(mem, pd, i0)
  {
    FrameOf(mem[pd][i0])
  }

  predicate HasPage(mem: Memory, pd: nat, i0: nat, i1: nat) {
    && HasTable(mem, pd, i0)
    && 0 <= TableAt(mem, pd, i0) < |mem| && i1 < |mem[TableAt(mem, pd, i0)]|
    && Present(mem[TableAt(mem, pd, i0)][i1])
  }

  function PageAt(mem: Memory, pd: nat, i0: nat, i1: nat): int
    requires HasPage(mem, pd, i0, i1)
  {
    FrameOf(mem[TableAt(mem, pd, i0)][i1])
  }

  // ------------------------------------------------------------------
  // The ownership invariant

  /** The table that maps kernel addresses one to one below `limit`, page 0 excepted. */
  ghost predicate KernelMap(t: Frame, limit: nat) {
    |t| == WORDS && forall i | 0 <= i < WORDS :: t[i] == if 1 <= i < limit then Entry(i, 3) else 0
  }

  /** Memory agrees that `f` is used as `own` says. */
  ghost predicate Backed(mem: Memory, own: Ownership, f: nat)
    requires f in own
  {
    match own[f]
    case Table(pd, i0) => i0 < WORDS && Owns(own, pd, Dir) && HasTable(mem, pd, i0) && TableAt(mem, pd, i0) == f
    case Page(pd, i0, i1) =>
      && USER <= i0 < WORDS && i1 < WORDS && Owns(own, pd, Dir) && HasPage(mem, pd, i0, i1)
      && PageAt(mem, pd, i0, i1) == f && Owns(own, TableAt(mem, pd, i0), Table(pd, i0))
    case _ => true
  }

  /** A table in use by directory `pd` is owned at that place; only user tables and the
      kernel table at 0 are in use.  Flags 7 are present, writable and open to the user. */
  ghost predicate TableOwned(mem: Memory, own: Ownership, pd: nat, i0: nat) {
    HasTable(mem, pd, i0) ==>
      (i0 == 0 || i0 >= USER) && Owns(own, TableAt(mem, pd, i0), Table(pd, i0)) && mem[pd][i0] % 0x1000 == 7
  }

  /** A user page in use by directory `pd` is owned at that place. */
  ghost predicate PageOwned(mem: Memory, own: Ownership, pd: nat, i0: nat, i1: nat) {
    HasPage(mem, pd, i0, i1) ==>
      Owns(own, PageAt(mem, pd, i0, i1), Page(pd, i0, i1)) && mem[TableAt(mem, pd, i0)][i1] % 0x1000 == 7
  }

  ghost predicate KernelMapped(mem: Memory, limit: nat, pd: nat) {
    HasTable(mem, pd, 0) && 0 <= TableAt(mem, pd, 0) < |mem| && KernelMap(mem[TableAt(mem, pd, 0)], limit)
  }

  ghost predicate Sized(mem: Memory, limit: nat) {
    |mem| == limit && limit <= WORDS && forall f {:trigger mem[f]} | 0 <= f < limit :: |mem[f]| == WORDS
  }

  /** Every frame ever handed out has exactly one use (`own` is a function), memory backs
      that use, and everything mapped in some address space is owned at its place. */
  ghost predicate Inv(mem: Memory, own: Ownership, limit: nat) {
    && Sized(mem, limit)
    && (forall f | f in own :: 0 < f < limit)
    && (forall f {:trigger Backed(mem, own, f)} | f in own :: Backed(mem, own, f))
    && (forall pd {:trigger KernelMapped(mem, limit, pd)} | Owns(own, pd, Dir) :: KernelMapped(mem, limit, pd))
    && (forall pd, i0 {:trigger TableOwned(mem, own, pd, i0)} | Owns(own, pd, Dir) && 0 <= i0 < WORDS :: TableOwned(mem, own, pd, i0))
    && (forall pd, i0, i1 {:trigger PageOwned(mem, own, pd, i0, i1)} | Owns(own, pd, Dir) && USER <= i0 < WORDS && 0 <= i1 < WORDS ::
          PageOwned(mem, own, pd, i0, i1))
  }

  /** The free list visits the free frames, each once, through word 0 of every frame. */
  ghost predicate FreeListed(mem: Memory, own: Ownership, firstFree: nat, free: seq<nat>) {
    && (forall i, j | 0 <= i < j < |free| :: free[i] != free[j])
    && (forall i | 0 <= i < |free| :: Owns(own, free[i], Free))
    && (forall f | Owns(own, f, Free) :: f in free)
    && firstFree == (if free == [] then 0 else free[0])
    && (forall i {:trigger LinkAt(mem, free, i)} | 0 <= i < |free| :: LinkAt(mem, free, i))
  }

  predicate LinkAt(mem: Memory, free: seq<nat>, i: nat)
    requires i < |free|
  {
    free[i] < |mem| && |mem[free[i]]| == WORDS && mem[free[i]][0] == Entry(if i + 1 < |free| then free[i + 1] else 0, 0)
  }

  /** Each frame handed out so far has one use only: it is on the free list, or a table at
      one place, or a page at one place, or a directory, and never two of these. */
  lemma OneUse(mem: Memory, own: Ownership, limit: nat, firstFree: nat, free: seq<nat>, f: nat)
    requires Inv(mem, own, limit) && FreeListed(mem, own, firstFree, free) && f in own
    ensures f in free <==> own[f] == Free
    ensures forall pd, i0 | Owns(own, pd, Dir) && 0 <= i0 < WORDS && HasTable(mem, pd, i0) && TableAt(mem, pd, i0) == f ::
      own[f] == Table(pd, i0)
    ensures forall pd, i0, i1 | Owns(own, pd, Dir) && USER <= i0 < WORDS && 0 <= i1 < WORDS && HasPage(mem, pd, i0, i1) && PageAt(mem, pd, i0, i1) == f ::
      own[f] == Page(pd, i0, i1)
  {
    forall pd, i0 | Owns(own, pd, Dir) && 0 <= i0 < WORDS && HasTable(mem, pd, i0) && TableAt(mem, pd, i0) == f
      ensures own[f] == Table(pd, i0)
    {
      assert TableOwned(mem, own, pd, i0);
    }
    forall pd, i0, i1 | Owns(own, pd, Dir) && USER <= i0 < WORDS && 0 <= i1 < WORDS && HasPage(mem, pd, i0, i1) && PageAt(mem, pd, i0, i1) == f
      ensures own[f] == Page(pd, i0, i1)
    {
      assert PageOwned(mem, own, pd, i0, i1);
    }
  }

  // ------------------------------------------------------------------
  // Writes that change no mapping

  /** Frame `f` is not consulted by any address translation. */
  predicate IsData(own: Ownership, f: nat) {
    f in own ==> own[f].Free? || own[f].Loose? || own[f].Page?
  }

  /** Where address space `pd` maps a page, if anywhere. */
  function Translate(mem: Memory, pd: nat, i0: nat, i1: nat): int {
    if HasPage(mem, pd, i0, i1) then PageAt(mem, pd, i0, i1) else -1
  }

  lemma TranslateSign(mem: Memory, own: Ownership, limit: nat, pd: nat, i0: nat, i1: nat)
    requires Inv(mem, own, limit) && Owns(own, pd, Dir) && USER <= i0 < WORDS && i1 < WORDS
    ensures HasPage(mem, pd, i0, i1) <==> Translate(mem, pd, i0, i1) != -1
    ensures HasPage(mem, pd, i0, i1) ==> 0 < PageAt(mem, pd, i0, i1) < limit
  {
    assert PageOwned(mem, own, pd, i0, i1);
  }

  /** A write into a frame that is neither directory nor table keeps the invariant. */
  lemma DataWrite(mem: Memory, own: Ownership, limit: nat, f: nat, x: Frame)
    requires Inv(mem, own, limit) && f < limit && IsData(own, f) && |x| == WORDS
    ensures Inv(mem[f := x], own, limit)
  {
    var m := mem[f := x];
    forall g | g in own ensures Backed(m, own, g) {
      assert Backed(mem, own, g);
    }
    forall pd | Owns(own, pd, Dir) ensures KernelMapped(m, limit, pd) {
      assert KernelMapped(mem, limit, pd) && TableOwned(mem, own, pd, 0);
    }
    forall pd, i0 | Owns(own, pd, Dir) && 0 <= i0 < WORDS ensures TableOwned(m, own, pd, i0) {
      assert TableOwned(mem, own, pd, i0);
    }
    forall pd, i0, i1 | Owns(own, pd, Dir) && USER <= i0 < WORDS && 0 <= i1 < WORDS ensures PageOwned(m, own, pd, i0, i1) {
      assert TableOwned(mem, own, pd, i0) && PageOwned(mem, own, pd, i0, i1);
    }
  }

  /** Such a write changes no translation of any address space. */
  lemma DataWriteTranslates(mem: Memory, own: Ownership, limit: nat, f: nat, x: Frame, pd: nat, i0: nat, i1: nat)
    requires Inv(mem, own, limit) && f < limit && IsData(own, f) && |x| == WORDS
    requires Owns(own, pd, Dir) && i0 < WORDS && i1 < WORDS
    ensures Translate(mem[f := x], pd, i0, i1) == Translate(mem, pd, i0, i1)
  {
    assert TableOwned(mem, own, pd, i0);
  }

  /** Stores by one address space are invisible to every other one: a page mapped at two
      places is mapped twice at the same place. */
  lemma PagesApart(mem: Memory, own: Ownership, limit: nat, pd: nat, i0: nat, i1: nat, qd: nat, j0: nat, j1: nat)
    requires Inv(mem, own, limit) && Owns(own, pd, Dir) && Owns(own, qd, Dir)
    requires USER <= i0 < WORDS && i1 < WORDS && USER <= j0 < WORDS && j1 < WORDS
    requires HasPage(mem, pd, i0, i1) && HasPage(mem, qd, j0, j1)
    requires PageAt(mem, pd, i0, i1) == PageAt(mem, qd, j0, j1)
    ensures pd == qd && i0 == j0 && i1 == j1
  {
    assert PageOwned(mem, own, pd, i0, i1) && PageOwned(mem, own, qd, j0, j1);
  }

  // ------------------------------------------------------------------
  // Handing frames out and taking them back

  /** Frames outside every address space may be relabelled at will. */
  lemma Relabel(mem: Memory, own: Ownership, limit: nat, f: nat, o: Owner)
    requires Inv(mem, own, limit) && 0 < f < limit
    requires f in own ==> own[f].Free? || own[f].Loose?
    requires o.Free? || o.Loose?
    ensures Inv(mem, own[f := o], limit)
  {
    var w := own[f := o];
    forall g | g in w ensures Backed(mem, w, g) {
      assert g != f ==> Backed(mem, own, g);
    }
    forall pd | Owns(w, pd, Dir) ensures KernelMapped(mem, limit, pd) {
    }
    forall pd, i0 | Owns(w, pd, Dir) && 0 <= i0 < WORDS ensures TableOwned(mem, w, pd, i0) {
      assert TableOwned(mem, own, pd, i0);
    }
    forall pd, i0, i1 | Owns(w, pd, Dir) && USER <= i0 < WORDS && 0 <= i1 < WORDS ensures PageOwned(mem, w, pd, i0, i1) {
      assert PageOwned(mem, own, pd, i0, i1);
    }
  }

  // ------------------------------------------------------------------
  // Growing and shrinking an address space

  /** An empty table, so far loose, becomes the table of directory `pd` at `i0`. */
  lemma AdoptTable(mem: Memory, own: Ownership, limit: nat, pd: nat, i0: nat, t: nat)
    requires Inv(mem, own, limit) && Owns(own, pd, Dir) && Owns(own, t, Loose)
    requires USER <= i0 < WORDS && !HasTable(mem, pd, i0) && mem[t] == ZeroFrame()
    ensures Inv(mem[pd := mem[pd][i0 := Entry(t, 7)]], own[t := Table(pd, i0)], limit)
  {
    var m, w := mem[pd := mem[pd][i0 := Entry(t, 7)]], own[t := Table(pd, i0)];
    EntryFields(t, 7);
    forall g | g in w ensures Backed(m, w, g) {
      if g != t { assert Backed(mem, own, g); }
    }
    forall d | Owns(w, d, Dir) ensures KernelMapped(m, limit, d) {
      assert KernelMapped(mem, limit, d) && TableOwned(mem, own, d, 0);
    }
    forall d, j0 | Owns(w, d, Dir) && 0 <= j0 < WORDS ensures TableOwned(m, w, d, j0) {
      assert TableOwned(mem, own, d, j0);
    }
    forall d, j0, j1 | Owns(w, d, Dir) && USER <= j0 < WORDS && 0 <= j1 < WORDS ensures PageOwned(m, w, d, j0, j1) {
      assert TableOwned(mem, own, d, j0) && PageOwned(mem, own, d, j0, j1);
    }
  }

  /** A loose frame becomes the page mapped at `i0`, `i1` of directory `pd`. */
  lemma AdoptPage(mem: Memory, own: Ownership, limit: nat, pd: nat, i0: nat, i1: nat, f: nat)
    requires Inv(mem, own, limit) && Owns(own, pd, Dir) && Owns(own, f, Loose)
    requires USER <= i0 < WORDS && i1 < WORDS && HasTable(mem, pd, i0) && !HasPage(mem, pd, i0, i1)
    ensures var t := TableAt(mem, pd, i0);
      && 0 <= t < limit
      && Inv(mem[t := mem[t][i1 := Entry(f, 7)]], own[f := Page(pd, i0, i1)], limit)
  {
    assert TableOwned(mem, own, pd, i0);
    var t := TableAt(mem, pd, i0);
    var m, w := mem[t := mem[t][i1 := Entry(f, 7)]], own[f := Page(pd, i0, i1)];
    EntryFields(f, 7);
    assert Backed(mem, own, t);
    forall g | g in w ensures Backed(m, w, g) {
      if g != f { assert Backed(mem, own, g); }
    }
    forall d | Owns(w, d, Dir) ensures KernelMapped(m, limit, d) {
      assert KernelMapped(mem, limit, d) && TableOwned(mem, own, d, 0);
    }
    forall d, j0 | Owns(w, d, Dir) && 0 <= j0 < WORDS ensures TableOwned(m, w, d, j0) {
      assert TableOwned(mem, own, d, j0);
    }
    forall d, j0, j1 | Owns(w, d, Dir) && USER <= j0 < WORDS && 0 <= j1 < WORDS ensures PageOwned(m, w, d, j0, j1) {
      assert TableOwned(mem, own, d, j0) && PageOwned(mem, own, d, j0, j1);
    }
  }

  /** Clearing the entry of a mapped page makes its frame loose. */
  lemma DropPage(mem: Memory, own: Ownership, limit: nat, pd: nat, i0: nat, i1: nat)
    requires Inv(mem, own, limit) && Owns(own, pd, Dir)
    requires USER <= i0 < WORDS && i1 < WORDS && HasPage(mem, pd, i0, i1)
    ensures var (t, f) := (TableAt(mem, pd, i0), PageAt(mem, pd, i0, i1));
      && 0 <= t < limit && Owns(own, f, Page(pd, i0, i1))
      && Inv(mem[t := mem[t][i1 := 0]], own[f := Loose], limit)
  {
    assert TableOwned(mem, own, pd, i0) && PageOwned(mem, own, pd, i0, i1);
    var (t, f) := (TableAt(mem, pd, i0), PageAt(mem, pd, i0, i1));
    var m, w := mem[t := mem[t][i1 := 0]], own[f := Loose];
    assert Backed(mem, own, t);
    forall g | g in w ensures Backed(m, w, g) {
      if g != f { assert Backed(mem, own, g); }
    }
    forall d | Owns(w, d, Dir) ensures KernelMapped(m, limit, d) {
      assert KernelMapped(mem, limit, d) && TableOwned(mem, own, d, 0);
    }
    forall d, j0 | Owns(w, d, Dir) && 0 <= j0 < WORDS ensures TableOwned(m, w, d, j0) {
      assert TableOwned(mem, own, d, j0);
    }
    forall d, j0, j1 | Owns(w, d, Dir) && USER <= j0 < WORDS && 0 <= j1 < WORDS ensures PageOwned(m, w, d, j0, j1) {
      assert TableOwned(mem, own, d, j0) && PageOwned(mem, own, d, j0, j1);
    }
  }

  /** Two loose frames become a directory and its kernel table. */
  lemma AdoptDir(mem: Memory, own: Ownership, limit: nat, pd: nat, t: nat)
    requires Inv(mem, own, limit) && Owns(own, pd, Loose) && Owns(own, t, Loose) && pd != t
    requires mem[pd] == ZeroFrame()[0 := Entry(t, 7)] && KernelMap(mem[t], limit)
    ensures Inv(mem, own[pd := Dir][t := Table(pd, 0)], limit)
  {
    var w := own[pd := Dir][t := Table(pd, 0)];
    EntryFields(t, 7);
    assert HasTable(mem, pd, 0) && forall i0 | 0 < i0 < WORDS :: !HasTable(mem, pd, i0);
    forall g | g in w ensures Backed(mem, w, g) {
      if g != t && g != pd { assert Backed(mem, own, g); }
    }
    forall d | Owns(w, d, Dir) ensures KernelMapped(mem, limit, d) {
      if d != pd { assert KernelMapped(mem, limit, d); }
    }
    forall d, j0 | Owns(w, d, Dir) && 0 <= j0 < WORDS ensures TableOwned(mem, w, d, j0) {
      if d != pd { assert TableOwned(mem, own, d, j0); }
    }
    forall d, j0, j1 | Owns(w, d, Dir) && USER <= j0 < WORDS && 0 <= j1 < WORDS ensures PageOwned(mem, w, d, j0, j1) {
      if d != pd { assert PageOwned(mem, own, d, j0, j1); }
    }
  }

  // ------------------------------------------------------------------
  // Tearing an address space down

  predicate Before(i0: nat, i1: nat, j0: nat, j1: nat) {
    i0 < j0 || (i0 == j0 && i1 < j1)
  }

  /** Ownership while address space `pd` is torn down and the scan has reached `i0`, `i1`:
      what it has passed is free, the rest of `pd` is loose, all else is as in `own`. */
  function TornDown(own: Ownership, pd: nat, i0: nat, i1: nat): Ownership {
    map f | f in own :: TornDownOwner(own, pd, i0, i1, f)
  }

  function TornDownOwner(own: Ownership, pd: nat, i0: nat, i1: nat, f: nat): Owner
    requires f in own
  {
    match own[f]
    case Dir => if f == pd then Loose else Dir
    case Table(d, j0) => if d == pd then (if j0 < i0 then Free else Loose) else own[f]
    case Page(d, j0, j1) => if d == pd then (if Before(j0, j1, i0, i1) then Free else Loose) else own[f]
    case _ => own[f]
  }

  /** Letting go of all frames of an address space at once keeps the invariant. */
  lemma Abandon(mem: Memory, own: Ownership, limit: nat, pd: nat)
    requires Inv(mem, own, limit) && Owns(own, pd, Dir)
    ensures Inv(mem, TornDown(own, pd, 0, 0), limit)
  {
    var w := TornDown(own, pd, 0, 0);
    forall g | g in w ensures Backed(mem, w, g) {
      assert Backed(mem, own, g);
    }
    forall d | Owns(w, d, Dir) ensures KernelMapped(mem, limit, d) {
      assert Owns(own, d, Dir) && KernelMapped(mem, limit, d);
    }
    forall d, j0 | Owns(w, d, Dir) && 0 <= j0 < WORDS ensures TableOwned(mem, w, d, j0) {
      assert Owns(own, d, Dir) && TableOwned(mem, own, d, j0);
    }
    forall d, j0, j1 | Owns(w, d, Dir) && USER <= j0 < WORDS && 0 <= j1 < WORDS ensures PageOwned(mem, w, d, j0, j1) {
      assert Owns(own, d, Dir) && PageOwned(mem, own, d, j0, j1);
    }
  }

  /** Nothing but the frames of address space `pd` changed hands, and all of them are free. */
  function Destroyed(own: Ownership, pd: nat): Ownership {
    map f | f in own :: if BelongsTo(own, pd, f) then Free else own[f]
  }

  predicate BelongsTo(own: Ownership, pd: nat, f: nat)
    requires f in own
  {
    match own[f]
    case Dir => f == pd
    case Table(d, _) => d == pd
    case Page(d, _, _) => d == pd
    case _ => false
  }

  lemma TearPage(mem: Memory, own: Ownership, limit: nat, pd: nat, i0: nat, i1: nat)
    requires Inv(mem, own, limit) && Owns(own, pd, Dir) && USER <= i0 < WORDS && i1 < WORDS
    ensures HasPage(mem, pd, i0, i1) ==>
      var f := PageAt(mem, pd, i0, i1);
      && Owns(TornDown(own, pd, i0, i1), f, Loose)
      && TornDown(own, pd, i0, i1)[f := Free] == TornDown(own, pd, i0, i1 + 1)
    ensures !HasPage(mem, pd, i0, i1) ==> TornDown(own, pd, i0, i1) == TornDown(own, pd, i0, i1 + 1)
  {
    assert PageOwned(mem, own, pd, i0, i1);
    forall g | g in own && own[g] == Page(pd, i0, i1) ensures HasPage(mem, pd, i0, i1) && g == PageAt(mem, pd, i0, i1) {
      assert Backed(mem, own, g);
    }
  }

  lemma TearTable(mem: Memory, own: Ownership, limit: nat, pd: nat, i0: nat)
    requires Inv(mem, own, limit) && Owns(own, pd, Dir) && i0 < WORDS
    ensures HasTable(mem, pd, i0) ==>
      var t := TableAt(mem, pd, i0);
      && 0 <= t && Owns(TornDown(own, pd, i0, WORDS), t, Loose)
      && TornDown(own, pd, i0, WORDS)[t := Free] == TornDown(own, pd, i0 + 1, 0)
      && (i0 == 0 ==> TornDown(own, pd, i0, 0) == TornDown(own, pd, i0, WORDS))
    ensures !HasTable(mem, pd, i0) ==> TornDown(own, pd, i0, 0) == TornDown(own, pd, i0 + 1, 0)
  {
    assert TableOwned(mem, own, pd, i0);
    forall g | g in own ensures
      && (own[g] == Table(pd, i0) ==> HasTable(mem, pd, i0) && g == TableAt(mem, pd, i0))
      && (own[g].Page? && own[g].pd == pd && own[g].i0 == i0 ==> HasTable(mem, pd, i0) && own[g].i1 < WORDS && i0 >= USER)
    {
      assert Backed(mem, own, g);
    }
  }

  lemma TearEnd(mem: Memory, own: Ownership, limit: nat, pd: nat)
    requires Inv(mem, own, limit) && Owns(own, pd, Dir)
    ensures TornDown(own, pd, WORDS, 0)[pd := Free] == Destroyed(own, pd)
  {
    forall g | g in own ensures
      && (own[g].Table? && own[g].pd == pd ==> own[g].i0 < WORDS)
      && (own[g].Page? && own[g].pd == pd ==> own[g].i0 < WORDS)
    {
      assert Backed(mem, own, g);
    }
  }

  // ------------------------------------------------------------------
  // The free list

  /** The list survives any change that leaves the free frames alone. */
  lemma FreeListKept(mem: Memory, own: Ownership, mem': Memory, own': Ownership, first: nat, free: seq<nat>)
    requires FreeListed(mem, own, first, free) && |mem'| == |mem|
    requires forall f :: Owns(own', f, Free) <==> Owns(own, f, Free)
    requires forall f | Owns(own, f, Free) && f < |mem| :: mem'[f] == mem[f]
    ensures FreeListed(mem', own', first, free)
  {
    forall i | 0 <= i < |free| ensures LinkAt(mem', free, i) {
      assert LinkAt(mem, free, i);
      assert Owns(own, free[i], Free);
    }
  }

  lemma PopFree(mem: Memory, own: Ownership, first: nat, free: seq<nat>)
    requires FreeListed(mem, own, first, free) && free != []
    ensures LinkAt(mem, free, 0) && FrameOf(mem[first][0]) >= 0
    ensures FreeListed(mem, own[first := Loose], FrameOf(mem[first][0]), free[1..])
  {
    assert LinkAt(mem, free, 0);
    var w, xs := own[first := Loose], free[1..];
    EntryFields(if 1 < |free| then free[1] else 0, 0);
    forall i | 0 <= i < |xs| ensures LinkAt(mem, xs, i) {
      assert LinkAt(mem, free, i + 1);
    }
    forall f | Owns(w, f, Free) ensures f in xs {
      assert f in free && f != free[0];
    }
  }

  lemma PushFree(mem: Memory, own: Ownership, first: nat, free: seq<nat>, f: nat)
    requires FreeListed(mem, own, first, free) && f in own && !own[f].Free? && f < |mem| && |mem[f]| == WORDS
    ensures FreeListed(mem[f := mem[f][0 := Entry(first, 0)]], own[f := Free], f, [f] + free)
  {
    var m, w, xs := mem[f := mem[f][0 := Entry(first, 0)]], own[f := Free], [f] + free;
    assert forall i | 0 < i < |xs| :: xs[i] == free[i - 1] && xs[i] != f;
    forall i | 0 <= i < |xs| ensures LinkAt(m, xs, i) {
      if i > 0 { assert LinkAt(mem, free, i - 1); }
    }
    forall g | Owns(w, g, Free) ensures g in xs {
      assert g != f ==> g in free;
    }
  }

  // ------------------------------------------------------------------
  // What an operation on one address space leaves alone

  predicate InUse(own: Ownership, f: nat) {
    f in own && (own[f].Dir? || own[f].Table? || own[f].Page?)
  }

  /** Frame `f` is the directory or a table of address space `pd`. */
  predicate IsMapOf(own: Ownership, pd: nat, f: nat) {
    f in own && ((f == pd && own[f].Dir?) || (own[f].Table? && own[f].pd == pd))
  }

  predicate UseKept(mem: Memory, own: Ownership, mem': Memory, own': Ownership, pd: nat, f: nat) {
    InUse(own, f) ==>
      && Owns(own', f, own[f]) && f < |mem| && f < |mem'|
      && (IsMapOf(own, pd, f) || mem'[f] == mem[f])
  }

  /** Every frame in use keeps its use, and its contents unless it is a map of `pd`. */
  ghost predicate UsesKept(mem: Memory, own: Ownership, mem': Memory, own': Ownership, pd: nat) {
    forall f {:trigger UseKept(mem, own, mem', own', pd, f)} :: UseKept(mem, own, mem', own', pd, f)
  }

  lemma UsesKeptTrans(m0: Memory, w0: Ownership, m1: Memory, w1: Ownership, m2: Memory, w2: Ownership, pd: nat)
    requires UsesKept(m0, w0, m1, w1, pd) && UsesKept(m1, w1, m2, w2, pd)
    ensures UsesKept(m0, w0, m2, w2, pd)
  {
    forall f ensures UseKept(m0, w0, m2, w2, pd, f) {
      assert UseKept(m0, w0, m1, w1, pd, f) && UseKept(m1, w1, m2, w2, pd, f);
    }
  }

  /** An address space keeps all its translations and page contents while another grows. */
  lemma OtherSpaceKept(mem: Memory, own: Ownership, mem': Memory, own': Ownership, limit: nat, pd: nat, qd: nat, i0: nat, i1: nat)
    requires Inv(mem, own, limit) && UsesKept(mem, own, mem', own', pd) && |mem'| == |mem|
    requires Owns(own, qd, Dir) && qd != pd && USER <= i0 < WORDS && i1 < WORDS
    ensures Translate(mem', qd, i0, i1) == Translate(mem, qd, i0, i1)
    ensures HasPage(mem, qd, i0, i1) ==>
      var f := PageAt(mem, qd, i0, i1); 0 <= f < |mem| && mem'[f] == mem[f]
  {
    assert TableOwned(mem, own, qd, i0) && PageOwned(mem, own, qd, i0, i1);
    assert UseKept(mem, own, mem', own', pd, qd);
    if HasTable(mem, qd, i0) {
      assert UseKept(mem, own, mem', own', pd, TableAt(mem, qd, i0));
    }
    if HasPage(mem, qd, i0, i1) {
      assert UseKept(mem, own, mem', own', pd, PageAt(mem, qd, i0, i1));
    }
  }

  // ------------------------------------------------------------------
  // Mapping one page

  /** Frame `p` is now mapped at `i0`, `i1` of `pd`; every other page of `pd` is where it was. */
  ghost predicate MapsOnly(mem: Memory, mem': Memory, pd: nat, i0: nat, i1: nat, p: int) {
    && Translate(mem', pd, i0, i1) == p
    && forall j0, j1 {:trigger Translate(mem', pd, j0, j1)} | USER <= j0 < WORDS && 0 <= j1 < WORDS && (j0 != i0 || j1 != i1) ::
         Translate(mem', pd, j0, j1) == Translate(mem, pd, j0, j1)
  }

  lemma TableWrites(mem: Memory, own: Ownership, limit: nat, pd: nat, i0: nat, t: nat)
    requires Inv(mem, own, limit) && Owns(own, pd, Dir) && USER <= i0 < WORDS && !HasTable(mem, pd, i0)
    requires 0 < t < limit && (t !in own || own[t].Free?)
    ensures var m := mem[t := ZeroFrame()][pd := mem[pd][i0 := Entry(t, 7)]];
      && UsesKept(mem, own, m, own[t := Table(pd, i0)], pd)
      && HasTable(m, pd, i0) && TableAt(m, pd, i0) == t
      && forall j0, j1 {:trigger Translate(m, pd, j0, j1)} | USER <= j0 < WORDS && 0 <= j1 < WORDS :: Translate(m, pd, j0, j1) == Translate(mem, pd, j0, j1)
  {
    EntryFields(t, 7);
    var m := mem[t := ZeroFrame()][pd := mem[pd][i0 := Entry(t, 7)]];
    forall j0, j1 | USER <= j0 < WORDS && 0 <= j1 < WORDS ensures Translate(m, pd, j0, j1) == Translate(mem, pd, j0, j1) {
      assert TableOwned(mem, own, pd, j0);
    }
  }

  lemma PageWrites(mem: Memory, own: Ownership, limit: nat, pd: nat, i0: nat, i1: nat, p: nat)
    requires Inv(mem, own, limit) && Owns(own, pd, Dir) && Owns(own, p, Loose)
    requires USER <= i0 < WORDS && i1 < WORDS && HasTable(mem, pd, i0) && !HasPage(mem, pd, i0, i1)
    ensures var t := TableAt(mem, pd, i0);
      && 0 <= t < limit && Owns(own, t, Table(pd, i0))
      && var m := mem[t := mem[t][i1 := Entry(p, 7)]];
      && UsesKept(mem, own, m, own[p := Page(pd, i0, i1)], pd)
      && MapsOnly(mem, m, pd, i0, i1, p)
  {
    EntryFields(p, 7);
    assert TableOwned(mem, own, pd, i0);
    var t := TableAt(mem, pd, i0);
    var m := mem[t := mem[t][i1 := Entry(p, 7)]];
    forall j0, j1 | USER <= j0 < WORDS && 0 <= j1 < WORDS && (j0 != i0 || j1 != i1)
      ensures Translate(m, pd, j0, j1) == Translate(mem, pd, j0, j1)
    {
      assert TableOwned(mem, own, pd, j0);
    }
  }

  /** Handing out a frame and filling it moves no page and touches no frame in use. */
  lemma AllocTranslates(mem: Memory, own: Ownership, limit: nat, p: nat, x: Frame, pd: nat)
    requires Inv(mem, own, limit) && p < limit && (p !in own || own[p].Free?) && Owns(own, pd, Dir) && |x| == WORDS
    ensures var m := mem[p := x];
      && UsesKept(mem, own, m, own[p := Loose], pd)
      && forall j0, j1 {:trigger Translate(m, pd, j0, j1)} | USER <= j0 < WORDS && 0 <= j1 < WORDS ::
           Translate(m, pd, j0, j1) == Translate(mem, pd, j0, j1)
  {
    var m := mem[p := x];
    forall j0, j1 | USER <= j0 < WORDS && 0 <= j1 < WORDS ensures Translate(m, pd, j0, j1) == Translate(mem, pd, j0, j1) {
      DataWriteTranslates(mem, own, limit, p, x, pd, j0, j1);
    }
  }

  /** A directory under construction: kernel pages 1 to `v - 1` are mapped by table `t`,
      nothing else is. */
  ghost predicate KernelSoFar(mem: Memory, own: Ownership, pd: nat, v: nat, t: int) {
    && pd < |mem|
    && if v <= 1 then mem[pd] == ZeroFrame() else
         && mem[pd] == ZeroFrame()[0 := Entry(t, 7)]
         && 0 < t < |mem| && t != pd && Owns(own, t, Loose) && KernelMap(mem[t], v)
  }

  lemma KernelStep(mem: Memory, own: Ownership, mem': Memory, own': Ownership, limit: nat, pd: nat, v: nat, t: nat)
    requires Inv(mem, own, limit) && Owns(own, pd, Loose) && 0 < v < limit && 0 < t < limit
    requires KernelSoFar(mem, own, pd, v, t)
    requires v == 1 ==> (t !in own || own[t].Free?) && own' == own[t := Loose]
    requires v == 1 ==> mem' == mem[t := ZeroFrame()][pd := mem[pd][0 := Entry(t, 7)]]
    requires v > 1 ==> own' == own && mem' == mem
    ensures |mem'[t]| == WORDS
    ensures var m := mem'[t := mem'[t][v := Entry(v, 3)]];
      KernelSoFar(m, own', pd, v + 1, t) && UsesKept(mem, own, m, own', pd)
  {
    var m := mem'[t := mem'[t][v := Entry(v, 3)]];
    forall f ensures UseKept(mem, own, m, own', pd, f) { }
  }

  // ------------------------------------------------------------------
  // Copying an address space

  predicate SameAt(m0: Memory, mem: Memory, pd: nat, i0: nat, i1: nat) {
    && (HasPage(m0, pd, i0, i1) <==> HasPage(mem, pd, i0, i1))
    && (HasPage(m0, pd, i0, i1) ==>
          var f := PageAt(m0, pd, i0, i1);
          PageAt(mem, pd, i0, i1) == f && 0 <= f < |m0| && f < |mem| && mem[f] == m0[f])
  }

  /** Address space `pd` maps the same pages with the same contents in both memories. */
  ghost predicate SameSpace(m0: Memory, mem: Memory, pd: nat) {
    forall i0, i1 {:trigger SameAt(m0, mem, pd, i0, i1)} | USER <= i0 < WORDS && 0 <= i1 < WORDS :: SameAt(m0, mem, pd, i0, i1)
  }

  lemma SameSpaceSelf(mem: Memory, own: Ownership, limit: nat, pd: nat)
    requires Inv(mem, own, limit) && Owns(own, pd, Dir)
    ensures SameSpace(mem, mem, pd)
  {
    forall i0, i1 | USER <= i0 < WORDS && 0 <= i1 < WORDS ensures SameAt(mem, mem, pd, i0, i1) {
      TranslateSign(mem, own, limit, pd, i0, i1);
    }
  }

  /** An address space is not changed by work on another one. */
  lemma SameSpaceKept(m0: Memory, mem: Memory, own: Ownership, mem': Memory, own': Ownership, limit: nat, pd: nat, qd: nat)
    requires Inv(mem, own, limit) && Inv(mem', own', limit) && UsesKept(mem, own, mem', own', pd)
    requires Owns(own, qd, Dir) && qd != pd && SameSpace(m0, mem, qd)
    ensures SameSpace(m0, mem', qd)
  {
    assert UseKept(mem, own, mem', own', pd, qd);
    forall i0, i1 | USER <= i0 < WORDS && 0 <= i1 < WORDS ensures SameAt(m0, mem', qd, i0, i1) {
      assert SameAt(m0, mem, qd, i0, i1);
      OtherSpaceKept(mem, own, mem', own', limit, pd, qd, i0, i1);
      TranslateSign(mem, own, limit, qd, i0, i1);
      TranslateSign(mem', own', limit, qd, i0, i1);
    }
  }

  /** Place `j0`, `j1` of the child when the copy has reached `i0`, `i1`: an equal page if
      the copy has passed a page of the parent there, no page otherwise. */
  predicate MirrorAt(m0: Memory, mem: Memory, pd: nat, cd: nat, i0: nat, i1: nat, j0: nat, j1: nat) {
    if Before(j0, j1, i0, i1) && HasPage(m0, pd, j0, j1) then
      && HasPage(mem, cd, j0, j1)
      && 0 <= PageAt(m0, pd, j0, j1) < |m0| && 0 <= PageAt(mem, cd, j0, j1) < |mem|
      && mem[PageAt(mem, cd, j0, j1)] == m0[PageAt(m0, pd, j0, j1)]
    else
      !HasPage(mem, cd, j0, j1)
  }

  ghost predicate Mirrors(m0: Memory, mem: Memory, pd: nat, cd: nat, i0: nat, i1: nat) {
    forall j0, j1 {:trigger MirrorAt(m0, mem, pd, cd, i0, i1, j0, j1)} | USER <= j0 < WORDS && 0 <= j1 < WORDS ::
      MirrorAt(m0, mem, pd, cd, i0, i1, j0, j1)
  }

  /** One page of the parent copied and mapped in the child. */
  lemma MirrorPage(m0: Memory, mem: Memory, own: Ownership, mem': Memory, own': Ownership, limit: nat,
                   pd: nat, cd: nat, i0: nat, i1: nat, p: nat)
    requires Inv(mem, own, limit) && Owns(own, cd, Dir) && Inv(mem', own', limit) && Owns(own', cd, Dir)
    requires USER <= i0 < WORDS && i1 < WORDS && p < limit
    requires HasPage(m0, pd, i0, i1) && 0 <= PageAt(m0, pd, i0, i1) < |m0| && mem'[p] == m0[PageAt(m0, pd, i0, i1)]
    requires Mirrors(m0, mem, pd, cd, i0, i1)
    requires MapsOnly(mem, mem', cd, i0, i1, p) && UsesKept(mem, own, mem', own', cd)
    ensures Mirrors(m0, mem', pd, cd, i0, i1 + 1)
  {
    var k1 := i1 + 1;
    forall j0, j1 | USER <= j0 < WORDS && 0 <= j1 < WORDS ensures MirrorAt(m0, mem', pd, cd, i0, k1, j0, j1) {
      assert MirrorAt(m0, mem, pd, cd, i0, i1, j0, j1);
      TranslateSign(mem, own, limit, cd, j0, j1);
      TranslateSign(mem', own', limit, cd, j0, j1);
      if j0 != i0 || j1 != i1 {
        assert Translate(mem', cd, j0, j1) == Translate(mem, cd, j0, j1);
        if HasPage(mem, cd, j0, j1) {
          assert PageOwned(mem, own, cd, j0, j1);
          assert UseKept(mem, own, mem', own', cd, PageAt(mem, cd, j0, j1));
        }
      }
    }
  }

  /** Nothing to copy at `i0`, `i1`, or in the whole rest of a table the parent lacks. */
  lemma MirrorSkip(m0: Memory, mem: Memory, pd: nat, cd: nat, i0: nat, i1: nat, k0: nat, k1: nat)
    requires Mirrors(m0, mem, pd, cd, i0, i1)
    requires forall j0, j1 {:trigger HasPage(m0, pd, j0, j1)} | 0 <= j0 && 0 <= j1 < WORDS :: Before(j0, j1, i0, i1) != Before(j0, j1, k0, k1) ==> !HasPage(m0, pd, j0, j1)
    ensures Mirrors(m0, mem, pd, cd, k0, k1)
  {
    forall j0, j1 | USER <= j0 < WORDS && 0 <= j1 < WORDS ensures MirrorAt(m0, mem, pd, cd, k0, k1, j0, j1) {
      assert MirrorAt(m0, mem, pd, cd, i0, i1, j0, j1);
    }
  }

  /** A finished copy has exactly the parent's user pages, with equal contents, in frames
      that the parent does not map. */
  lemma MirrorComplete(m0: Memory, mem: Memory, own: Ownership, limit: nat, pd: nat, cd: nat, i0: nat, i1: nat)
    requires Inv(mem, own, limit) && Owns(own, pd, Dir) && Owns(own, cd, Dir) && pd != cd
    requires USER <= i0 < WORDS && i1 < WORDS && Mirrors(m0, mem, pd, cd, WORDS, 0) && SameSpace(m0, mem, pd)
    ensures HasPage(mem, cd, i0, i1) <==> HasPage(mem, pd, i0, i1)
    ensures HasPage(mem, cd, i0, i1) ==>
      var (c, p) := (PageAt(mem, cd, i0, i1), PageAt(mem, pd, i0, i1));
      c != p && 0 <= c < |mem| && 0 <= p < |mem| && mem[c] == mem[p]
  {
    assert MirrorAt(m0, mem, pd, cd, WORDS, 0, i0, i1) && SameAt(m0, mem, pd, i0, i1);
    TranslateSign(mem, own, limit, pd, i0, i1);
    if HasPage(mem, cd, i0, i1) && PageAt(mem, cd, i0, i1) == PageAt(mem, pd, i0, i1) {
      PagesApart(mem, own, limit, cd, i0, i1, pd, i0, i1);
    }
  }

  // ------------------------------------------------------------------
  // Work that takes frames away from one address space

  predicate OtherKept(mem: Memory, own: Ownership, mem': Memory, own': Ownership, pd: nat, f: nat) {
    InUse(own, f) && !BelongsTo(own, pd, f) ==> Owns(own', f, own[f]) && f < |mem| && f < |mem'| && mem'[f] == mem[f]
  }

  /** Every frame in use outside address space `pd` keeps its use and its contents. */
  ghost predicate OthersKept(mem: Memory, own: Ownership, mem': Memory, own': Ownership, pd: nat) {
    forall f {:trigger OtherKept(mem, own, mem', own', pd, f)} :: OtherKept(mem, own, mem', own', pd, f)
  }

  lemma OthersKeptTrans(m0: Memory, w0: Ownership, m1: Memory, w1: Ownership, m2: Memory, w2: Ownership, pd: nat)
    requires OthersKept(m0, w0, m1, w1, pd) && OthersKept(m1, w1, m2, w2, pd)
    ensures OthersKept(m0, w0, m2, w2, pd)
  {
    forall f ensures OtherKept(m0, w0, m2, w2, pd, f) {
      assert OtherKept(m0, w0, m1, w1, pd, f) && OtherKept(m1, w1, m2, w2, pd, f);
    }
  }

  /** All other address spaces are as they were. */
  lemma OthersKeptSpaces(mem: Memory, own: Ownership, mem': Memory, own': Ownership, limit: nat, pd: nat, qd: nat)
    requires Inv(mem, own, limit) && Inv(mem', own', limit) && OthersKept(mem, own, mem', own', pd)
    requires Owns(own, qd, Dir) && qd != pd
    ensures Owns(own', qd, Dir) && SameSpace(mem, mem', qd)
  {
    assert OtherKept(mem, own, mem', own', pd, qd);
    forall i0, i1 | USER <= i0 < WORDS && 0 <= i1 < WORDS ensures SameAt(mem, mem', qd, i0, i1) {
      assert TableOwned(mem, own, qd, i0) && PageOwned(mem, own, qd, i0, i1);
      if HasTable(mem, qd, i0) { assert OtherKept(mem, own, mem', own', pd, TableAt(mem, qd, i0)); }
      if HasPage(mem, qd, i0, i1) { assert OtherKept(mem, own, mem', own', pd, PageAt(mem, qd, i0, i1)); }
    }
  }

  /** Ownership when exec has unmapped the pages of `pd` before `i0`, `i1`. */
  function Unmapped(own: Ownership, pd: nat, i0: nat, i1: nat): Ownership {
    map f | f in own ::
      if own[f].Page? && own[f].pd == pd && Before(own[f].i0, own[f].i1, i0, i1) then Free else own[f]
  }

  predicate ClearedAt(m0: Memory, mem: Memory, pd: nat, i0: nat, i1: nat, j0: nat, j1: nat) {
    Translate(mem, pd, j0, j1) == if Before(j0, j1, i0, i1) then -1 else Translate(m0, pd, j0, j1)
  }

  /** Address space `pd` has lost its pages before `i0`, `i1` and only those. */
  ghost predicate Cleared(m0: Memory, mem: Memory, pd: nat, i0: nat, i1: nat) {
    forall j0, j1 {:trigger ClearedAt(m0, mem, pd, i0, i1, j0, j1)} | USER <= j0 < WORDS && 0 <= j1 < WORDS ::
      ClearedAt(m0, mem, pd, i0, i1, j0, j1)
  }

  lemma UnmapWrites(mem: Memory, own: Ownership, limit: nat, pd: nat, i0: nat, i1: nat)
    requires Inv(mem, own, limit) && Owns(own, pd, Dir) && USER <= i0 < WORDS && i1 < WORDS && HasPage(mem, pd, i0, i1)
    ensures var (t, f) := (TableAt(mem, pd, i0), PageAt(mem, pd, i0, i1));
      && 0 <= t < limit && Owns(own, t, Table(pd, i0)) && Owns(own, f, Page(pd, i0, i1))
      && OthersKept(mem, own, mem[t := mem[t][i1 := 0]], own[f := Loose], pd)
      && MapsOnly(mem, mem[t := mem[t][i1 := 0]], pd, i0, i1, -1)
  {
    assert TableOwned(mem, own, pd, i0) && PageOwned(mem, own, pd, i0, i1);
    var t := TableAt(mem, pd, i0);
    var m := mem[t := mem[t][i1 := 0]];
    forall j0, j1 | USER <= j0 < WORDS && 0 <= j1 < WORDS && (j0 != i0 || j1 != i1)
      ensures Translate(m, pd, j0, j1) == Translate(mem, pd, j0, j1)
    {
      assert TableOwned(mem, own, pd, j0);
    }
  }

  lemma ClearStep(m0: Memory, mem: Memory, mem': Memory, pd: nat, i0: nat, i1: nat)
    requires USER <= i0 < WORDS && i1 < WORDS && Cleared(m0, mem, pd, i0, i1) && MapsOnly(mem, mem', pd, i0, i1, -1)
    ensures Cleared(m0, mem', pd, i0, i1 + 1)
  {
    var k1 := i1 + 1;
    forall j0, j1 | USER <= j0 < WORDS && 0 <= j1 < WORDS ensures ClearedAt(m0, mem', pd, i0, k1, j0, j1) {
      assert ClearedAt(m0, mem, pd, i0, i1, j0, j1);
      assert j0 != i0 || j1 != i1 ==> Translate(mem', pd, j0, j1) == Translate(mem, pd, j0, j1);
    }
  }

  lemma ClearSkip(m0: Memory, mem: Memory, pd: nat, i0: nat, i1: nat)
    requires i0 < WORDS && i1 < WORDS && Cleared(m0, mem, pd, i0, i1) && Translate(mem, pd, i0, i1) == -1
    ensures Cleared(m0, mem, pd, i0, i1 + 1)
  {
    var k1 := i1 + 1;
    forall j0, j1 | USER <= j0 < WORDS && 0 <= j1 < WORDS ensures ClearedAt(m0, mem, pd, i0, k1, j0, j1) {
      assert ClearedAt(m0, mem, pd, i0, i1, j0, j1);
    }
  }

  lemma ClearTable(m0: Memory, mem: Memory, pd: nat, i0: nat, i1: nat)
    requires i0 < WORDS && Cleared(m0, mem, pd, i0, i1)
    requires i1 == WORDS || (i1 == 0 && !HasTable(mem, pd, i0))
    ensures Cleared(m0, mem, pd, i0 + 1, 0)
  {
    var k0 := i0 + 1;
    forall j0, j1 | USER <= j0 < WORDS && 0 <= j1 < WORDS ensures ClearedAt(m0, mem, pd, k0, 0, j0, j1) {
      assert ClearedAt(m0, mem, pd, i0, i1, j0, j1);
    }
  }

  /** Which frames the scan frees at `i0`, `i1`. */
  lemma UnmapOwner(mem: Memory, own: Ownership, limit: nat, pd: nat, i0: nat, i1: nat)
    requires Inv(mem, own, limit) && Owns(own, pd, Dir) && USER <= i0 < WORDS && i1 < WORDS
    ensures HasPage(mem, pd, i0, i1) ==>
      var f := PageAt(mem, pd, i0, i1);
      0 <= f && Unmapped(own, pd, i0, i1)[f := Free] == Unmapped(own, pd, i0, i1 + 1)
    ensures !HasPage(mem, pd, i0, i1) ==> Unmapped(own, pd, i0, i1) == Unmapped(own, pd, i0, i1 + 1)
  {
    assert PageOwned(mem, own, pd, i0, i1);
    forall g | g in own && own[g] == Page(pd, i0, i1) ensures HasPage(mem, pd, i0, i1) && g == PageAt(mem, pd, i0, i1) {
      assert Backed(mem, own, g);
    }
  }

  lemma UnmapTable(mem: Memory, own: Ownership, limit: nat, pd: nat, i0: nat)
    requires Inv(mem, own, limit) && Owns(own, pd, Dir) && i0 < WORDS
    ensures Unmapped(own, pd, i0, WORDS) == Unmapped(own, pd, i0 + 1, 0)
    ensures !HasTable(mem, pd, i0) ==> Unmapped(own, pd, i0, 0) == Unmapped(own, pd, i0 + 1, 0)
  {
    forall g | g in own && own[g].Page? && own[g].pd == pd ensures own[g].i1 < WORDS && HasTable(mem, pd, own[g].i0) {
      assert Backed(mem, own, g);
    }
  }

  lemma UnmapStart(mem: Memory, own: Ownership, limit: nat, pd: nat)
    requires Inv(mem, own, limit)
    ensures Unmapped(own, pd, USER, 0) == own
  {
    forall g | g in own && own[g].Page? ensures own[g].i0 >= USER {
      assert Backed(mem, own, g);
    }
  }

  // ------------------------------------------------------------------
  // While an address space is torn down

  predicate LiveAt(m0: Memory, mem: Memory, own: Ownership, f: nat) {
    f in own && !own[f].Free? ==> f < |m0| && f < |mem| && mem[f] == m0[f]
  }

  /** Every frame that is not free has the contents it had in `m0`. */
  ghost predicate LiveKept(m0: Memory, mem: Memory, own: Ownership) {
    forall f {:trigger LiveAt(m0, mem, own, f)} :: LiveAt(m0, mem, own, f)
  }

  lemma LiveKeptFree(m0: Memory, mem: Memory, own: Ownership, mem': Memory, p: nat)
    requires LiveKept(m0, mem, own) && |mem'| == |mem| && p in own
    requires forall f | 0 <= f < |mem| && f != p :: mem'[f] == mem[f]
    ensures LiveKept(m0, mem', own[p := Free])
  {
    var w := own[p := Free];
    forall f ensures LiveAt(m0, mem', w, f) {
      assert LiveAt(m0, mem, own, f);
    }
  }

  lemma DestroyedKeeps(m0: Memory, own: Ownership, mem: Memory, pd: nat)
    requires LiveKept(m0, mem, Destroyed(own, pd))
    ensures OthersKept(m0, own, mem, Destroyed(own, pd), pd)
  {
    var w := Destroyed(own, pd);
    forall f ensures OtherKept(m0, own, mem, w, pd, f) {
      assert LiveAt(m0, mem, w, f);
    }
  }

  lemma TearStart(mem: Memory, own: Ownership, limit: nat, pd: nat)
    requires Inv(mem, own, limit)
    ensures forall f :: Owns(TornDown(own, pd, 0, 0), f, Free) <==> Owns(own, f, Free)
    ensures LiveKept(mem, mem, TornDown(own, pd, 0, 0))
  {
  }

  lemma UsesKeptFinish(m0: Memory, w0: Ownership, mem: Memory, w: Ownership, pd: nat, t: nat)
    requires UsesKept(m0, w0, mem, w, pd) && Owns(w, pd, Loose) && Owns(w, t, Loose)
    ensures UsesKept(m0, w0, mem, w[pd := Dir][t := Table(pd, 0)], pd)
  {
    var own := w[pd := Dir][t := Table(pd, 0)];
    forall f ensures UseKept(m0, w0, mem, own, pd, f) {
      assert UseKept(m0, w0, mem, w, pd, f);
    }
  }

  // ------------------------------------------------------------------
  // Which frames an operation leaves loose, and which directories it makes

  predicate NewAt(w0: Ownership, w: Ownership, loose: set<int>, dirs: set<int>, f: int) {
    && (Owns(w, f, Loose) ==> Owns(w0, f, Loose) || f in loose)
    && (Owns(w, f, Dir) ==> Owns(w0, f, Dir) || f in dirs)
  }

  /** Loose frames and directories are those there were, and the ones named here. */
  ghost predicate OnlyNew(w0: Ownership, w: Ownership, loose: set<int>, dirs: set<int>) {
    forall f {:trigger NewAt(w0, w, loose, dirs, f)} :: NewAt(w0, w, loose, dirs, f)
  }

  lemma OnlyNewTrans(w0: Ownership, w1: Ownership, w2: Ownership, l1: set<int>, l2: set<int>, l: set<int>)
    requires OnlyNew(w0, w1, l1, {}) && OnlyNew(w1, w2, l2, {}) && l1 <= l && l2 <= l
    ensures OnlyNew(w0, w2, l, {})
  {
    forall f ensures NewAt(w0, w2, l, {}, f) {
      assert NewAt(w0, w1, l1, {}, f) && NewAt(w1, w2, l2, {}, f);
    }
  }

  /** A frame given a use is loose no longer. */
  lemma OnlyNewUsed(w0: Ownership, w1: Ownership, w2: Ownership, p: nat)
    requires OnlyNew(w0, w1, {p}, {}) && OnlyNew(w1, w2, {}, {}) && p in w2 && !w2[p].Loose?
    ensures OnlyNew(w0, w2, {}, {})
  {
    forall f ensures NewAt(w0, w2, {}, {}, f) {
      assert NewAt(w0, w1, {p}, {}, f) && NewAt(w1, w2, {}, {}, f);
    }
  }

  lemma OnlyNewUnmapped(own: Ownership, pd: nat)
    ensures OnlyNew(own, Unmapped(own, pd, WORDS, 0), {}, {}) && OnlyNew(own, Destroyed(own, pd), {}, {})
  {
    forall f ensures NewAt(own, Unmapped(own, pd, WORDS, 0), {}, {}, f) { }
    forall f ensures NewAt(own, Destroyed(own, pd), {}, {}, f) { }
  }

  /** No frame is loose and `spaces` are the directories. */
  ghost predicate Tidy(own: Ownership, spaces: set<nat>) {
    (forall f | f in own :: !own[f].Loose?) && (forall pd :: pd in spaces <==> Owns(own, pd, Dir))
  }

  lemma StillTidy(w0: Ownership, w: Ownership, spaces: set<nat>, dirs: set<int>, now: set<nat>)
    requires Tidy(w0, spaces) && OnlyNew(w0, w, {}, dirs) && (forall pd | pd in now :: Owns(w, pd, Dir))
    requires forall pd: nat | (pd in spaces || pd in dirs) && Owns(w, pd, Dir) :: pd in now
    ensures Tidy(w, now)
  {
    forall f | f in w ensures !w[f].Loose? { assert NewAt(w0, w, {}, dirs, f); }
    forall pd | Owns(w, pd, Dir) ensures pd in now { assert NewAt(w0, w, {}, dirs, pd); }
  }

  /** Without an address space and without loose frames, every frame handed out is free. */
  lemma AllBack(mem: Memory, own: Ownership, limit: nat)
    requires Inv(mem, own, limit) && (forall f | f in own :: !own[f].Loose?) && (forall pd :: !Owns(own, pd, Dir))
    ensures forall f | f in own :: own[f] == Free
  {
    forall f | f in own ensures own[f] == Free {
      assert Backed(mem, own, f);
      assert own[f].Dir? ==> Owns(own, f, Dir);
    }
  }

  // ------------------------------------------------------------------
  // Isolation of address spaces from one another

  /** The address spaces named, except `pd`, map the same pages with the same contents. */
  ghost predicate OthersSame(m0: Memory, mem: Memory, spaces: set<nat>, pd: nat) {
    forall q {:trigger SameSpace(m0, mem, q)} | q in spaces && q != pd :: SameSpace(m0, mem, q)
  }

  ghost predicate AllDirs(own: Ownership, spaces: set<nat>) {
    forall q | q in spaces :: Owns(own, q, Dir)
  }

  lemma GrowIsolates(m0: Memory, w0: Ownership, mem: Memory, w: Ownership, limit: nat, spaces: set<nat>, pd: nat)
    requires Inv(m0, w0, limit) && Inv(mem, w, limit) && UsesKept(m0, w0, mem, w, pd) && AllDirs(w0, spaces)
    ensures AllDirs(w, spaces) && OthersSame(m0, mem, spaces, pd)
  {
    forall q | q in spaces ensures Owns(w, q, Dir) && (q != pd ==> SameSpace(m0, mem, q)) {
      assert UseKept(m0, w0, mem, w, pd, q);
      SameSpaceSelf(m0, w0, limit, q);
      if q != pd { SameSpaceKept(m0, m0, w0, mem, w, limit, pd, q); }
    }
  }

  lemma ShrinkIsolates(m0: Memory, w0: Ownership, mem: Memory, w: Ownership, limit: nat, spaces: set<nat>, pd: nat)
    requires Inv(m0, w0, limit) && Inv(mem, w, limit) && OthersKept(m0, w0, mem, w, pd) && AllDirs(w0, spaces)
    ensures AllDirs(w, spaces - {pd}) && OthersSame(m0, mem, spaces, pd)
  {
    forall q | q in spaces && q != pd ensures Owns(w, q, Dir) && SameSpace(m0, mem, q) {
      OthersKeptSpaces(m0, w0, mem, w, limit, pd, q);
    }
  }

  /** Work on `cd` after other work that left the spaces as they were. */
  lemma StillIsolated(m0: Memory, m1: Memory, w1: Ownership, mem: Memory, w: Ownership, limit: nat, spaces: set<nat>, cd: nat)
    requires Inv(m1, w1, limit) && Inv(mem, w, limit) && UsesKept(m1, w1, mem, w, cd) && AllDirs(w1, spaces)
    requires OthersSame(m0, m1, spaces, cd)
    ensures OthersSame(m0, mem, spaces, cd)
  {
    forall q | q in spaces && q != cd ensures SameSpace(m0, mem, q) {
      SameSpaceKept(m0, m1, w1, mem, w, limit, cd, q);
    }
  }

  predicate TwinAt(mem: Memory, pd: nat, cd: nat, i0: nat, i1: nat) {
    && (HasPage(mem, cd, i0, i1) <==> HasPage(mem, pd, i0, i1))
    && (HasPage(mem, cd, i0, i1) ==>
          var (f, g) := (PageAt(mem, cd, i0, i1), PageAt(mem, pd, i0, i1));
          f != g && 0 <= f < |mem| && 0 <= g < |mem| && mem[f] == mem[g])
  }

  /** Two address spaces with the same user pages, equal in contents and in frames apart. */
  ghost predicate Twins(mem: Memory, pd: nat, cd: nat) {
    forall i0, i1 {:trigger TwinAt(mem, pd, cd, i0, i1)} | USER <= i0 < WORDS && 0 <= i1 < WORDS :: TwinAt(mem, pd, cd, i0, i1)
  }

  ghost predicate NoUserPage(mem: Memory, pd: nat) {
    forall i0, i1 | USER <= i0 < WORDS && 0 <= i1 < WORDS :: !HasPage(mem, pd, i0, i1)
  }

  lemma MirrorIsTwin(m0: Memory, mem: Memory, own: Ownership, limit: nat, pd: nat, cd: nat)
    requires Inv(mem, own, limit) && Owns(own, pd, Dir) && Owns(own, cd, Dir) && pd != cd
    requires SameSpace(m0, mem, pd) && Mirrors(m0, mem, pd, cd, WORDS, 0)
    ensures Twins(mem, pd, cd)
  {
    forall i0, i1 | USER <= i0 < WORDS && 0 <= i1 < WORDS ensures TwinAt(mem, pd, cd, i0, i1) {
      MirrorComplete(m0, mem, own, limit, pd, cd, i0, i1);
    }
  }

  /** A store into a page of `pd` touches no frame outside `pd`. */
  lemma StoreStaysInside(mem: Memory, own: Ownership, limit: nat, pd: nat, i0: nat, i1: nat, f: nat, x: Frame)
    requires Inv(mem, own, limit) && Owns(own, pd, Dir) && USER <= i0 < WORDS && i1 < WORDS
    requires HasPage(mem, pd, i0, i1) && PageAt(mem, pd, i0, i1) == f && f < |mem|
    ensures OthersKept(mem, own, mem[f := x], own, pd)
  {
    assert PageOwned(mem, own, pd, i0, i1);
    var m := mem[f := x];
    forall g ensures OtherKept(mem, own, m, own, pd, g) { }
  }

  lemma OthersSelf(mem: Memory, own: Ownership, limit: nat, spaces: set<nat>)
    requires Inv(mem, own, limit) && AllDirs(own, spaces)
    ensures forall q | q in spaces :: SameSpace(mem, mem, q)
  {
    forall q | q in spaces ensures SameSpace(mem, mem, q) { SameSpaceSelf(mem, own, limit, q); }
  }

  // ------------------------------------------------------------------
  // What the processor sees

  /** Address `va` is byte `off` of page `i1` of region `i0`: 1024 regions of 1024 pages of
      4096 bytes. */
  ghost predicate Splits(va: nat, i0: nat, i1: nat, off: nat) {
    i0 < 1024 && i1 < 1024 && off < 4096 && va == 0x40_0000 * i0 + 0x1000 * i1 + off
  }

  /** The two words that translate page `i1` of region `i0` to frame `f`: the directory's
      names a table, and the table's names the frame; in both, bits 0 to 2 are present,
      writable and user, and `flags` are those of the table's. */
  ghost predicate Walks(mem: Memory, pd: nat, i0: nat, i1: nat, f: nat, flags: nat) {
    && pd < |mem| && i0 < |mem[pd]| && f < |mem|
    && exists t: nat {:trigger mem[t]} :: t < |mem| && i1 < |mem[t]| && mem[pd][i0] == 0x1000 * t + 7 && mem[t][i1] == 0x1000 * f + flags
  }

  /** The two words do not translate it. */
  ghost predicate Faults(mem: Memory, pd: nat, i0: nat, i1: nat) {
    && pd < |mem| && i0 < |mem[pd]|
    && (mem[pd][i0] % 2 == 0
        || exists t: nat {:trigger mem[t]} :: t < |mem| && i1 < |mem[t]| && mem[pd][i0] == 0x1000 * t + 7 && mem[t][i1] % 2 == 0)
  }

  /** Every 32-bit address splits in one way. */
  lemma SplitOf(va: nat) returns (i0: nat, i1: nat, off: nat)
    requires va < 0x1_0000_0000
    ensures Splits(va, i0, i1, off)
    ensures forall j0, j1, o | Splits(va, j0, j1, o) :: j0 == i0 && j1 == i1 && o == off
  {
    i0, i1, off := va / 0x40_0000, va % 0x40_0000 / 0x1000, va % 0x1000;
  }

  /** Every user page of every address space is writable and open to the user, and what is
      not a page of it faults. */
  lemma UserWalks(mem: Memory, own: Ownership, limit: nat, pd: nat, i0: nat, i1: nat)
    requires Inv(mem, own, limit) && Owns(own, pd, Dir) && USER <= i0 < WORDS && i1 < WORDS
    ensures HasPage(mem, pd, i0, i1) ==>
      0 <= PageAt(mem, pd, i0, i1) < limit && Walks(mem, pd, i0, i1, PageAt(mem, pd, i0, i1), 7)
    ensures !HasPage(mem, pd, i0, i1) ==> Faults(mem, pd, i0, i1)
  {
    assert TableOwned(mem, own, pd, i0) && PageOwned(mem, own, pd, i0, i1);
    if HasTable(mem, pd, i0) {
      var t := TableAt(mem, pd, i0);
      assert mem[pd][i0] == 0x1000 * t + 7 && |mem[t]| == WORDS;
    }
  }

  lemma WalksOrFaults(mem: Memory, pd: nat, i0: nat, i1: nat, f: nat, flags: nat)
    requires Walks(mem, pd, i0, i1, f, flags) && flags % 2 == 1
    ensures !Faults(mem, pd, i0, i1)
    ensures forall g: nat, b: nat | Walks(mem, pd, i0, i1, g, b) && flags < 0x1000 && b < 0x1000 :: g == f && b == flags
  {
    EvenFrame(f, flags);
  }

  /** The kernel's pages, from 1 up to the end of memory, are where their addresses say, closed
      to the user; below the user's addresses all else faults. */
  lemma KernelWalks(mem: Memory, own: Ownership, limit: nat, pd: nat, i0: nat, i1: nat)
    requires Inv(mem, own, limit) && Owns(own, pd, Dir) && i0 < USER && i1 < WORDS
    ensures if i0 == 0 && 1 <= i1 < limit then Walks(mem, pd, i0, i1, i1, 3) else Faults(mem, pd, i0, i1)
  {
    assert KernelMapped(mem, limit, pd) && TableOwned(mem, own, pd, i0);
    if i0 == 0 {
      var t := TableAt(mem, pd, 0);
      assert mem[pd][0] == 0x1000 * t + 7 && |mem[t]| == WORDS;
    }
  }
}
