/** The frame allocator and the address-space operations of kernel/vmm.cc, in place on
    physical memory. */
module Vmm {
  import opened Common
  import opened Paging

  /** What the kernel asks of address spaces. */
  datatype Request = Create | Fault(pd: nat, va: nat) | Duplicate(pd: nat) | Exec(pd: nat) | Destroy(pd: nat)
    | Store(pd: nat, va: nat, word: int)

  datatype Fault = Killed | Mapped | Panicked

  /** Directory and table index of a virtual address. */
  function I0(va: nat): nat { va / 0x40_0000 }
  function I1(va: nat): nat { va / 0x1000 % 0x400 }

  /** The indices are those of the page that the address lies in. */
  lemma IndicesSplit(va: nat, i0: nat, i1: nat, off: nat)
    requires Splits(va, i0, i1, off)
    ensures I0(va) == i0 && I1(va) == i1 && va / 4 % WORDS == off / 4
  {
    var page := 0x400 * i0 + i1;
    assert va == 0x1000 * page + off;
    PageNumber(va, page, off);
    DivideBy1024(page, i0, i1);
    WordNumber(va, page, off);
    DivideBy1024(va / 4, page, off / 4);
  }

  lemma PageNumber(va: nat, page: nat, off: nat)
    requires va == 0x1000 * page + off && off < 0x1000
    ensures va / 0x1000 == page && va / 0x40_0000 == page / 0x400
  {
  }

  lemma WordNumber(va: nat, page: nat, off: nat)
    requires va == 0x1000 * page + off && off < 0x1000
    ensures va / 4 == 0x400 * page + off / 4 && off / 4 < 0x400
  {
    assert va == 4 * (0x400 * page + off / 4) + off % 4;
  }

  lemma DivideBy1024(n: nat, q: nat, r: nat)
    requires n == 0x400 * q + r && r < 0x400
    ensures n / 0x400 == q && n % 0x400 == r
  {
  }

  /** The page of address `va` is mapped for the user to read and write, and zero if it was not
      mapped before. */
  ghost predicate PageThere(m0: Memory, mem: Memory, pd: nat, va: nat) {
    forall i0: nat, i1: nat, off: nat {:trigger Splits(va, i0, i1, off)} | Splits(va, i0, i1, off) ::
      exists f: nat {:trigger Walks(mem, pd, i0, i1, f, 7)} ::
        Walks(mem, pd, i0, i1, f, 7) && (Faults(m0, pd, i0, i1) ==> |mem[f]| == 1024 && forall k | 0 <= k < 1024 :: mem[f][k] == 0)
  }

  /** If the page of address `va` was mapped, the word at `va` is `word` now. */
  ghost predicate WordThere(m0: Memory, mem: Memory, pd: nat, va: nat, word: int) {
    forall i0: nat, i1: nat, off: nat, f: nat {:trigger Splits(va, i0, i1, off), Walks(m0, pd, i0, i1, f, 7)} |
      Splits(va, i0, i1, off) && Walks(m0, pd, i0, i1, f, 7) ::
        f < |mem| && off / 4 < |mem[f]| && Walks(mem, pd, i0, i1, f, 7) && mem[f][off / 4] == word
  }

  ghost predicate NewOne(mem: Memory, spaces: set<nat>, now: set<nat>, pd: nat) {
    now == spaces + {pd} && pd !in spaces && NoUserPage(mem, pd)
  }

  ghost predicate NewTwin(mem: Memory, spaces: set<nat>, now: set<nat>, pd: nat, cd: nat) {
    now == spaces + {cd} && cd !in spaces && Twins(mem, pd, cd)
  }

  /** What a request does to the address spaces: all but the one it names keep their pages
      and contents. */
  ghost predicate Served(r: Request, m0: Memory, mem: Memory, spaces: set<nat>, now: set<nat>) {
    match r
    case Create => (exists pd :: NewOne(mem, spaces, now, pd)) && forall q | q in spaces :: SameSpace(m0, mem, q)
    case Fault(pd, va) =>
      && now == spaces && OthersSame(m0, mem, spaces, pd)
      && (pd in spaces && 0x8000_0000 <= va < 0x1_0000_0000 ==> PageThere(m0, mem, pd, va))
    case Duplicate(pd) =>
      && (pd in spaces ==> exists cd :: NewTwin(mem, spaces, now, pd, cd)) && (pd !in spaces ==> now == spaces)
      && forall q | q in spaces :: SameSpace(m0, mem, q)
    case Exec(pd) => now == spaces && OthersSame(m0, mem, spaces, pd) && (pd in spaces ==> NoUserPage(mem, pd))
    case Destroy(pd) => now == spaces - {pd} && OthersSame(m0, mem, spaces, pd)
    case Store(pd, va, word) =>
      && now == spaces && OthersSame(m0, mem, spaces, pd)
      && (pd in spaces && 0x8000_0000 <= va < 0x1_0000_0000 ==> WordThere(m0, mem, pd, va, word))
  }

  lemma PageIsThere(m0: Memory, w0: Ownership, mem: Memory, own: Ownership, limit: nat, pd: nat, va: nat)
    requires Inv(m0, w0, limit) && Owns(w0, pd, Dir) && Inv(mem, own, limit) && Owns(own, pd, Dir)
    requires 0x8000_0000 <= va < 0x1_0000_0000 && HasPage(mem, pd, I0(va), I1(va))
    requires HasPage(m0, pd, I0(va), I1(va)) || (0 <= PageAt(mem, pd, I0(va), I1(va)) < |mem| && mem[PageAt(mem, pd, I0(va), I1(va))] == ZeroFrame())
    ensures PageThere(m0, mem, pd, va)
  {
    forall i0: nat, i1: nat, off: nat | Splits(va, i0, i1, off)
      ensures exists f: nat {:trigger Walks(mem, pd, i0, i1, f, 7)} ::
        Walks(mem, pd, i0, i1, f, 7) && (Faults(m0, pd, i0, i1) ==> |mem[f]| == 1024 && forall k | 0 <= k < 1024 :: mem[f][k] == 0)
    {
      IndicesSplit(va, i0, i1, off);
      UserWalks(m0, w0, limit, pd, i0, i1);
      UserWalks(mem, own, limit, pd, i0, i1);
      if HasPage(m0, pd, i0, i1) { WalksOrFaults(m0, pd, i0, i1, PageAt(m0, pd, i0, i1), 7); }
      assert Walks(mem, pd, i0, i1, PageAt(mem, pd, i0, i1), 7);
    }
  }

  lemma WordIsThere(m0: Memory, mem: Memory, own: Ownership, limit: nat, pd: nat, va: nat, word: int)
    requires Inv(m0, own, limit) && Inv(mem, own, limit) && Owns(own, pd, Dir) && 0x8000_0000 <= va < 0x1_0000_0000
    requires HasPage(m0, pd, I0(va), I1(va)) ==>
      var p := PageAt(m0, pd, I0(va), I1(va));
      && Translate(mem, pd, I0(va), I1(va)) == p
      && 0 <= p < |mem| && |mem[p]| == WORDS && mem[p][va / 4 % WORDS] == word
    ensures WordThere(m0, mem, pd, va, word)
  {
    forall i0: nat, i1: nat, off: nat, f: nat | Splits(va, i0, i1, off) && Walks(m0, pd, i0, i1, f, 7)
      ensures f < |mem| && off / 4 < |mem[f]| && Walks(mem, pd, i0, i1, f, 7) && mem[f][off / 4] == word
    {
      IndicesSplit(va, i0, i1, off);
      WalksOrFaults(m0, pd, i0, i1, f, 7);
      UserWalks(m0, own, limit, pd, i0, i1);
      TranslateSign(mem, own, limit, pd, i0, i1);
      UserWalks(mem, own, limit, pd, i0, i1);
    }
  }

  class PhysMem {
    const frames: array<Frame>
    const first: nat
    var avail: nat
    /** Head of the free list, 0 for none. */
    var firstFree: nat
    ghost var own: Ownership
    ghost var free: seq<nat>

    ghost predicate Valid()
      reads this, frames
    {
      && 0 < first <= avail <= frames.Length
      && (forall f :: f in own <==> first <= f < avail)
      && Inv(frames[..], own, frames.Length)
      && FreeListed(frames[..], own, firstFree, free)
    }

    /** PhysMem::init: hand out frames from `start` up to the end of memory. */
    constructor (memory: array<Frame>, start: nat)
      requires 0 < start <= memory.Length <= WORDS && forall f | 0 <= f < memory.Length :: |memory[f]| == WORDS
      ensures Valid() && frames == memory && first == start && own == map[]
    {
      frames, first, avail, firstFree := memory, start, start, 0;
      own, free := map[], [];
    }

    /** No frame is left to hand out. */
    ghost predicate Exhausted()
      reads this
    {
      free == [] && avail == frames.Length
    }

    /** A zeroed frame; failure is the panic when memory is used up. */
    method Alloc() returns (ok: bool, p: nat)
      requires Valid()
      modifies this, frames
      ensures Valid()
      ensures ok <==> old(free) != [] || old(avail) < frames.Length
      ensures ok ==> 0 < p < frames.Length && (p !in old(own) || old(own)[p].Free?)
      ensures ok ==> own == old(own)[p := Loose] && frames[..] == old(frames[..])[p := ZeroFrame()]
      ensures !ok ==> Exhausted() && own == old(own) && frames[..] == old(frames[..])
    {
      ghost var mem, w, fs := frames[..], own, free;
      if firstFree != 0 {
        p := firstFree;
        PopFree(mem, w, firstFree, fs);
        firstFree := FrameOf(frames[p][0]);
        free := fs[1..];
      } else {
        if avail == frames.Length { return false, 0; }
        p := avail;
        avail := avail + 1;
        FreeListKept(mem, w, mem, w[p := Loose], firstFree, free);
      }
      own := w[p := Loose];
      Relabel(mem, w, frames.Length, p, Loose);
      DataWrite(mem, own, frames.Length, p, ZeroFrame());
      FreeListKept(mem, own, mem[p := ZeroFrame()], own, firstFree, free);
      frames[p] := ZeroFrame();
      ok := true;
    }

    /** Give back a frame that is part of no address space any more. */
    method FreeFrame(p: nat)
      requires Valid() && Owns(own, p, Loose) && p < frames.Length
      modifies this, frames
      ensures Valid() && own == old(own)[p := Free]
      ensures forall f | 0 <= f < frames.Length && f != p :: frames[f] == old(frames[f])
    {
      ghost var mem, w := frames[..], own;
      PushFree(mem, w, firstFree, free, p);
      frames[p] := frames[p][0 := Entry(firstFree, 0)];
      firstFree, free, own := p, [p] + free, w[p := Free];
      DataWrite(mem, w, frames.Length, p, frames[p]);
      Relabel(frames[..], w, frames.Length, p, Free);
    }

    /** Write a frame that no translation consults and that is not on the free list. */
    method WriteData(p: nat, x: Frame)
      requires Valid() && p in own && (own[p].Loose? || own[p].Page?) && |x| == WORDS
      modifies frames
      ensures Valid() && p < frames.Length && frames[..] == old(frames[..])[p := x]
    {
      ghost var mem := frames[..];
      frames[p] := x;
      DataWrite(mem, own, frames.Length, p, x);
      FreeListKept(mem, own, frames[..], own, firstFree, free);
    }
  
    /** The table that translates `va`, allocated if there is none.  A directory that is
        still being built is loose, and so are its tables. */
    method GetPTE(pd: nat, va: nat) returns (ok: bool, t: nat)
      requires Valid() && I0(va) < WORDS && pd < frames.Length
      requires (Owns(own, pd, Dir) && I0(va) >= USER) || Owns(own, pd, Loose)
      requires HasTable(frames[..], pd, I0(va)) && Owns(own, pd, Loose) ==> 0 <= TableAt(frames[..], pd, I0(va)) < frames.Length
      modifies this, frames
      ensures !ok ==> Exhausted()
      ensures ok ==> Valid() && t < frames.Length
      ensures ok && HasTable(old(frames[..]), pd, I0(va)) ==>
        frames[..] == old(frames[..]) && own == old(own) && t == TableAt(old(frames[..]), pd, I0(va))
      ensures ok && !HasTable(old(frames[..]), pd, I0(va)) ==>
        && (t !in old(own) || old(own)[t].Free?) && 0 < t
        && own == old(own)[t := if old(own)[pd].Dir? then Table(pd, I0(va)) else Loose]
        && frames[..] == old(frames[..])[t := ZeroFrame()][pd := old(frames[..])[pd][I0(va) := Entry(t, 7)]]
    {
      var i0 := I0(va);
      assert TableOwned(frames[..], own, pd, i0) || own[pd].Loose?;
      if !Present(frames[pd][i0]) {
        ok, t := Alloc();
        if !ok { return; }
        ghost var mem, w := frames[..], own;
        assert !HasTable(mem, pd, i0);
        frames[pd] := frames[pd][i0 := Entry(t, 7)];
        if w[pd].Dir? {
          AdoptTable(mem, w, frames.Length, pd, i0, t);
          own := w[t := Table(pd, i0)];
        } else {
          DataWrite(mem, w, frames.Length, pd, frames[pd]);
        }
        FreeListKept(mem, w, frames[..], own, firstFree, free);
        return;
      }
      ok, t := true, FrameOf(frames[pd][i0]);
    }

    /** getPTE on a finished directory: no page moves. */
    method UserTable(pd: nat, va: nat) returns (ok: bool, t: nat)
      requires Valid() && USER <= I0(va) < WORDS && pd < frames.Length && Owns(own, pd, Dir)
      modifies this, frames
      ensures !ok ==> Exhausted()
      ensures ok ==> Valid() && t < frames.Length && HasTable(frames[..], pd, I0(va)) && t == TableAt(frames[..], pd, I0(va))
      ensures ok ==> Owns(own, pd, Dir) && UsesKept(old(frames[..]), old(own), frames[..], own, pd) && OnlyNew(old(own), own, {}, {})
      ensures ok ==> forall p | Owns(old(own), p, Loose) && p < frames.Length :: Owns(own, p, Loose) && frames[p] == old(frames[p])
      ensures ok ==> forall j0, j1 {:trigger Translate(frames[..], pd, j0, j1)} | USER <= j0 < WORDS && 0 <= j1 < WORDS ::
        Translate(frames[..], pd, j0, j1) == Translate(old(frames[..]), pd, j0, j1)
    {
      ghost var m0, w0 := frames[..], own;
      ok, t := GetPTE(pd, va);
      if ok && !HasTable(m0, pd, I0(va)) {
        TableWrites(m0, w0, frames.Length, pd, I0(va), t);
      }
      if ok { forall f ensures NewAt(w0, own, {}, {}, f) { } }
    }

    /** pmap of a loose frame for the user, writable, at an address not mapped so far. */
    method MapUser(pd: nat, va: nat, p: nat) returns (ok: bool)
      requires Valid() && USER <= I0(va) < WORDS && pd < frames.Length && p < frames.Length
      requires Owns(own, pd, Dir) && Owns(own, p, Loose) && !HasPage(frames[..], pd, I0(va), I1(va))
      modifies this, frames
      ensures !ok ==> Exhausted()
      ensures ok ==> Valid() && Owns(own, p, Page(pd, I0(va), I1(va))) && frames[p] == old(frames[p])
      ensures ok ==> MapsOnly(old(frames[..]), frames[..], pd, I0(va), I1(va), p)
      ensures ok ==> UsesKept(old(frames[..]), old(own), frames[..], own, pd) && OnlyNew(old(own), own, {}, {})
    {
      ghost var m0, w0 := frames[..], own;
      var i0, i1 := I0(va), I1(va);
      var t;
      ok, t := UserTable(pd, va);
      if !ok { return; }
      ghost var m1, w1 := frames[..], own;
      assert Translate(m1, pd, i0, i1) == Translate(m0, pd, i0, i1);
      TranslateSign(m1, w1, frames.Length, pd, i0, i1);
      PageWrites(m1, w1, frames.Length, pd, i0, i1, p);
      AdoptPage(m1, w1, frames.Length, pd, i0, i1, p);
      frames[t] := frames[t][i1 := Entry(p, 7)];
      own := w1[p := Page(pd, i0, i1)];
      FreeListKept(m1, w1, frames[..], own, firstFree, free);
      UsesKeptTrans(m0, w0, m1, w1, frames[..], own, pd);
      forall f ensures NewAt(w1, own, {}, {}, f) { }
      OnlyNewTrans(w0, w1, own, {}, {}, {});
    }

    /** A page fault in address space `pd`, taken on a page it does not map. */
    method HandlePageFault(pd: nat, va: nat) returns (r: Fault)
      requires Valid() && pd < frames.Length && Owns(own, pd, Dir) && va < 0x1_0000_0000
      requires va >= 0x8000_0000 ==> !HasPage(frames[..], pd, I0(va), I1(va))
      modifies this, frames
      ensures r == Killed <==> va < 0x1000
      ensures r == Killed ==> Valid() && own == old(own) && frames[..] == old(frames[..])
      ensures 0x1000 <= va < 0x8000_0000 ==> r == Panicked
      ensures r == Panicked ==> va < 0x8000_0000 || Exhausted()
      ensures r == Mapped ==>
        && Valid() && Owns(own, pd, Dir) && UsesKept(old(frames[..]), old(own), frames[..], own, pd) && OnlyNew(old(own), own, {}, {})
        && HasPage(frames[..], pd, I0(va), I1(va))
        && MapsOnly(old(frames[..]), frames[..], pd, I0(va), I1(va), PageAt(frames[..], pd, I0(va), I1(va)))
        && 0 <= PageAt(frames[..], pd, I0(va), I1(va)) < frames.Length
        && frames[PageAt(frames[..], pd, I0(va), I1(va))] == ZeroFrame()
        && PageThere(old(frames[..]), frames[..], pd, va)
    {
      if va < 0x1000 { return Killed; }
      if va < 0x8000_0000 { return Panicked; }
      ghost var m0, w0 := frames[..], own;
      var ok, p := Alloc();
      if !ok { return Panicked; }
      ghost var m1, w1 := frames[..], own;
      AllocTranslates(m0, w0, frames.Length, p, ZeroFrame(), pd);
      TranslateSign(m0, w0, frames.Length, pd, I0(va), I1(va));
      TranslateSign(m1, w1, frames.Length, pd, I0(va), I1(va));
      ok := MapUser(pd, va, p);
      if !ok { return Panicked; }
      UsesKeptTrans(m0, w0, m1, w1, frames[..], own, pd);
      assert UseKept(m0, w0, frames[..], own, pd, pd);
      forall f ensures NewAt(w0, w1, {p}, {}, f) { }
      OnlyNewUsed(w0, w1, own, p);
      TranslateSign(frames[..], own, frames.Length, pd, I0(va), I1(va));
      PageIsThere(m0, w0, frames[..], own, frames.Length, pd, va);
      r := Mapped;
    }
  
    /** pmap(va, va) for the kernel, on a directory still being built, in address order. */
    method MapKernel(pd: nat, v: nat, ghost s: int) returns (ok: bool, ghost t: int)
      requires Valid() && Owns(own, pd, Loose) && 0 < v < frames.Length && KernelSoFar(frames[..], own, pd, v, s)
      modifies this, frames
      ensures !ok ==> Exhausted()
      ensures ok ==> Valid() && Owns(own, pd, Loose) && KernelSoFar(frames[..], own, pd, v + 1, t)
      ensures ok ==> UsesKept(old(frames[..]), old(own), frames[..], own, pd) && OnlyNew(old(own), own, {t}, {}) && (v > 1 ==> t == s)
    {
      ghost var m0, w0 := frames[..], own;
      var va := 0x1000 * v;
      assert I0(va) == 0 && I1(va) == v;
      EntryFields(s, 7);
      assert HasTable(m0, pd, 0) <==> v > 1;
      var pt;
      ok, pt := GetPTE(pd, va);
      t := pt;
      if !ok { return; }
      ghost var m1 := frames[..];
      KernelStep(m0, w0, m1, own, frames.Length, pd, v, pt);
      frames[pt] := frames[pt][I1(va) := Entry(v, 3)];
      DataWrite(m1, own, frames.Length, pt, frames[pt]);
      FreeListKept(m1, own, frames[..], own, firstFree, free);
      forall f ensures NewAt(w0, own, {t}, {}, f) { }
    }

    /** AddressSpace::AddressSpace: a directory that maps the kernel and nothing else. */
    method NewSpace() returns (ok: bool, pd: nat)
      requires Valid()
      modifies this, frames
      ensures !ok ==> Exhausted()
      ensures ok ==> Valid() && pd < frames.Length && Owns(own, pd, Dir) && (pd !in old(own) || old(own)[pd].Free?)
      ensures ok ==> forall i0, i1 | USER <= i0 < WORDS && 0 <= i1 < WORDS :: !HasPage(frames[..], pd, i0, i1)
      ensures ok ==> UsesKept(old(frames[..]), old(own), frames[..], own, pd) && OnlyNew(old(own), own, {}, {pd})
    {
      ghost var m0, w0 := frames[..], own;
      ok, pd := Alloc();
      if !ok { return; }
      ghost var t := pd;
      forall f ensures NewAt(w0, own, {pd, t}, {}, f) { }
      var v := 1;
      while v < frames.Length
        invariant 1 <= v <= frames.Length
        invariant Valid() && Owns(own, pd, Loose) && KernelSoFar(frames[..], own, pd, v, t)
        invariant UsesKept(m0, w0, frames[..], own, pd) && OnlyNew(w0, own, {pd, t}, {}) && (v == 1 ==> t == pd)
      {
        ghost var m1, w1, s := frames[..], own, t;
        ok, t := MapKernel(pd, v, t);
        if !ok { return; }
        UsesKeptTrans(m0, w0, m1, w1, frames[..], own, pd);
        OnlyNewTrans(w0, w1, own, {pd, s}, {t}, {pd, t});
        v := v + 1;
      }
      UsesKeptFinish(m0, w0, frames[..], own, pd, t);
      ghost var w := own;
      Finish(pd, t);
      forall f ensures NewAt(w0, own, {}, {pd}, f) { assert NewAt(w0, w, {pd, t}, {}, f); }
    }

    /** A fully built directory becomes one. */
    ghost method Finish(pd: nat, t: int)
      requires Valid() && Owns(own, pd, Loose) && frames.Length > 1 && KernelSoFar(frames[..], own, pd, frames.Length, t)
      modifies this`own
      ensures Valid() && own == old(own)[pd := Dir][t := Table(pd, 0)]
      ensures forall i0, i1 | USER <= i0 < WORDS && 0 <= i1 < WORDS :: !HasPage(frames[..], pd, i0, i1)
    {
      var w1 := own;
      AdoptDir(frames[..], w1, frames.Length, pd, t);
      own := w1[pd := Dir][t := Table(pd, 0)];
      FreeListKept(frames[..], w1, frames[..], own, firstFree, free);
    }

    /** A loose frame with the contents of frame `src`. */
    method AllocCopy(src: nat, ghost cd: nat) returns (ok: bool, p: nat)
      requires Valid() && Owns(own, cd, Dir) && src in own && own[src].Page? && src < frames.Length
      modifies this, frames
      ensures !ok ==> Exhausted()
      ensures ok ==> Valid() && p < frames.Length && Owns(own, p, Loose) && frames[p] == old(frames[src])
      ensures ok ==> UsesKept(old(frames[..]), old(own), frames[..], own, cd) && Owns(own, cd, Dir) && OnlyNew(old(own), own, {p}, {})
      ensures ok ==> forall j0, j1 {:trigger Translate(frames[..], cd, j0, j1)} | USER <= j0 < WORDS && 0 <= j1 < WORDS ::
        Translate(frames[..], cd, j0, j1) == Translate(old(frames[..]), cd, j0, j1)
    {
      ghost var m0, w0 := frames[..], own;
      ok, p := Alloc();
      if !ok { return; }
      WriteData(p, frames[src]);
      assert frames[..] == m0[p := m0[src]];
      AllocTranslates(m0, w0, frames.Length, p, m0[src], cd);
      forall f ensures NewAt(w0, own, {p}, {}, f) { }
    }

    /** One step of fork: copy a page of `pd` and map the copy at the same place of `cd`. */
    method CopyPage(pd: nat, cd: nat, i0: nat, i1: nat) returns (ok: bool, ghost dest: nat)
      requires Valid() && Owns(own, pd, Dir) && Owns(own, cd, Dir) && pd < frames.Length && cd < frames.Length
      requires USER <= i0 < WORDS && i1 < WORDS && HasPage(frames[..], pd, i0, i1) && !HasPage(frames[..], cd, i0, i1)
      modifies this, frames
      ensures !ok ==> Exhausted()
      ensures ok ==> Valid() && Owns(own, cd, Dir) && UsesKept(old(frames[..]), old(own), frames[..], own, cd) && OnlyNew(old(own), own, {}, {})
      ensures ok ==> MapsOnly(old(frames[..]), frames[..], cd, i0, i1, dest) && dest < frames.Length
      ensures ok ==>
        var src := PageAt(old(frames[..]), pd, i0, i1);
        0 <= src < frames.Length && frames[dest] == old(frames[..])[src]
    {
      ghost var m0, w0 := frames[..], own;
      assert PageOwned(m0, w0, pd, i0, i1);
      TranslateSign(m0, w0, frames.Length, cd, i0, i1);
      var src := FrameOf(frames[FrameOf(frames[pd][i0])][i1]);
      var va := 0x40_0000 * i0 + 0x1000 * i1;
      assert I0(va) == i0 && I1(va) == i1;
      var p;
      ok, p := AllocCopy(src, cd);
      dest := p;
      if !ok { return; }
      ghost var m2, w2 := frames[..], own;
      assert Translate(m2, cd, i0, i1) == Translate(m0, cd, i0, i1);
      TranslateSign(m2, w2, frames.Length, cd, i0, i1);
      ok := MapUser(cd, va, p);
      if !ok { return; }
      UsesKeptTrans(m0, w0, m2, w2, frames[..], own, cd);
      OnlyNewUsed(w0, w2, own, p);
      assert UseKept(m0, w0, frames[..], own, cd, cd);
    }

    /** The inner loop of fork: all pages of one table. */
    method ForkTable(pd: nat, cd: nat, i0: nat, ghost m0: Memory) returns (ok: bool)
      requires Valid() && Owns(own, pd, Dir) && Owns(own, cd, Dir) && pd < frames.Length && cd < frames.Length && pd != cd
      requires USER <= i0 < WORDS && HasTable(frames[..], pd, i0)
      requires |m0| == frames.Length && SameSpace(m0, frames[..], pd) && Mirrors(m0, frames[..], pd, cd, i0, 0)
      modifies this, frames
      ensures !ok ==> Exhausted()
      ensures ok ==> Valid() && Owns(own, pd, Dir) && Owns(own, cd, Dir)
      ensures ok ==> SameSpace(m0, frames[..], pd) && Mirrors(m0, frames[..], pd, cd, i0, WORDS)
      ensures ok ==> UsesKept(old(frames[..]), old(own), frames[..], own, cd) && OnlyNew(old(own), own, {}, {})
    {
      ghost var ma, wa := frames[..], own;
      assert TableOwned(ma, wa, pd, i0);
      var pt := FrameOf(frames[pd][i0]);
      var i1 := 0;
      ok := true;
      while i1 < 1024
        invariant 0 <= i1 <= 1024 && ok
        invariant Valid() && UsesKept(ma, wa, frames[..], own, cd) && OnlyNew(wa, own, {}, {})
        invariant SameSpace(m0, frames[..], pd) && Mirrors(m0, frames[..], pd, cd, i0, i1)
      {
        ghost var mb, wb := frames[..], own;
        assert UseKept(ma, wa, mb, wb, cd, pd) && UseKept(ma, wa, mb, wb, cd, cd) && UseKept(ma, wa, mb, wb, cd, pt);
        assert SameAt(m0, mb, pd, i0, i1) && MirrorAt(m0, mb, pd, cd, i0, i1, i0, i1);
        if Present(frames[pt][i1]) {
          ghost var dest;
          ok, dest := CopyPage(pd, cd, i0, i1);
          if !ok { return; }
          MirrorPage(m0, mb, wb, frames[..], own, frames.Length, pd, cd, i0, i1, dest);
          SameSpaceKept(m0, mb, wb, frames[..], own, frames.Length, cd, pd);
          UsesKeptTrans(ma, wa, mb, wb, frames[..], own, cd);
          OnlyNewTrans(wa, wb, own, {}, {}, {});
        } else {
          MirrorSkip(m0, mb, pd, cd, i0, i1, i0, i1 + 1);
        }
        i1 := i1 + 1;
      }
      assert UseKept(ma, wa, frames[..], own, cd, pd) && UseKept(ma, wa, frames[..], own, cd, cd);
    }

    /** AddressSpace::fork into an address space without user pages. */
    method Fork(pd: nat, cd: nat) returns (ok: bool)
      requires Valid() && Owns(own, pd, Dir) && Owns(own, cd, Dir) && pd < frames.Length && cd < frames.Length && pd != cd
      requires forall i0, i1 | USER <= i0 < WORDS && 0 <= i1 < WORDS :: !HasPage(frames[..], cd, i0, i1)
      modifies this, frames
      ensures !ok ==> Exhausted()
      ensures ok ==> Valid() && Owns(own, pd, Dir) && Owns(own, cd, Dir)
      ensures ok ==> UsesKept(old(frames[..]), old(own), frames[..], own, cd) && OnlyNew(old(own), own, {}, {})
      ensures ok ==> Mirrors(old(frames[..]), frames[..], pd, cd, WORDS, 0) && SameSpace(old(frames[..]), frames[..], pd)
    {
      ghost var m0, w0 := frames[..], own;
      forall j0, j1 | USER <= j0 < WORDS && 0 <= j1 < WORDS ensures MirrorAt(m0, m0, pd, cd, USER, 0, j0, j1) { }
      SameSpaceSelf(m0, w0, frames.Length, pd);
      var i0 := 512;
      ok := true;
      while i0 < 1024
        invariant 512 <= i0 <= 1024 && ok
        invariant Valid() && UsesKept(m0, w0, frames[..], own, cd) && OnlyNew(w0, own, {}, {})
        invariant SameSpace(m0, frames[..], pd) && Mirrors(m0, frames[..], pd, cd, i0, 0)
      {
        ghost var ma, wa := frames[..], own;
        assert UseKept(m0, w0, ma, wa, cd, pd) && UseKept(m0, w0, ma, wa, cd, cd);
        if Present(frames[pd][i0]) {
          ok := ForkTable(pd, cd, i0, m0);
          if !ok { return; }
          UsesKeptTrans(m0, w0, ma, wa, frames[..], own, cd);
          OnlyNewTrans(w0, wa, own, {}, {}, {});
          MirrorSkip(m0, frames[..], pd, cd, i0, WORDS, i0 + 1, 0);
        } else {
          forall j1 | 0 <= j1 < WORDS ensures !HasPage(m0, pd, i0, j1) { assert SameAt(m0, ma, pd, i0, j1); }
          MirrorSkip(m0, ma, pd, cd, i0, 0, i0 + 1, 0);
        }
        i0 := i0 + 1;
      }
      assert UseKept(m0, w0, frames[..], own, cd, pd) && UseKept(m0, w0, frames[..], own, cd, cd);
    }
  
    /** One step of exec: clear the entry of a mapped page and free its frame. */
    method UnmapPage(pd: nat, i0: nat, i1: nat)
      requires Valid() && Owns(own, pd, Dir) && pd < frames.Length && USER <= i0 < WORDS && i1 < WORDS
      requires HasPage(frames[..], pd, i0, i1)
      modifies this, frames
      ensures Valid() && Owns(own, pd, Dir) && frames[pd] == old(frames[pd])
      ensures 0 <= PageAt(old(frames[..]), pd, i0, i1) && own == old(own)[PageAt(old(frames[..]), pd, i0, i1) := Free]
      ensures OthersKept(old(frames[..]), old(own), frames[..], own, pd)
      ensures MapsOnly(old(frames[..]), frames[..], pd, i0, i1, -1)
    {
      ghost var m0, w0 := frames[..], own;
      UnmapWrites(m0, w0, frames.Length, pd, i0, i1);
      DropPage(m0, w0, frames.Length, pd, i0, i1);
      var pt := FrameOf(frames[pd][i0]);
      var pa := FrameOf(frames[pt][i1]);
      frames[pt] := frames[pt][i1 := 0];
      own := w0[pa := Loose];
      ghost var m1, w1 := frames[..], own;
      FreeListKept(m0, w0, m1, w1, firstFree, free);
      FreeFrame(pa);
      assert frames[..] == m1[pa := frames[pa]];
      forall j0, j1 | USER <= j0 < WORDS && 0 <= j1 < WORDS ensures Translate(frames[..], pd, j0, j1) == Translate(m1, pd, j0, j1) {
        DataWriteTranslates(m1, w1, frames.Length, pa, frames[pa], pd, j0, j1);
      }
      forall f ensures OtherKept(m0, w0, frames[..], own, pd, f) {
        assert OtherKept(m0, w0, m1, w1, pd, f);
      }
    }

    /** The body of exec's inner loop. */
    method UnmapAt(pd: nat, i0: nat, i1: nat, ghost m0: Memory, ghost w0: Ownership)
      requires Inv(m0, w0, frames.Length) && Owns(w0, pd, Dir)
      requires Valid() && Owns(own, pd, Dir) && pd < frames.Length && USER <= i0 < WORDS && i1 < WORDS && HasTable(frames[..], pd, i0)
      requires own == Unmapped(w0, pd, i0, i1) && Cleared(m0, frames[..], pd, i0, i1)
      modifies this, frames
      ensures Valid() && Owns(own, pd, Dir) && frames[pd] == old(frames[pd])
      ensures own == Unmapped(w0, pd, i0, i1 + 1) && Cleared(m0, frames[..], pd, i0, i1 + 1)
      ensures OthersKept(old(frames[..]), old(own), frames[..], own, pd)
    {
      ghost var mb, wb := frames[..], own;
      assert TableOwned(mb, wb, pd, i0) && ClearedAt(m0, mb, pd, i0, i1, i0, i1);
      TranslateSign(mb, wb, frames.Length, pd, i0, i1);
      TranslateSign(m0, w0, frames.Length, pd, i0, i1);
      UnmapOwner(m0, w0, frames.Length, pd, i0, i1);
      var pt := FrameOf(frames[pd][i0]);
      if Present(frames[pt][i1]) {
        UnmapPage(pd, i0, i1);
        ClearStep(m0, mb, frames[..], pd, i0, i1);
      } else {
        assert Translate(mb, pd, i0, i1) == -1;
        ClearSkip(m0, mb, pd, i0, i1);
      }
    }

    /** The inner loop of exec: all pages of one table. */
    method UnmapTableAt(pd: nat, i0: nat, ghost m0: Memory, ghost w0: Ownership)
      requires Inv(m0, w0, frames.Length) && Owns(w0, pd, Dir)
      requires Valid() && Owns(own, pd, Dir) && pd < frames.Length && USER <= i0 < WORDS && HasTable(frames[..], pd, i0)
      requires own == Unmapped(w0, pd, i0, 0) && Cleared(m0, frames[..], pd, i0, 0)
      modifies this, frames
      ensures Valid() && Owns(own, pd, Dir) && frames[pd] == old(frames[pd])
      ensures own == Unmapped(w0, pd, i0, WORDS) && Cleared(m0, frames[..], pd, i0, WORDS)
      ensures OthersKept(old(frames[..]), old(own), frames[..], own, pd)
    {
      ghost var ma, wa := frames[..], own;
      var i1 := 0;
      while i1 < 1024
        invariant 0 <= i1 <= 1024
        invariant Valid() && Owns(own, pd, Dir) && frames[pd] == ma[pd]
        invariant own == Unmapped(w0, pd, i0, i1) && Cleared(m0, frames[..], pd, i0, i1)
        invariant OthersKept(ma, wa, frames[..], own, pd)
      {
        ghost var mb, wb := frames[..], own;
        UnmapAt(pd, i0, i1, m0, w0);
        OthersKeptTrans(ma, wa, mb, wb, frames[..], own, pd);
        i1 := i1 + 1;
      }
    }

    /** AddressSpace::exec: every user page is unmapped and its frame freed. */
    method Exec(pd: nat)
      requires Valid() && Owns(own, pd, Dir) && pd < frames.Length
      modifies this, frames
      ensures Valid() && Owns(own, pd, Dir) && own == Unmapped(old(own), pd, WORDS, 0)
      ensures forall i0, i1 | USER <= i0 < WORDS && 0 <= i1 < WORDS :: !HasPage(frames[..], pd, i0, i1)
      ensures OthersKept(old(frames[..]), old(own), frames[..], own, pd)
    {
      ghost var m0, w0 := frames[..], own;
      UnmapStart(m0, w0, frames.Length, pd);
      forall j0, j1 | USER <= j0 < WORDS && 0 <= j1 < WORDS ensures ClearedAt(m0, m0, pd, USER, 0, j0, j1) { }
      var i0 := 512;
      while i0 < 1024
        invariant 512 <= i0 <= 1024
        invariant Valid() && Owns(own, pd, Dir) && frames[pd] == m0[pd]
        invariant own == Unmapped(w0, pd, i0, 0) && Cleared(m0, frames[..], pd, i0, 0)
        invariant OthersKept(m0, w0, frames[..], own, pd)
      {
        ghost var ma, wa := frames[..], own;
        UnmapTable(m0, w0, frames.Length, pd, i0);
        if Present(frames[pd][i0]) {
          UnmapTableAt(pd, i0, m0, w0);
          OthersKeptTrans(m0, w0, ma, wa, frames[..], own, pd);
          ClearTable(m0, frames[..], pd, i0, WORDS);
        } else {
          ClearTable(m0, ma, pd, i0, 0);
        }
        i0 := i0 + 1;
      }
      forall i0, i1 | USER <= i0 < WORDS && 0 <= i1 < WORDS ensures !HasPage(frames[..], pd, i0, i1) {
        assert ClearedAt(m0, frames[..], pd, WORDS, 0, i0, i1);
        TranslateSign(frames[..], own, frames.Length, pd, i0, i1);
      }
    }

    /** The inner loop of the destructor: free the pages of table `t` at `i0`. */
    method FreePages(pd: nat, i0: nat, t: nat, ghost m0: Memory, ghost w0: Ownership)
      requires Inv(m0, w0, frames.Length) && Owns(w0, pd, Dir) && USER <= i0 < WORDS
      requires Valid() && HasTable(m0, pd, i0) && t == TableAt(m0, pd, i0) && t < frames.Length
      requires own == TornDown(w0, pd, i0, 0) && LiveKept(m0, frames[..], own)
      modifies this, frames
      ensures Valid() && own == TornDown(w0, pd, i0, WORDS) && LiveKept(m0, frames[..], own)
    {
      var i1 := 0;
      while i1 < 1024
        invariant 0 <= i1 <= 1024
        invariant Valid() && own == TornDown(w0, pd, i0, i1) && LiveKept(m0, frames[..], own)
      {
        assert TableOwned(m0, w0, pd, i0);
        assert Owns(own, t, Loose) && LiveAt(m0, frames[..], own, t);
        TearPage(m0, w0, frames.Length, pd, i0, i1);
        var pte := frames[t][i1];
        if Present(pte) {
          ghost var mb, wb := frames[..], own;
          FreeFrame(FrameOf(pte));
          LiveKeptFree(m0, mb, wb, frames[..], FrameOf(pte));
        }
        i1 := i1 + 1;
      }
    }

    /** The body of the destructor's outer loop: free table `i0` with its pages. */
    method FreeTable(pd: nat, i0: nat, ghost m0: Memory, ghost w0: Ownership)
      requires Inv(m0, w0, frames.Length) && Owns(w0, pd, Dir) && pd < frames.Length && i0 < WORDS
      requires Valid() && own == TornDown(w0, pd, i0, 0) && LiveKept(m0, frames[..], own)
      modifies this, frames
      ensures Valid() && own == TornDown(w0, pd, i0 + 1, 0) && LiveKept(m0, frames[..], own)
    {
      assert Owns(own, pd, Loose) && LiveAt(m0, frames[..], own, pd);
      assert TableOwned(m0, w0, pd, i0);
      TearTable(m0, w0, frames.Length, pd, i0);
      var pde := frames[pd][i0];
      if Present(pde) {
        var pt := FrameOf(pde);
        if i0 > 0 {
          FreePages(pd, i0, pt, m0, w0);
        }
        ghost var mb, wb := frames[..], own;
        FreeFrame(pt);
        LiveKeptFree(m0, mb, wb, frames[..], pt);
      }
    }

    /** AddressSpace::~AddressSpace: every frame of the address space goes back, once. */
    method Destroy(pd: nat)
      requires Valid() && Owns(own, pd, Dir) && pd < frames.Length
      modifies this, frames
      ensures Valid() && own == Destroyed(old(own), pd)
      ensures OthersKept(old(frames[..]), old(own), frames[..], own, pd)
    {
      ghost var m0, w0 := frames[..], own;
      Abandon(m0, w0, frames.Length, pd);
      own := TornDown(w0, pd, 0, 0);
      TearStart(m0, w0, frames.Length, pd);
      FreeListKept(m0, w0, m0, own, firstFree, free);
      var i0 := 0;
      while i0 < 1024
        invariant 0 <= i0 <= 1024
        invariant Valid() && own == TornDown(w0, pd, i0, 0) && LiveKept(m0, frames[..], own)
      {
        FreeTable(pd, i0, m0, w0);
        i0 := i0 + 1;
      }
      TearEnd(m0, w0, frames.Length, pd);
      ghost var mb, wb := frames[..], own;
      FreeFrame(pd);
      LiveKeptFree(m0, mb, wb, frames[..], pd);
      DestroyedKeeps(m0, w0, frames[..], pd);
    }

    /** Between requests nothing is loose and `spaces` are the directories. */
    ghost predicate Settled(spaces: set<nat>)
      reads this, frames
    {
      Valid() && Tidy(own, spaces)
    }

    /** A user program stores a word into a page it has. */
    method StoreWord(pd: nat, va: nat, word: int)
      requires Valid() && Owns(own, pd, Dir) && pd < frames.Length && USER <= I0(va) < WORDS && HasPage(frames[..], pd, I0(va), I1(va))
      modifies frames
      ensures Valid() && OthersKept(old(frames[..]), own, frames[..], own, pd)
      ensures var p := PageAt(old(frames[..]), pd, I0(va), I1(va));
        0 <= p < frames.Length && frames[..] == old(frames[..])[p := old(frames[..])[p][va / 4 % WORDS := word]]
      ensures forall j0, j1 {:trigger Translate(frames[..], pd, j0, j1)} | USER <= j0 < WORDS && 0 <= j1 < WORDS ::
        Translate(frames[..], pd, j0, j1) == Translate(old(frames[..]), pd, j0, j1)
      ensures WordThere(old(frames[..]), frames[..], pd, va, word)
    {
      ghost var m0 := frames[..];
      assert PageOwned(m0, own, pd, I0(va), I1(va));
      var p := FrameOf(frames[FrameOf(frames[pd][I0(va)])][I1(va)]);
      var x := frames[p][va / 4 % WORDS := word];
      StoreStaysInside(m0, own, frames.Length, pd, I0(va), I1(va), p, x);
      WriteData(p, x);
      forall j0, j1 | USER <= j0 < WORDS && 0 <= j1 < WORDS ensures Translate(frames[..], pd, j0, j1) == Translate(m0, pd, j0, j1) {
        DataWriteTranslates(m0, own, frames.Length, p, x, pd, j0, j1);
      }
      TranslateSign(m0, own, frames.Length, pd, I0(va), I1(va));
      assert Translate(frames[..], pd, I0(va), I1(va)) == Translate(m0, pd, I0(va), I1(va));
      WordIsThere(m0, frames[..], own, frames.Length, pd, va, word);
    }

    method ServeCreate(spaces: set<nat>) returns (ok: bool, pd: nat)
      requires Settled(spaces)
      modifies this, frames
      ensures !ok ==> Exhausted()
      ensures ok ==> Settled(spaces + {pd}) && pd !in spaces && pd < frames.Length && NoUserPage(frames[..], pd)
      ensures ok ==> OthersSame(old(frames[..]), frames[..], spaces, pd)
    {
      ghost var m0, w0 := frames[..], own;
      ok, pd := NewSpace();
      if !ok { return; }
      GrowIsolates(m0, w0, frames[..], own, frames.Length, spaces, pd);
      StillTidy(w0, own, spaces, {pd}, spaces + {pd});
    }

    method ServeFault(spaces: set<nat>, pd: nat, va: nat) returns (panicked: bool)
      requires Settled(spaces) && pd in spaces && va < 0x1_0000_0000 && !HasPage(frames[..], pd, I0(va), I1(va))
      modifies this, frames
      ensures panicked ==> Exhausted() || 0x1000 <= va < 0x8000_0000
      ensures !panicked ==> Settled(spaces) && OthersSame(old(frames[..]), frames[..], spaces, pd)
      ensures !panicked && va >= 0x8000_0000 ==> PageThere(old(frames[..]), frames[..], pd, va)
    {
      ghost var m0, w0 := frames[..], own;
      var f := HandlePageFault(pd, va);
      panicked := f == Panicked;
      if panicked { return; }
      if f == Killed { OthersSelf(m0, w0, frames.Length, spaces); return; }
      GrowIsolates(m0, w0, frames[..], own, frames.Length, spaces, pd);
      StillTidy(w0, own, spaces, {}, spaces);
    }

    method ServeFork(spaces: set<nat>, pd: nat) returns (ok: bool, cd: nat)
      requires Settled(spaces) && pd in spaces
      modifies this, frames
      ensures !ok ==> Exhausted()
      ensures ok ==> Settled(spaces + {cd}) && cd !in spaces && Twins(frames[..], pd, cd)
      ensures ok ==> OthersSame(old(frames[..]), frames[..], spaces, cd)
    {
      ghost var m0 := frames[..];
      ok, cd := ServeCreate(spaces);
      if !ok { return; }
      ghost var m1, w1 := frames[..], own;
      ok := Fork(pd, cd);
      if !ok { return; }
      MirrorIsTwin(m1, frames[..], own, frames.Length, pd, cd);
      StillIsolated(m0, m1, w1, frames[..], own, frames.Length, spaces, cd);
      GrowIsolates(m1, w1, frames[..], own, frames.Length, spaces + {cd}, cd);
      StillTidy(w1, own, spaces + {cd}, {}, spaces + {cd});
    }

    method ServeExec(spaces: set<nat>, pd: nat)
      requires Settled(spaces) && pd in spaces
      modifies this, frames
      ensures Settled(spaces) && NoUserPage(frames[..], pd) && OthersSame(old(frames[..]), frames[..], spaces, pd)
    {
      ghost var m0, w0 := frames[..], own;
      Exec(pd);
      ShrinkIsolates(m0, w0, frames[..], own, frames.Length, spaces, pd);
      OnlyNewUnmapped(w0, pd);
      StillTidy(w0, own, spaces, {}, spaces);
    }

    method ServeDestroy(spaces: set<nat>, pd: nat)
      requires Settled(spaces) && pd in spaces
      modifies this, frames
      ensures Settled(spaces - {pd}) && OthersSame(old(frames[..]), frames[..], spaces, pd)
    {
      ghost var m0, w0 := frames[..], own;
      Destroy(pd);
      ShrinkIsolates(m0, w0, frames[..], own, frames.Length, spaces, pd);
      OnlyNewUnmapped(w0, pd);
      StillTidy(w0, own, spaces, {}, spaces - {pd});
    }

    method ServeStore(spaces: set<nat>, pd: nat, va: nat, word: int)
      requires Settled(spaces) && pd in spaces && USER <= I0(va) < WORDS && HasPage(frames[..], pd, I0(va), I1(va))
      modifies frames
      ensures Settled(spaces) && OthersSame(old(frames[..]), frames[..], spaces, pd)
      ensures WordThere(old(frames[..]), frames[..], pd, va, word)
    {
      ghost var m0 := frames[..];
      StoreWord(pd, va, word);
      ShrinkIsolates(m0, own, frames[..], own, frames.Length, spaces, pd);
    }

    /** One request.  Those that name no address space, or a page that is mapped and so does
        not fault, or one that is not mapped and so cannot be stored to, do not occur. */
    method ServeOne(r: Request, spaces: set<nat>) returns (panicked: bool, now: set<nat>)
      requires Settled(spaces)
      modifies this, frames
      ensures !panicked ==> Settled(now) && Served(r, old(frames[..]), frames[..], spaces, now)
      ensures panicked ==> Exhausted() || (r.Fault? && 0x1000 <= r.va < 0x8000_0000)
    {
      panicked, now := false, spaces;
      ghost var m0 := frames[..];
      OthersSelf(m0, own, frames.Length, spaces);
      match r
      case Create =>
        var ok, pd := ServeCreate(spaces);
        panicked, now := !ok, spaces + {pd};
        assert ok ==> NewOne(frames[..], spaces, now, pd);
      case Fault(pd, va) =>
        if pd in spaces && va < 0x1_0000_0000 && !HasPage(frames[..], pd, I0(va), I1(va)) {
          panicked := ServeFault(spaces, pd, va);
        } else if pd in spaces && 0x8000_0000 <= va < 0x1_0000_0000 {
          PageIsThere(m0, own, m0, own, frames.Length, pd, va);
        }
      case Duplicate(pd) =>
        if pd in spaces {
          var ok, cd := ServeFork(spaces, pd);
          panicked, now := !ok, spaces + {cd};
          assert ok ==> NewTwin(frames[..], spaces, now, pd, cd);
        }
      case Exec(pd) =>
        if pd in spaces { ServeExec(spaces, pd); }
      case Destroy(pd) =>
        if pd in spaces { ServeDestroy(spaces, pd); now := spaces - {pd}; }
      case Store(pd, va, word) =>
        if pd in spaces && USER <= I0(va) < WORDS && HasPage(frames[..], pd, I0(va), I1(va)) {
          ServeStore(spaces, pd, va, word);
        } else if pd in spaces && 0x8000_0000 <= va < 0x1_0000_0000 {
          WordIsThere(m0, m0, own, frames.Length, pd, va, word);
        }
    }

    /** Any run of requests from a fresh machine that does not panic: every frame handed out
        has one use at every moment, and once all address spaces are gone all are free. */
    method Serve(requests: seq<Request>) returns (panicked: bool, spaces: set<nat>)
      requires Valid() && own == map[]
      modifies this, frames
      ensures !panicked ==> Settled(spaces)
      ensures panicked ==> Exhausted() || exists i :: 0 <= i < |requests| && requests[i].Fault? && 0x1000 <= requests[i].va < 0x8000_0000
      ensures !panicked && spaces == {} ==> forall f | f in own :: own[f] == Free && f in free
    {
      panicked, spaces := false, {};
      for i := 0 to |requests|
        invariant !panicked && Settled(spaces)
      {
        panicked, spaces := ServeOne(requests[i], spaces);
        if panicked { return; }
      }
      if spaces == {} { AllBack(frames[..], own, frames.Length); }
    }
  }
}
