/** The allocator itself, working in place on its int array (kernel/heap.cc and the same
    code without panics in user/heap.c, which adds realloc). */
module FirstFit {
  import opened Common
  import opened Heap
  import opened HeapMemory

  /** Null, or the address of a word; the address of word 0 is what malloc(0) returns. */
  datatype Pointer = Null | Word(index: int)

  class FirstFitHeap {
    const words: array<int>
    var avail: int
    /** The block view that the words represent. */
    ghost var view: State

    /** Tags and links are in step with `view`, which tiles the array. */
    ghost predicate Consistent()
      reads this, words
    {
      Shape(words[..], avail, view)
    }

    ghost predicate Valid()
      reads this, words
    {
      Inv(view) && Represents(words[..], avail, view)
    }

    /** Heap::init over the memory it is given. */
    constructor (memory: array<int>)
      requires memory.Length >= 8
      modifies memory
      ensures Valid() && words == memory && view == Initial(memory.Length)
    {
      words := memory;
      avail := 0;
      view := Initial(memory.Length);
      new;
      MakeTaken(0, 2);
      MakeAvail(2, words.Length - 4);
      MakeTaken(words.Length - 2, 2);
      InitialInv(words.Length);
      var b := view.blocks;
      assert Right(b, 0) == 2 && Right(b, 2) == words.Length - 2 && Right(b, words.Length - 2) == words.Length;
      forall h | h in b ensures TagsAt(words[..], b, h) {
      }
      assert LinksAt(words[..], view.free, 0);
    }

    function SizeAt(i: int): nat
      requires 0 <= i < words.Length
      reads words
    {
      Abs(words[i])
    }

    function FooterFromHeader(i: int): int
      requires 0 <= i < words.Length
      reads words
    {
      i + SizeAt(i) - 1
    }

    function HeaderFromFooter(i: int): int
      requires 0 <= i < words.Length
      reads words
    {
      i - SizeAt(i) + 1
    }

    /** The consistency check run on every block index; none of its panics can happen. */
    method Sanity(i: int) returns (r: int)
      requires Consistent() && (i == 0 || i in view.blocks)
      ensures r == i
    {
      if i == 0 { return 0; }
      assert TagsAt(words[..], view.blocks, i);
      if i < 0 || i >= words.Length {
        assert false;
      }
      var footer := FooterFromHeader(i);
      if footer < 0 || footer >= words.Length {
        assert false;
      }
      if words[i] != words[footer] {
        assert false;
      }
      return i;
    }

    method LeftOf(i: int) returns (r: int)
      requires Consistent() && i in view.blocks && i != 0
      ensures r == Left(view.len, view.blocks, i)
    {
      ghost var l := Left(view.len, view.blocks, i);
      assert TagsAt(words[..], view.blocks, l);
      r := Sanity(HeaderFromFooter(i - 1));
    }

    method RightOf(i: int) returns (r: int)
      requires Consistent() && i in view.blocks && i != view.len - 2
      ensures r == Right(view.blocks, i) && r in view.blocks
    {
      assert TagsAt(words[..], view.blocks, i);
      InBounds(view.len, view.blocks, i);
      r := Sanity(i + SizeAt(i));
    }

    /** Take block `i` off the free list. */
    method Remove(i: int)
      requires Consistent() && i in view.free
      modifies this, words
      ensures Consistent()
      ensures view == old(view).(free := Without(old(view.free), i))
      ensures PayloadsKept(old(words[..]), words[..], view.blocks, -1)
    {
      ghost var s, mem := view, words[..];
      ghost var k :| 0 <= k < |s.free| && s.free[k] == i;
      assert LinksAt(mem, s.free, k);
      BypassRepresented(s, mem, k);
      var prevIndex := Sanity(words[i + 2]);
      var nextIndex := Sanity(words[i + 1]);
      if prevIndex == 0 {
        avail := nextIndex;
      } else {
        words[prevIndex + 1] := nextIndex;
      }
      if nextIndex != 0 {
        words[nextIndex + 2] := prevIndex;
      }
      view := s.(free := Without(s.free, i));
      assert words[..] == Bypass(mem, prevIndex, nextIndex);
    }

    method MakeAvail(i: int, ints: int)
      requires 0 <= i && 4 <= ints && i + ints <= words.Length
      requires avail != 0 ==> 0 <= avail && avail + 2 < words.Length
      modifies words, this`avail
      ensures words[..] == LinkFront(WriteTags(old(words[..]), i, ints), i, old(avail)) && avail == i
    {
      words[i] := ints;
      words[FooterFromHeader(i)] := ints;
      words[i + 1] := avail;
      words[i + 2] := 0;
      if avail != 0 {
        words[avail + 2] := i;
      }
      avail := i;
    }

    method MakeTaken(i: int, ints: int)
      requires 0 <= i && 1 <= ints && i + ints <= words.Length
      modifies words
      ensures words[..] == WriteTags(old(words[..]), i, -ints)
    {
      words[i] := -ints;
      words[FooterFromHeader(i)] := -ints;
    }

    /** Tag the block at `p` as taken, and what is left of it as available. */
    method Split(p: int, sz: int, ints: int)
      requires 0 <= p && 4 <= ints <= sz && p + sz <= words.Length
      requires avail != 0 ==> 0 <= avail && avail + 2 < words.Length
      modifies words, this`avail
      ensures words[..] == TakeWrites(old(words[..]), p, sz, ints, old(avail))
      ensures avail == if sz - ints >= 4 then p + ints else old(avail)
    {
      var extra := sz - ints;
      if extra >= 4 {
        MakeTaken(p, ints);
        MakeAvail(p + ints, extra);
      } else {
        MakeTaken(p, sz);
      }
    }

    /** The part of malloc that turns the block found into a taken one. */
    method Take(p: int, ints: int)
      requires Valid() && p in view.free && 4 <= ints <= view.blocks[p]
      modifies this, words
      ensures Consistent()
      ensures view == Allocated(old(view), p, ints)
      ensures PayloadsKept(old(words[..]), words[..], old(view.blocks), p)
    {
      ghost var s, m0 := view, words[..];
      assert TagsAt(m0, s.blocks, p);
      var sz := SizeAt(p);
      Remove(p);
      TakeRepresented(s, m0, words[..], p, ints);
      Split(p, sz, ints);
      view := Allocated(s, p, ints);
    }

    /** The search loop of malloc: the first listed block of at least `ints` ints, or 0. */
    method Search(ints: int) returns (p: int)
      requires Valid()
      ensures var k := FirstFit(view.blocks, view.free, ints, 0);
        p == if k < |view.free| then view.free[k] else 0
    {
      ghost var free, k := view.free, 0;
      p := Sanity(avail);
      while p != 0
        invariant 0 <= k <= |free| && p == (if k < |free| then free[k] else 0)
        invariant FirstFit(view.blocks, free, ints, 0) == FirstFit(view.blocks, free, ints, k)
        decreases |free| - k
      {
        assert IsAvail(view.blocks, free[k]) && TagsAt(words[..], view.blocks, p) && LinksAt(words[..], free, k);
        if !(words[p] > 0) {
          assert false;
        }
        var sz := SizeAt(p);
        if sz >= ints { return; }
        p := Sanity(words[p + 1]);
        k := k + 1;
      }
    }

    /** Find and take a block of at least `ints` ints. */
    method Obtain(ints: int) returns (res: Pointer)
      requires Valid() && ints >= 4
      modifies this, words
      ensures Valid()
      ensures var (t, r) := Allocate(old(view), ints);
        view == t && res == (if r.None? then Null else Word(r.value + 1))
      ensures PayloadsKept(old(words[..]), words[..], old(view.blocks), -1)
    {
      AllocateKeeps(view, ints);
      var p := Search(ints);
      ListSpaced(view.len, view.blocks, view.free);
      if p == 0 { return Null; }
      Take(p, ints);
      res := Word(p + 1);
    }

    /** The body of malloc: bytes to ints, and the search. */
    method Request(bytes: nat) returns (res: Pointer)
      requires Valid() && bytes < 0x1_0000_0000
      modifies this, words
      ensures Valid()
      ensures bytes == 0 ==> res == Word(0) && view == old(view) && words[..] == old(words[..])
      ensures bytes > 0 ==>
        var (t, r) := Allocate(old(view), IntsFor(bytes));
        view == t && res == (if r.None? then Null else Word(r.value + 1))
      ensures PayloadsKept(old(words[..]), words[..], old(view.blocks), -1)
    {
      if bytes == 0 { return Word(0); }
      var ints := (bytes + 3) % 0x1_0000_0000 / 4 + 2;
      if ints < 4 { ints := 4; }
      res := Obtain(ints);
    }

    /** First-fit allocation; a null result is where the kernel panics with a full heap: exactly
        when every available block is too small for the bytes and two tags. */
    method Malloc(bytes: nat) returns (res: Pointer)
      requires Valid() && bytes < 0x1_0000_0000
      modifies this, words
      ensures Valid()
      ensures bytes == 0 ==> res == Word(0) && view == old(view) && words[..] == old(words[..])
      ensures bytes > 0 ==>
        var (t, r) := Allocate(old(view), IntsFor(bytes));
        view == t && res == (if r.None? then Null else Word(r.value + 1))
      ensures 0 < bytes <= 0xFFFF_FFFC ==>
        (res == Null <==> forall h | IsAvail(old(view.blocks), h) :: 4 * (old(view.blocks)[h] - 2) < bytes)
      ensures 0 < bytes <= 0xFFFF_FFFC && res != Null ==>
        HandedOut(old(view.blocks), old(view.free), bytes, view.blocks, res.index - 1)
      ensures PayloadsKept(old(words[..]), words[..], old(view.blocks), -1)
    {
      if 0 < bytes <= 0xFFFF_FFFC { BytesServed(view, bytes); }
      res := Request(bytes);
    }

    /** Give a block back and coalesce it with available neighbours.  `panicked` is the
        panic on a block that is available already. */
    method Free(p: Pointer) returns (panicked: bool)
      requires Valid()
      requires p.Word? && p.index != 0 ==> p.index - 1 in view.blocks && !Sentinel(view.len, p.index - 1)
      modifies this, words
      ensures Valid()
      ensures panicked <==> p.Word? && p.index != 0 && IsAvail(old(view.blocks), p.index - 1)
      ensures panicked || p == Null || p == Word(0) ==> view == old(view) && words[..] == old(words[..])
      ensures !panicked && p.Word? && p.index != 0 ==>
        && view == Release(old(view), p.index - 1)
        && PayloadsKept(old(words[..]), words[..], old(view.blocks), p.index - 1)
    {
      panicked := false;
      if p == Null { return; }
      if p == Word(0) { return; }
      var idx := p.index - 1;
      var _ := Sanity(idx);
      assert TagsAt(words[..], view.blocks, idx);
      InBounds(view.len, view.blocks, idx);
      if !(words[idx] < 0) { return true; }
      Coalesce(idx);
    }

    /** Take neighbour `i` off the list if it is available: the ints gained. */
    method Absorb(i: int) returns (gain: int)
      requires Consistent() && i in view.blocks && (IsAvail(view.blocks, i) ==> i in view.free)
      modifies this, words
      ensures Consistent() && view == old(view).(free := Without(old(view.free), i))
      ensures gain == if IsAvail(view.blocks, i) then Size(view.blocks, i) else 0
      ensures PayloadsKept(old(words[..]), words[..], view.blocks, -1)
    {
      assert TagsAt(words[..], view.blocks, i);
      if words[i] > 0 {
        Remove(i);
        assert TagsAt(words[..], view.blocks, i);
        gain := SizeAt(i);
      } else {
        WithoutAbsent(view.free, i);
        gain := 0;
      }
    }

    /** Take both neighbours of block `h` off the list where available: the merged span. */
    method AbsorbBoth(h: int) returns (idx: int, sz: int)
      requires Valid() && IsTaken(view.blocks, h) && !Sentinel(view.len, h)
      modifies this, words
      ensures Consistent()
      ensures var s := old(view);
        && view == s.(free := ReleaseRestOf(s, h))
        && idx == MergeLo(s.len, s.blocks, h) && idx + sz == MergeHi(s.blocks, h)
      ensures PayloadsKept(old(words[..]), words[..], view.blocks, -1)
    {
      ghost var b, m0 := view.blocks, words[..];
      assert TagsAt(m0, b, h);
      InBounds(view.len, b, h);
      sz := SizeAt(h);
      var leftIndex := LeftOf(h);
      var rightIndex := RightOf(h);
      idx := h;
      var gain := Absorb(leftIndex);
      if gain > 0 { idx := leftIndex; }
      sz := sz + gain;
      ghost var m1 := words[..];
      gain := Absorb(rightIndex);
      sz := sz + gain;
      PayloadsKeptTrans(m0, m1, words[..], b, b, -1);
    }

    /** The part of free that merges and relists block `h`. */
    method Coalesce(h: int)
      requires Valid() && IsTaken(view.blocks, h) && !Sentinel(view.len, h)
      modifies this, words
      ensures Valid() && view == Release(old(view), h)
      ensures PayloadsKept(old(words[..]), words[..], old(view.blocks), h)
    {
      ghost var s, m0 := view, words[..];
      var idx, sz := AbsorbBoth(h);
      ghost var m1 := words[..];
      ReleaseRepresented(s, m0, m1, h);
      MakeAvail(idx, sz);
      view := Release(s, h);
      ReleaseKeeps(s, h);
    }
  
    /** A client stores into the block it was given. */
    method Store(p: Pointer, i: nat, v: int)
      requires Valid() && p.Word? && IsTaken(view.blocks, p.index - 1) && i < Size(view.blocks, p.index - 1) - 2
      requires 0 <= p.index && p.index + i < words.Length
      modifies words
      ensures Valid() && words[..] == old(words[..])[p.index + i := v]
      ensures PayloadsKept(old(words[..]), words[..], view.blocks, p.index - 1)
    {
      ghost var mem := words[..];
      words[p.index + i] := v;
      PayloadWrites(view, avail, mem, words[..], p.index - 1);
    }

    method MemCopy(dst: int, src: int, n: nat)
      requires 0 <= dst && dst + (n + 3) / 4 <= words.Length && 0 <= src && src + (n + 3) / 4 <= words.Length
      requires src + (n + 3) / 4 <= dst || dst + (n + 3) / 4 <= src
      modifies words
      ensures Copied(old(words[..]), words[..], dst, src, n)
    {
      ghost var mem := words[..];
      var j := 0;
      while j < n / 4
        invariant 0 <= j <= n / 4
        invariant SameOutside(mem, words[..], dst, dst + j)
        invariant forall i | dst <= i < dst + j :: words[i] == mem[src + (i - dst)]
      {
        words[dst + j] := words[src + j];
        j := j + 1;
      }
      if n % 4 > 0 {
        words[dst + j] := LowBytesFrom(words[dst + j], words[src + j], n % 4);
      }
    }

    /** Move a block to one of `newSize` bytes.  The copy length is taken from the whole
        block, tags included, so it may run over the old footer and the next header. */
    method Realloc(p: Pointer, newSize: nat) returns (res: Pointer)
      requires Valid() && newSize <= 0x7FFF_FFFC
      requires p.Word? ==> p.index - 1 in view.blocks && !Sentinel(view.len, p.index - 1)
      modifies this, words
      ensures Valid()
      ensures p == Null && newSize == 0 ==> res == Word(0) && view == old(view)
      ensures p == Null && newSize > 0 ==>
        var (t, r) := Allocate(old(view), IntsFor(newSize)); view == t && res == (if r.None? then Null else Word(r.value + 1))
      ensures p.Word? && IsAvail(old(view.blocks), p.index - 1) ==> res == Null && view == old(view) && words[..] == old(words[..])
      ensures p.Word? && IsTaken(old(view.blocks), p.index - 1) && newSize == 0 ==>
        res == Null && view == Release(old(view), p.index - 1)
      ensures p.Word? && IsTaken(old(view.blocks), p.index - 1) && newSize > 0 ==>
        var (t, r) := Allocate(old(view), IntsFor(newSize));
        && Inv(t) && IsTaken(t.blocks, p.index - 1)
        && view == Release(t, p.index - 1) && res == (if r.None? then Null else Word(r.value + 1))
      ensures p.Word? && IsTaken(old(view.blocks), p.index - 1) && res.Word? ==>
        SameBytes(words[..], res.index, old(words[..]), p.index, Min(newSize, 4 * (Size(old(view.blocks), p.index - 1) - 2)))
      ensures PayloadsKept(old(words[..]), words[..], old(view.blocks), if p.Word? then p.index - 1 else -1)
    {
      if p == Null {
        res := Malloc(newSize);
        return;
      }
      if newSize == 0 {
        var _ := Free(p);
        return Null;
      }
      var idx := p.index - 1;
      var _ := Sanity(idx);
      assert TagsAt(words[..], view.blocks, idx);
      if !(words[idx] < 0) { return Null; }
      res := Move(idx, newSize);
    }

    /** The copy of realloc: `n` bytes from block `idx` into the payload of block `q`. */
    method CopyInto(q: int, idx: int, n: nat)
      requires Valid() && IsTaken(view.blocks, q) && IsTaken(view.blocks, idx) && q != idx
      requires !Sentinel(view.len, q) && !Sentinel(view.len, idx)
      requires n <= 4 * Size(view.blocks, idx) && n <= 4 * (Size(view.blocks, q) - 2)
      modifies words
      ensures Valid() && PayloadsKept(old(words[..]), words[..], view.blocks, q)
      ensures SameBytes(words[..], q + 1, old(words[..]), idx + 1, n)
    {
      ghost var mem := words[..];
      InBounds(view.len, view.blocks, q);
      InBounds(view.len, view.blocks, idx);
      if q < idx { Apart(view.len, view.blocks, q, idx); } else { Apart(view.len, view.blocks, idx, q); }
      MemCopy(q + 1, idx + 1, n);
      PayloadWrites(view, avail, mem, words[..], q);
      ghost var (w, v) := (q + 1, idx + 1);
      forall j: nat | j < n ensures SameByte(words[..], w, mem, v, j) {
        CopiedByte(mem, words[..], w, v, n, j);
      }
    }

    /** Copy and release: block `q` was taken after the blocks of `b`. */
    method Transfer(q: int, idx: int, newSize: nat, ghost b: Blocks)
      requires Valid() && IsTaken(view.blocks, q) && IsTaken(view.blocks, idx) && IsTaken(b, idx) && !IsTaken(b, q)
      requires !Sentinel(view.len, q) && !Sentinel(view.len, idx)
      requires forall h | IsTaken(b, h) :: IsTaken(view.blocks, h) && view.blocks[h] == b[h]
      requires newSize <= 4 * (Size(view.blocks, q) - 2)
      modifies this, words
      ensures Valid() && view == Release(old(view), idx)
      ensures SameBytes(words[..], q + 1, old(words[..]), idx + 1, Min(newSize, 4 * (Size(b, idx) - 2)))
      ensures PayloadsKept(old(words[..]), words[..], b, idx)
    {
      ghost var m1, c := words[..], view.blocks;
      assert TagsAt(m1, c, idx) && TagsAt(m1, c, q);
      var sz := SizeAt(idx) * 4;
      var m := if newSize > sz then sz else newSize;
      CopyInto(q, idx, m);
      ghost var m2 := words[..];
      Coalesce(idx);
      MovedBytes(m1, m2, words[..], b, c, idx, q, newSize, m);
    }

    /** The part of realloc that allocates, copies and frees. */
    method Move(idx: int, newSize: nat) returns (res: Pointer)
      requires Valid() && 0 < newSize <= 0x7FFF_FFFC && IsTaken(view.blocks, idx) && !Sentinel(view.len, idx)
      modifies this, words
      ensures Valid()
      ensures var (t, r) := Allocate(old(view), IntsFor(newSize));
        && Inv(t) && IsTaken(t.blocks, idx)
        && view == Release(t, idx) && res == (if r.None? then Null else Word(r.value + 1))
      ensures res.Word? ==>
        SameBytes(words[..], res.index, old(words[..]), idx + 1, Min(newSize, 4 * (Size(old(view.blocks), idx) - 2)))
      ensures PayloadsKept(old(words[..]), words[..], old(view.blocks), idx)
    {
      ghost var s, m0 := view, words[..];
      assert TagsAt(m0, s.blocks, idx);
      res := Request(newSize);
      ghost var m1 := words[..];
      if res == Null {
        Coalesce(idx);
        PayloadsKeptTrans(m0, m1, words[..], s.blocks, s.blocks, idx);
      } else {
        IntsHold(newSize);
        AllocateIsFresh(s, IntsFor(newSize));
        Transfer(res.index - 1, idx, newSize, s.blocks);
        PayloadsKeptTrans(m0, m1, words[..], s.blocks, s.blocks, idx);
        SameBytesKept(m0, m1, words[..], s.blocks, idx, res.index, Min(newSize, 4 * (Size(s.blocks, idx) - 2)));
      }
    }
  }
}
