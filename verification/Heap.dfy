/** The block view of the first-fit heap: which blocks tile the array, which are
    available, and in which order the free list visits them.  Nothing here speaks
    about memory words; module HeapMemory ties this view to the int array. */
module Heap {
  import opened Common

  /** A header index and the signed size stored there: positive for an available
      block, negative for a taken one. */
  type Blocks = map<int, int>

  /** The blocks of a heap of `len` ints, and the free list in list order. */
  datatype State = State(len: int, blocks: Blocks, free: seq<int>)

  function Size(b: Blocks, h: int): (n: nat)
    requires h in b
  {
    if b[h] < 0 then -b[h] else b[h]
  }

  /** The index just past block `h`. */
  function Right(b: Blocks, h: int): int
    requires h in b
  {
    h + Size(b, h)
  }

  predicate Sentinel(len: int, h: int) {
    h == 0 || h == len - 2
  }

  predicate IsTaken(b: Blocks, h: int) {
    h in b && b[h] < 0
  }

  predicate IsAvail(b: Blocks, h: int) {
    h in b && b[h] > 0
  }

  /** Block `h` lies inside the array and has room for its tags, and for links too
      unless it is a sentinel. */
  predicate Fits(len: int, b: Blocks, h: int)
    requires h in b
  {
    0 <= h && h < len && Size(b, h) >= (if Sentinel(len, h) then 2 else 4)
  }

  predicate Before(b: Blocks, h: int, k: int)
    requires h in b
  {
    Right(b, h) <= k
  }

  /** Blocks follow one another without gap or overlap from 0 to `len`, between two
      taken sentinels of two ints. */
  ghost predicate Tiled(len: int, b: Blocks) {
    && len >= 8
    && 0 in b && b[0] == -2
    && len - 2 in b && b[len - 2] == -2
    && (forall h {:trigger Fits(len, b, h)} | h in b :: Fits(len, b, h))
    && (forall h {:trigger Right(b, h)} | h in b :: Right(b, h) == len || Right(b, h) in b)
    && (forall h, k {:trigger Before(b, h, k)} | h in b && k in b && h < k :: Before(b, h, k))
  }

  /** The free list has no repetition and names available blocks only. */
  ghost predicate ListSound(b: Blocks, free: seq<int>) {
    Distinct(free) && forall i | 0 <= i < |free| :: IsAvail(b, free[i])
  }

  /** Every available block is on the free list. */
  ghost predicate ListComplete(b: Blocks, free: seq<int>) {
    forall h | IsAvail(b, h) :: h in free
  }

  /** No two available blocks touch. */
  ghost predicate Coalesced(b: Blocks) {
    forall h {:trigger Right(b, h)} | IsAvail(b, h) :: !IsAvail(b, Right(b, h))
  }

  ghost predicate Inv(s: State) {
    && Tiled(s.len, s.blocks)
    && Coalesced(s.blocks)
    && ListSound(s.blocks, s.free)
    && ListComplete(s.blocks, s.free)
  }

  // ------------------------------------------------------------------
  // Tiling facts

  /** Distinct blocks do not overlap. */
  lemma Apart(len: int, b: Blocks, h: int, k: int)
    requires Tiled(len, b) && h in b && k in b && h < k
    ensures Right(b, h) <= k
  {
    assert Before(b, h, k);
  }

  lemma InBounds(len: int, b: Blocks, h: int)
    requires Tiled(len, b) && h in b
    ensures 0 <= h && h + 2 <= Right(b, h) <= len
    ensures !Sentinel(len, h) ==> 2 <= h && h + 4 <= Right(b, h) <= len - 2
  {
    assert Fits(len, b, h);
    if Right(b, h) in b {
      assert Fits(len, b, Right(b, h));
    }
    if !Sentinel(len, h) {
      Apart(len, b, 0, h);
      if h < len - 2 { Apart(len, b, h, len - 2); } else { Apart(len, b, len - 2, h); }
    }
  }

  /** The block that holds index `i`, found by walking right from block `h`. */
  ghost function Walk(len: int, b: Blocks, h: int, i: int): (r: int)
    requires Tiled(len, b) && h in b && h <= i < len
    ensures r in b && r <= i < Right(b, r)
    decreases len - h
  {
    InBounds(len, b, h);
    if i < Right(b, h) then h else Walk(len, b, Right(b, h), i)
  }

  /** The block that ends where block `h` starts. */
  ghost function Left(len: int, b: Blocks, h: int): (p: int)
    requires Tiled(len, b) && h in b && h != 0
    ensures p in b && p < h && Right(b, p) == h
  {
    InBounds(len, b, h);
    var p := Walk(len, b, 0, h - 1);
    Apart(len, b, p, h);
    p
  }

  lemma LeftUnique(len: int, b: Blocks, h: int, p: int)
    requires Tiled(len, b) && h in b && h != 0
    requires p in b && Right(b, p) == h
    ensures Left(len, b, h) == p
  {
    var q := Left(len, b, h);
    InBounds(len, b, p);
    if p < q { Apart(len, b, p, q); }
    if q < p { Apart(len, b, q, p); }
  }

  /** Blocks tile the array exactly: every index lies in one block and one only. */
  lemma TilesExactly(len: int, b: Blocks, i: int)
    requires Tiled(len, b) && 0 <= i < len
    ensures exists h :: h in b && h <= i < Right(b, h)
    ensures forall h, k | h in b && k in b && h <= i < Right(b, h) && k <= i < Right(b, k) :: h == k
  {
    var h := Walk(len, b, 0, i);
    assert h in b && h <= i < Right(b, h);
    forall h, k | h in b && k in b && h <= i < Right(b, h) && k <= i < Right(b, k)
      ensures h == k
    {
      if h < k { Apart(len, b, h, k); }
      if k < h { Apart(len, b, k, h); }
    }
  }

  // ------------------------------------------------------------------
  // Sequences without one element

  function Without(xs: seq<int>, x: int): (r: seq<int>)
    ensures forall y :: y in r <==> y in xs && y != x
  {
    if xs == [] then []
    else
      var r := Without(xs[1..], x);
      if xs[0] == x then r else [xs[0]] + r
  }

  lemma WithoutAbsent(xs: seq<int>, x: int)
    requires x !in xs
    ensures Without(xs, x) == xs
  {
    if xs != [] {
      WithoutAbsent(xs[1..], x);
    }
  }

  lemma {:induction false} WithoutAt(xs: seq<int>, k: int)
    requires Distinct(xs) && 0 <= k < |xs|
    ensures Without(xs, xs[k]) == xs[..k] + xs[k + 1..]
  {
    if k == 0 {
      WithoutAbsent(xs[1..], xs[0]);
      assert xs[..0] + xs[1..] == xs[1..];
    } else {
      WithoutAt(xs[1..], k - 1);
      assert xs[1..][..k - 1] == xs[1..k] && xs[1..][k - 1 + 1..] == xs[k + 1..];
      assert [xs[0]] + (xs[1..k] + xs[k + 1..]) == xs[..k] + xs[k + 1..];
    }
  }

  // ------------------------------------------------------------------
  // The operations on the block view

  /** Ints needed for a request, with the 32-bit wrap of `bytes + 3`. */
  function IntsFor(bytes: nat): (n: nat)
    ensures n >= 4
  {
    var n := (bytes + 3) % 0x1_0000_0000 / 4 + 2;
    if n < 4 then 4 else n
  }

  /** Position in the free list, from `k` on, of the first block of at least `ints` ints. */
  ghost function FirstFit(b: Blocks, free: seq<int>, ints: int, k: nat): (r: nat)
    requires ListSound(b, free) && k <= |free|
    ensures k <= r <= |free|
    ensures r < |free| ==> b[free[r]] >= ints
    ensures forall j | k <= j < r :: b[free[j]] < ints
    decreases |free| - k
  {
    if k == |free| then k
    else if b[free[k]] >= ints then k
    else FirstFit(b, free, ints, k + 1)
  }

  /** Turn available block `p` into a taken one of `ints` ints, leaving the rest as an
      available block when it can hold tags and links. */
  function Carve(b: Blocks, p: int, ints: int): Blocks
    requires p in b
  {
    if b[p] - ints >= 4 then b[p := -ints][p + ints := b[p] - ints] else b[p := -b[p]]
  }

  /** The free list after carving `p`. */
  function CarveFree(b: Blocks, free: seq<int>, p: int, ints: int): seq<int>
    requires p in b
  {
    if b[p] - ints >= 4 then [p + ints] + Without(free, p) else Without(free, p)
  }

  /** The state once `ints` ints of available block `p` are taken. */
  function Allocated(s: State, p: int, ints: int): State
    requires p in s.blocks
  {
    State(s.len, Carve(s.blocks, p, ints), CarveFree(s.blocks, s.free, p, ints))
  }

  /** `malloc` of `ints` ints on the block view. */
  ghost function Allocate(s: State, ints: int): (r: (State, Option<int>))
    requires ListSound(s.blocks, s.free)
  {
    var k := FirstFit(s.blocks, s.free, ints, 0);
    if k == |s.free| then (s, None)
    else
      var p := s.free[k];
      (Allocated(s, p, ints), Some(p))
  }

  /** One available block in place of all blocks from `lo` to `hi`. */
  function Merge(b: Blocks, lo: int, hi: int): Blocks {
    map k | k in b && !(lo < k < hi) :: if k == lo then hi - lo else b[k]
  }

  ghost function MergeLo(len: int, b: Blocks, h: int): int
    requires Tiled(len, b) && h in b && h != 0
  {
    if IsAvail(b, Left(len, b, h)) then Left(len, b, h) else h
  }

  ghost function MergeHi(b: Blocks, h: int): int
    requires h in b
  {
    if IsAvail(b, Right(b, h)) then Right(b, Right(b, h)) else Right(b, h)
  }

  /** `free` of block `h` on the block view. */
  ghost function Release(s: State, h: int): (t: State)
    requires Tiled(s.len, s.blocks) && h in s.blocks && !Sentinel(s.len, h)
  {
    var lo := MergeLo(s.len, s.blocks, h);
    State(s.len, Merge(s.blocks, lo, MergeHi(s.blocks, h)),
          [lo] + Without(Without(s.free, Left(s.len, s.blocks, h)), Right(s.blocks, h)))
  }

  // ------------------------------------------------------------------
  // Carving keeps the tiling

  lemma CarveRight(len: int, b: Blocks, p: int, ints: int)
    requires Tiled(len, b) && IsAvail(b, p) && 4 <= ints <= b[p]
    ensures var c := Carve(b, p, ints);
      && Right(c, p) == (if b[p] - ints >= 4 then p + ints else Right(b, p))
      && (b[p] - ints >= 4 ==> p + ints !in b && Right(c, p + ints) == Right(b, p))
      && (forall h {:trigger Right(c, h)} | h in b && h != p :: h in c && Right(c, h) == Right(b, h))
      && (forall h | h in c :: h in b || (b[p] - ints >= 4 && h == p + ints))
  {
    if p + ints in b {
      Apart(len, b, p, p + ints);
    }
  }

  lemma CarveTiles(len: int, b: Blocks, p: int, ints: int)
    requires Tiled(len, b) && IsAvail(b, p) && 4 <= ints <= b[p]
    ensures Tiled(len, Carve(b, p, ints))
  {
    var c := Carve(b, p, ints);
    CarveRight(len, b, p, ints);
    InBounds(len, b, p);
    forall h | h in c ensures Fits(len, c, h) {
      if h in b { assert Fits(len, b, h); }
    }
    forall h | h in c ensures Right(c, h) == len || Right(c, h) in c {
      if h in b { assert Right(b, h) == len || Right(b, h) in b; } else { assert Right(b, p) == len || Right(b, p) in b; }
    }
    forall h, k | h in c && k in c && h < k ensures Before(c, h, k) {
      CarveApart(len, b, p, ints, h, k);
    }
  }

  lemma CarveApart(len: int, b: Blocks, p: int, ints: int, h: int, k: int)
    requires Tiled(len, b) && IsAvail(b, p) && 4 <= ints <= b[p]
    requires h in Carve(b, p, ints) && k in Carve(b, p, ints) && h < k
    ensures Right(Carve(b, p, ints), h) <= k
  {
    CarveRight(len, b, p, ints);
    if h in b && k in b {
      Apart(len, b, h, k);
    } else if h in b {
      if h < p { Apart(len, b, h, p); }
      if p < h { Apart(len, b, p, h); }
    } else {
      Apart(len, b, p, k);
    }
  }

  // ------------------------------------------------------------------
  // Merging keeps the tiling

  /** `lo` and `hi` are block boundaries strictly inside the sentinels. */
  ghost predicate Span(len: int, b: Blocks, lo: int, hi: int) {
    lo in b && hi in b && 2 <= lo < hi <= len - 2
  }

  lemma MergeRight(len: int, b: Blocks, lo: int, hi: int)
    requires Tiled(len, b) && Span(len, b, lo, hi)
    ensures var c := Merge(b, lo, hi);
      && lo in c && hi in c && Right(c, lo) == hi && hi - lo >= 4
      && (forall h {:trigger Right(c, h)} | h in c && h != lo :: h in b && b[h] == c[h] && Right(c, h) == Right(b, h))
      && (forall h | h in b && !(lo <= h < hi) :: h in c && b[h] == c[h])
  {
    Apart(len, b, lo, hi);
    InBounds(len, b, lo);
  }

  lemma MergeTiles(len: int, b: Blocks, lo: int, hi: int)
    requires Tiled(len, b) && Span(len, b, lo, hi)
    ensures Tiled(len, Merge(b, lo, hi))
  {
    var c := Merge(b, lo, hi);
    MergeRight(len, b, lo, hi);
    forall h | h in c ensures Fits(len, c, h) {
      assert Fits(len, b, h);
    }
    forall h | h in c ensures Right(c, h) == len || Right(c, h) in c {
      if h < lo { Apart(len, b, h, lo); }
      if h > lo { InBounds(len, b, h); }
      assert h != lo ==> Right(b, h) == len || Right(b, h) in b;
    }
    forall h, k | h in c && k in c && h < k ensures Before(c, h, k) {
      if h != lo { Apart(len, b, h, k); }
    }
  }

  /** The span that `free` of block `h` coalesces, and what lies at its ends. */
  lemma MergeSpan(len: int, b: Blocks, h: int)
    requires Tiled(len, b) && Coalesced(b) && IsTaken(b, h) && !Sentinel(len, h)
    ensures var lo, hi := MergeLo(len, b, h), MergeHi(b, h);
      && Span(len, b, lo, hi) && lo <= h < hi
      && !IsAvail(b, Left(len, b, lo)) && !IsAvail(b, hi)
      && (forall k | k in b && lo <= k < hi :: k == h || k == Left(len, b, h) || k == Right(b, h))
      && (lo == h || lo == Left(len, b, h)) && (hi == Right(b, h) || IsAvail(b, Right(b, h)))
  {
    var l, r := Left(len, b, h), Right(b, h);
    InBounds(len, b, h);
    InBounds(len, b, l);
    assert IsAvail(b, l) ==> !Sentinel(len, l);
    assert IsAvail(b, r) ==> !Sentinel(len, r);
    if IsAvail(b, r) { InBounds(len, b, r); }
    var lo, hi := MergeLo(len, b, h), MergeHi(b, h);
    assert hi in b;
    if IsAvail(b, l) {
      var ll := Left(len, b, l);
      assert Right(b, ll) == l;
    }
    forall k | k in b && lo <= k < hi ensures k == h || k == l || k == r {
      if k < h && k != l { if k < l { Apart(len, b, k, l); } else { Apart(len, b, l, k); } }
      if h < k { Apart(len, b, h, k); }
      if r < k { Apart(len, b, r, k); }
    }
  }

  // ------------------------------------------------------------------
  // The operations keep the heap invariant

  lemma WithoutSound(b: Blocks, free: seq<int>, x: int)
    requires ListSound(b, free)
    ensures ListSound(b, Without(free, x))
  {
    if x in free {
      var k :| 0 <= k < |free| && free[k] == x;
      WithoutAt(free, k);
    } else {
      WithoutAbsent(free, x);
    }
  }

  /** Soundness of a list moves to another block map that agrees on the listed blocks. */
  lemma SoundIn(b: Blocks, c: Blocks, free: seq<int>)
    requires ListSound(b, free)
    requires forall h | h in free :: IsAvail(c, h)
    ensures ListSound(c, free)
  {
  }

  lemma PushSound(b: Blocks, free: seq<int>, h: int)
    requires ListSound(b, free) && IsAvail(b, h) && h !in free
    ensures ListSound(b, [h] + free)
  {
    var t := [h] + free;
    assert forall i | 0 < i < |t| :: t[i] == free[i - 1];
  }

  lemma AllocateKeepsTiling(s: State, ints: int)
    requires Inv(s) && ints >= 4
    ensures var t := Allocate(s, ints).0; Tiled(t.len, t.blocks) && Coalesced(t.blocks)
  {
    var k := FirstFit(s.blocks, s.free, ints, 0);
    if k < |s.free| {
      var p := s.free[k];
      var c := Carve(s.blocks, p, ints);
      InBounds(s.len, s.blocks, p);
      CarveTiles(s.len, s.blocks, p, ints);
      CarveRight(s.len, s.blocks, p, ints);
      assert !IsAvail(s.blocks, Right(s.blocks, p));
      forall h | IsAvail(c, h) ensures !IsAvail(c, Right(c, h)) {
        if h in s.blocks {
          assert h != p && IsAvail(s.blocks, h) && Right(c, h) == Right(s.blocks, h);
          if s.blocks[p] - ints >= 4 && Right(c, h) == p + ints { LeftUnique(s.len, c, p + ints, h); LeftUnique(s.len, c, p + ints, p); }
        }
      }
    }
  }

  lemma CarveList(b: Blocks, free: seq<int>, p: int, ints: int)
    requires ListSound(b, free) && ListComplete(b, free) && p in free
    requires 4 <= ints <= b[p] && (ints < b[p] ==> p + ints !in b)
    ensures ListSound(Carve(b, p, ints), CarveFree(b, free, p, ints))
    ensures ListComplete(Carve(b, p, ints), CarveFree(b, free, p, ints))
    ensures ListSound(Carve(b, p, ints), Without(free, p))
    ensures ints < b[p] ==> p + ints !in Without(free, p)
  {
    var c, rest := Carve(b, p, ints), Without(free, p);
    WithoutSound(b, free, p);
    forall h | h in rest ensures IsAvail(c, h) {
      assert h in free && IsAvail(b, h);
    }
    SoundIn(b, c, rest);
    if b[p] - ints >= 4 {
      PushSound(c, rest, p + ints);
    }
  }

  lemma AllocateKeepsList(s: State, ints: int)
    requires Inv(s) && ints >= 4
    ensures var t := Allocate(s, ints).0; ListSound(t.blocks, t.free) && ListComplete(t.blocks, t.free)
  {
    var k := FirstFit(s.blocks, s.free, ints, 0);
    if k < |s.free| {
      var p := s.free[k];
      if p + ints in s.blocks { Apart(s.len, s.blocks, p, p + ints); }
      CarveList(s.blocks, s.free, p, ints);
    }
  }

  /** `malloc` keeps the heap invariant. */
  lemma AllocateKeeps(s: State, ints: int)
    requires Inv(s) && ints >= 4
    ensures Inv(Allocate(s, ints).0)
  {
    AllocateKeepsTiling(s, ints);
    AllocateKeepsList(s, ints);
  }

  lemma ReleaseKeepsTiling(s: State, h: int)
    requires Inv(s) && IsTaken(s.blocks, h) && !Sentinel(s.len, h)
    ensures var t := Release(s, h); Tiled(t.len, t.blocks) && Coalesced(t.blocks)
  {
    var lo, hi := MergeLo(s.len, s.blocks, h), MergeHi(s.blocks, h);
    MergeSpan(s.len, s.blocks, h);
    MergeRight(s.len, s.blocks, lo, hi);
    MergeTiles(s.len, s.blocks, lo, hi);
    var c := Merge(s.blocks, lo, hi);
    forall k | IsAvail(c, k) ensures !IsAvail(c, Right(c, k)) {
      if k != lo {
        assert !IsAvail(s.blocks, Right(s.blocks, k));
        if Right(c, k) == lo { LeftUnique(s.len, s.blocks, lo, k); }
      }
    }
  }

  lemma ReleaseKeepsList(s: State, h: int)
    requires Inv(s) && IsTaken(s.blocks, h) && !Sentinel(s.len, h)
    ensures var t := Release(s, h); ListSound(t.blocks, t.free) && ListComplete(t.blocks, t.free)
  {
    var b := s.blocks;
    var lo, hi, l, r := MergeLo(s.len, b, h), MergeHi(b, h), Left(s.len, b, h), Right(b, h);
    MergeSpan(s.len, b, h);
    MergeRight(s.len, b, lo, hi);
    var c := Merge(b, lo, hi);
    WithoutSound(b, s.free, l);
    WithoutSound(b, Without(s.free, l), r);
    var rest := Without(Without(s.free, l), r);
    assert forall k | k in rest :: IsAvail(b, k) && !(lo <= k < hi);
    SoundIn(b, c, rest);
    PushSound(c, rest, lo);
    forall k | IsAvail(c, k) ensures k in [lo] + rest {
      if k != lo {
        assert IsAvail(b, k) && k in s.free;
        assert k != r by { if k == r { InBounds(s.len, b, r); } }
      }
    }
  }

  /** `free` of a live block keeps the heap invariant. */
  lemma ReleaseKeeps(s: State, h: int)
    requires Inv(s) && IsTaken(s.blocks, h) && !Sentinel(s.len, h)
    ensures Inv(Release(s, h))
  {
    ReleaseKeepsTiling(s, h);
    ReleaseKeepsList(s, h);
  }

  // ------------------------------------------------------------------
  // Runs

  /** What a client asks of the heap; `Free` names a block by its header. */
  datatype Op = Malloc(bytes: nat) | Free(header: int)

  ghost predicate Legal(s: State, op: Op) {
    op.Free? ==> IsTaken(s.blocks, op.header) && !Sentinel(s.len, op.header)
  }

  ghost function Step(s: State, op: Op): State
    requires Inv(s) && Legal(s, op)
  {
    match op
    case Malloc(bytes) => if bytes == 0 then s else Allocate(s, IntsFor(bytes)).0
    case Free(h) => Release(s, h)
  }

  /** The states of a run: each one is the previous one after a legal request. */
  ghost predicate IsRun(states: seq<State>, ops: seq<Op>) {
    && |states| == |ops| + 1
    && Inv(states[0])
    && forall i | 0 <= i < |ops| :: Inv(states[i]) ==> Legal(states[i], ops[i]) && states[i + 1] == Step(states[i], ops[i])
  }

  /** The heap after initialization. */
  function Initial(len: int): State {
    State(len, map[0 := -2, 2 := len - 4, len - 2 := -2], [2])
  }

  lemma InitialInv(len: int)
    requires len >= 8
    ensures Inv(Initial(len))
  {
    var b := Initial(len).blocks;
    assert Right(b, 0) == 2 && Right(b, 2) == len - 2 && Right(b, len - 2) == len;
  }

  /** Every state of every run is a well-tiled, coalesced heap with an exact free list. */
  lemma {:induction false} RunKeepsInv(states: seq<State>, ops: seq<Op>, i: nat)
    requires IsRun(states, ops) && i < |states|
    ensures Inv(states[i]) && states[i].len == states[0].len
  {
    if i > 0 {
      RunKeepsInv(states, ops, i - 1);
      var op := ops[i - 1];
      if op.Malloc? { AllocateKeeps(states[i - 1], IntsFor(op.bytes)); } else { ReleaseKeeps(states[i - 1], op.header); }
    }
  }

  lemma OnlyMember(xs: seq<int>, x: int)
    requires x in xs && forall i | 0 <= i < |xs| :: xs[i] == x
    ensures Distinct(xs) ==> xs == [x]
  {
    if |xs| > 1 {
      assert xs[0] == xs[1];
    }
  }

  /** With no live block left, one available block spans everything between the sentinels. */
  lemma NothingLive(s: State)
    requires Inv(s)
    requires forall h | IsTaken(s.blocks, h) :: Sentinel(s.len, h)
    ensures s == Initial(s.len)
  {
    var b := s.blocks;
    assert Right(b, 0) == 2;
    InBounds(s.len, b, 2);
    var r := Right(b, 2);
    assert r in b && !IsAvail(b, r);
    assert Fits(s.len, b, r);
    forall h | h in b ensures h == 0 || h == 2 || h == s.len - 2 {
      InBounds(s.len, b, h);
      if 2 < h { Apart(s.len, b, 2, h); }
    }
    assert b == Initial(s.len).blocks;
    assert forall i | 0 <= i < |s.free| :: IsAvail(b, s.free[i]) && s.free[i] == 2;
    assert 2 in s.free;
    OnlyMember(s.free, 2);
  }

  /** A run from an empty heap that has freed all it took is back where it began. */
  lemma RunThatFreesAll(states: seq<State>, ops: seq<Op>, len: int)
    requires len >= 8 && IsRun(states, ops) && states[0] == Initial(len)
    requires var last := states[|ops|]; forall h | IsTaken(last.blocks, h) :: Sentinel(len, h)
    ensures states[|ops|] == Initial(len)
  {
    RunKeepsInv(states, ops, |ops|);
    NothingLive(states[|ops|]);
  }

  // ------------------------------------------------------------------
  // What malloc promises

  /** The block handed out is the first one in list order that is large enough; there is
      none exactly when no available block is. */
  lemma AllocateIsFirstFit(s: State, ints: int)
    requires Inv(s) && ints >= 4
    ensures var r := Allocate(s, ints).1;
      && (r.None? <==> forall h | IsAvail(s.blocks, h) :: s.blocks[h] < ints)
      && (r.Some? ==> exists k :: 0 <= k < |s.free| && s.free[k] == r.value && s.blocks[s.free[k]] >= ints
                                  && forall j | 0 <= j < k :: s.blocks[s.free[j]] < ints)
  {
    var k := FirstFit(s.blocks, s.free, ints, 0);
    if k < |s.free| {
      assert s.free[k] == Allocate(s, ints).1.value;
      assert IsAvail(s.blocks, s.free[k]);
    } else {
      forall h | IsAvail(s.blocks, h) ensures s.blocks[h] < ints { assert h in s.free; }
    }
  }

  lemma CarveFresh(len: int, b: Blocks, p: int, ints: int)
    requires Tiled(len, b) && IsAvail(b, p) && 4 <= ints <= b[p]
    ensures var c := Carve(b, p, ints);
      && IsTaken(c, p) && ints <= Size(c, p) < ints + 4
      && (forall h | IsTaken(b, h) :: IsTaken(c, h) && c[h] == b[h] && (Right(c, h) <= p || Right(c, p) <= h))
      && (forall h | IsTaken(c, h) :: h == p || IsTaken(b, h))
  {
    var c := Carve(b, p, ints);
    CarveRight(len, b, p, ints);
    forall h | IsTaken(b, h) ensures IsTaken(c, h) && c[h] == b[h] && (Right(c, h) <= p || Right(c, p) <= h) {
      if h < p { Apart(len, b, h, p); } else { Apart(len, b, p, h); }
    }
  }

  /** The block handed out is new, wastes less than one minimal block, and lies apart from
      every live block; the live blocks stay as they are. */
  lemma AllocateIsFresh(s: State, ints: int)
    requires Inv(s) && ints >= 4 && Allocate(s, ints).1.Some?
    ensures var (t, r) := Allocate(s, ints); var (p, c) := (r.value, t.blocks);
      && IsTaken(c, p) && !Sentinel(t.len, p) && !IsTaken(s.blocks, p)
      && ints <= Size(c, p) < ints + 4
      && (forall h | IsTaken(s.blocks, h) :: IsTaken(c, h) && c[h] == s.blocks[h] && (Right(c, h) <= p || Right(c, p) <= h))
      && (forall h | IsTaken(c, h) :: h == p || IsTaken(s.blocks, h))
  {
    var p := s.free[FirstFit(s.blocks, s.free, ints, 0)];
    assert IsAvail(s.blocks, p);
    CarveFresh(s.len, s.blocks, p, ints);
  }

  /** The ints computed hold the bytes exactly when `bytes + 3` does not wrap. */
  lemma IntsHold(bytes: nat)
    requires 0 < bytes < 0x1_0000_0000
    ensures 4 * (IntsFor(bytes) - 2) >= bytes <==> bytes <= 0xFFFF_FFFC
    ensures bytes > 0xFFFF_FFFC ==> IntsFor(bytes) == 4
  {
  }

  /** A request is served in full exactly when `bytes + 3` does not wrap: then, and only then,
      the payload of the block handed out holds the bytes. */
  lemma RequestHolds(s: State, bytes: nat)
    requires Inv(s) && 0 < bytes < 0x1_0000_0000 && Allocate(s, IntsFor(bytes)).1.Some?
    ensures var (t, r) := Allocate(s, IntsFor(bytes));
      IsTaken(t.blocks, r.value) && (4 * (Size(t.blocks, r.value) - 2) >= bytes <==> bytes <= 0xFFFF_FFFC)
  {
    IntsHold(bytes);
    AllocateIsFresh(s, IntsFor(bytes));
  }

  /** The ints computed are the fewest whose payload, without the two tags, holds the bytes,
      and at least 4. */
  lemma FewestInts(bytes: nat, n: int)
    requires 0 < bytes <= 0xFFFF_FFFC && n >= 4
    ensures n >= IntsFor(bytes) <==> 4 * (n - 2) >= bytes
  {
  }

  /** Block `p` of `b`, the first listed that holds the bytes, was handed out: as few ints of it
      as hold the bytes and make a block, or all of it where that leaves less than a block. */
  ghost predicate HandedOut(b: Blocks, free: seq<int>, bytes: nat, c: Blocks, p: int) {
    && IsAvail(b, p) && IsTaken(c, p)
    && (exists k :: 0 <= k < |free| && free[k] == p && forall j | 0 <= j < k :: free[j] in b && 4 * (b[free[j]] - 2) < bytes)
    && 4 * (Size(c, p) - 2) >= bytes
    && (Size(c, p) == 4 || 4 * (Size(c, p) - 3) < bytes || (Size(c, p) == b[p] && (b[p] < 8 || 4 * (b[p] - 2) < bytes + 16)))
  }

  /** Requests in bytes: one fails exactly if every available block is too small for it. */
  lemma BytesServed(s: State, bytes: nat)
    requires Inv(s) && 0 < bytes <= 0xFFFF_FFFC
    ensures var (t, r) := Allocate(s, IntsFor(bytes));
      && (r.None? <==> forall h | IsAvail(s.blocks, h) :: 4 * (s.blocks[h] - 2) < bytes)
      && (r.Some? ==> HandedOut(s.blocks, s.free, bytes, t.blocks, r.value))
  {
    var ints := IntsFor(bytes);
    AllocateIsFirstFit(s, ints);
    RoomInBytes(s, bytes);
    var k := FirstFit(s.blocks, s.free, ints, 0);
    if k < |s.free| {
      assert forall j | 0 <= j < k :: IsAvail(s.blocks, s.free[j]) && s.blocks[s.free[j]] < ints;
      assert IsAvail(s.blocks, s.free[k]);
      SizeHanded(s.blocks, s.free[k], bytes);
    }
  }

  lemma RoomInBytes(s: State, bytes: nat)
    requires Tiled(s.len, s.blocks) && 0 < bytes <= 0xFFFF_FFFC
    ensures forall h | IsAvail(s.blocks, h) :: s.blocks[h] >= IntsFor(bytes) <==> 4 * (s.blocks[h] - 2) >= bytes
  {
    forall h | IsAvail(s.blocks, h) ensures s.blocks[h] >= IntsFor(bytes) <==> 4 * (s.blocks[h] - 2) >= bytes {
      assert Fits(s.len, s.blocks, h);
      FewestInts(bytes, s.blocks[h]);
    }
  }

  lemma SizeHanded(b: Blocks, p: int, bytes: nat)
    requires IsAvail(b, p) && 0 < bytes <= 0xFFFF_FFFC && b[p] >= IntsFor(bytes)
    ensures var c := Carve(b, p, IntsFor(bytes));
      && IsTaken(c, p) && 4 * (Size(c, p) - 2) >= bytes
      && (Size(c, p) == 4 || 4 * (Size(c, p) - 3) < bytes || (Size(c, p) == b[p] && (b[p] < 8 || 4 * (b[p] - 2) < bytes + 16)))
  {
    var ints := IntsFor(bytes);
    FewestInts(bytes, ints);
    FewestInts(bytes, b[p]);
    if ints > 4 { FewestInts(bytes, ints - 1); }
  }

  /** The smallest request that wraps gets two payload ints for four gigabytes, even from a
      heap that has no more than these. */
  lemma WrappedRequest()
    ensures var (t, r) := Allocate(Initial(8), IntsFor(0xFFFF_FFFD));
      r == Some(2) && IsTaken(t.blocks, 2) && Size(t.blocks, 2) == 4
  {
    var s := Initial(8);
    assert s.blocks[s.free[0]] == 4;
  }

  /** Releasing a block takes away that block and no other live one. */
  lemma ReleaseKeepsOthers(s: State, h: int)
    requires Inv(s) && IsTaken(s.blocks, h) && !Sentinel(s.len, h)
    ensures forall k | IsTaken(s.blocks, k) && k != h :: IsTaken(Release(s, h).blocks, k) && Release(s, h).blocks[k] == s.blocks[k]
    ensures forall k | IsTaken(Release(s, h).blocks, k) :: IsTaken(s.blocks, k) && k != h
  {
    MergeSpan(s.len, s.blocks, h);
    MergeRight(s.len, s.blocks, MergeLo(s.len, s.blocks, h), MergeHi(s.blocks, h));
    var r := Right(s.blocks, h);
    if MergeHi(s.blocks, h) == r { InBounds(s.len, s.blocks, h); }
  }

  lemma MergeUndoesCarve(len: int, b: Blocks, p: int, ints: int)
    requires Tiled(len, b) && Coalesced(b) && IsAvail(b, p) && 4 <= ints <= b[p]
    ensures var c := Carve(b, p, ints);
      && Tiled(len, c) && p in c && p != 0
      && MergeLo(len, c, p) == p && MergeHi(c, p) == Right(b, p)
      && Merge(c, p, Right(b, p)) == b
  {
    var c := Carve(b, p, ints);
    CarveRight(len, b, p, ints);
    CarveTiles(len, b, p, ints);
    var l := Left(len, b, p);
    LeftUnique(len, c, p, l);
    assert Right(b, l) == p;
    InBounds(len, b, p);
    assert !IsAvail(b, Right(b, p));
    forall h | h in b ensures !(p < h < Right(b, p)) {
      if p < h { Apart(len, b, p, h); }
    }
  }

  /** `free` undoes `malloc`: tiling and availability come back, only list order may not. */
  lemma ReleaseUndoesAllocate(s: State, ints: int)
    requires Inv(s) && ints >= 4 && Allocate(s, ints).1.Some?
    ensures var (t, r) := Allocate(s, ints);
      && Inv(t) && IsTaken(t.blocks, r.value) && !Sentinel(t.len, r.value)
      && Release(t, r.value).blocks == s.blocks
      && (forall h :: h in Release(t, r.value).free <==> h in s.free)
  {
    AllocateKeeps(s, ints);
    var (t, r) := Allocate(s, ints);
    var p := s.free[FirstFit(s.blocks, s.free, ints, 0)];
    assert IsAvail(s.blocks, p);
    MergeUndoesCarve(s.len, s.blocks, p, ints);
    CarveFresh(s.len, s.blocks, p, ints);
    ReleaseKeepsList(t, p);
    SameMembers(s.blocks, s.free, Release(t, p).free);
  }

  /** Two exact lists of the available blocks have the same members. */
  lemma SameMembers(b: Blocks, xs: seq<int>, ys: seq<int>)
    requires ListSound(b, xs) && ListComplete(b, xs) && ListSound(b, ys) && ListComplete(b, ys)
    ensures forall h :: h in xs <==> h in ys
  {
  }
}
