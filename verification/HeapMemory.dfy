/** The first-fit heap in its int array: boundary tags around every block and a doubly
    linked free list inside the available ones (kernel/heap.cc, user/heap.c). */
module HeapMemory {
  import opened Common
  import opened Heap

  // ------------------------------------------------------------------
  // How memory words represent the block view

  function Head(free: seq<int>): int {
    if free == [] then 0 else free[0]
  }

  function NextLink(free: seq<int>, i: nat): int {
    if i + 1 < |free| then free[i + 1] else 0
  }

  function PrevLink(free: seq<int>, i: nat): int
    requires i < |free|
  {
    if i > 0 then free[i - 1] else 0
  }

  predicate TagsAt(mem: seq<int>, b: Blocks, h: int)
    requires h in b
  {
    0 <= h < Right(b, h) <= |mem| && mem[h] == b[h] && mem[Right(b, h) - 1] == b[h]
  }

  /** Header and footer of every block hold its signed size. */
  ghost predicate Tagged(mem: seq<int>, b: Blocks) {
    forall h {:trigger TagsAt(mem, b, h)} | h in b :: TagsAt(mem, b, h)
  }

  predicate LinksAt(mem: seq<int>, free: seq<int>, i: nat)
    requires i < |free|
  {
    0 <= free[i] && free[i] + 2 < |mem| && mem[free[i] + 1] == NextLink(free, i) && mem[free[i] + 2] == PrevLink(free, i)
  }

  /** Words one and two of every listed block link it to its list neighbours. */
  ghost predicate Linked(mem: seq<int>, free: seq<int>) {
    forall i {:trigger LinksAt(mem, free, i)} | 0 <= i < |free| :: LinksAt(mem, free, i)
  }

  ghost predicate Represents(mem: seq<int>, avail: int, s: State) {
    |mem| == s.len && Tagged(mem, s.blocks) && Linked(mem, s.free) && avail == Head(s.free)
  }

  /** A heap in the middle of an operation: some available blocks may be off the list, or
      touch one another. */
  ghost predicate Shape(mem: seq<int>, avail: int, s: State) {
    Tiled(s.len, s.blocks) && ListSound(s.blocks, s.free) && Represents(mem, avail, s)
  }

  /** Payload words of the blocks taken in `b`, except block `x`, are the same. */
  ghost predicate PayloadsKept(mem: seq<int>, mem': seq<int>, b: Blocks, x: int) {
    && |mem'| == |mem|
    && forall h, i {:trigger IsTaken(b, h), mem'[i]} | IsTaken(b, h) && h != x && 0 <= h < i < Right(b, h) - 1 < |mem| ::
         mem'[i] == mem[i]
  }

  // ------------------------------------------------------------------
  // The three groups of writes

  function Abs(x: int): nat {
    if x < 0 then -x else x
  }

  /** Header and footer of a block of `|v|` ints at `i`. */
  function WriteTags(mem: seq<int>, i: int, v: int): seq<int>
    requires 0 <= i < i + Abs(v) <= |mem|
  {
    mem[i := v][i + Abs(v) - 1 := v]
  }

  /** Make list neighbours `p` and `n` point past the block between them. */
  function Bypass(mem: seq<int>, p: int, n: int): seq<int>
    requires p != 0 ==> 0 <= p && p + 1 < |mem|
    requires n != 0 ==> 0 <= n && n + 2 < |mem|
  {
    var m := if p != 0 then mem[p + 1 := n] else mem;
    if n != 0 then m[n + 2 := p] else m
  }

  /** Link block `i` in front of a list that starts at `avail`. */
  function LinkFront(mem: seq<int>, i: int, avail: int): seq<int>
    requires 0 <= i && i + 2 < |mem|
    requires avail != 0 ==> 0 <= avail && avail + 2 < |mem|
  {
    var m := mem[i + 1 := avail][i + 2 := 0];
    if avail != 0 then m[avail + 2 := i] else m
  }

  // ------------------------------------------------------------------
  // Words of different blocks are different words

  /** The link words of an available block are strictly between its tags, and outside
      every other block. */
  lemma LinksInside(len: int, b: Blocks, f: int, h: int)
    requires Tiled(len, b) && IsAvail(b, f) && h in b
    ensures f != 0 && f + 2 < Right(b, f) - 1 < len
    ensures h != f ==> Right(b, h) <= f || Right(b, f) <= h
  {
    InBounds(len, b, f);
    InBounds(len, b, h);
    if h < f { Apart(len, b, h, f); }
    if f < h { Apart(len, b, f, h); }
  }

  /** Writes confined to link words of available blocks. */
  ghost predicate LinkWrites(mem: seq<int>, mem': seq<int>, b: Blocks) {
    && |mem'| == |mem|
    && forall i | 0 <= i < |mem| && mem'[i] != mem[i] :: IsAvail(b, i - 1) || IsAvail(b, i - 2)
  }

  lemma LinkWritesKeepTags(len: int, mem: seq<int>, mem': seq<int>, b: Blocks)
    requires Tiled(len, b) && |mem| == len && Tagged(mem, b) && LinkWrites(mem, mem', b)
    ensures Tagged(mem', b)
  {
    forall h | h in b
      ensures TagsAt(mem', b, h)
    {
      assert TagsAt(mem, b, h);
      InBounds(len, b, h);
      LinkWordAway(len, b, h, h);
      LinkWordAway(len, b, h, Right(b, h) - 1);
    }
  }

  lemma LinkWordAway(len: int, b: Blocks, h: int, i: int)
    requires Tiled(len, b) && h in b && (i == h || i == Right(b, h) - 1 || (IsTaken(b, h) && h <= i < Right(b, h)))
    ensures !IsAvail(b, i - 1) && !IsAvail(b, i - 2)
  {
    InBounds(len, b, h);
    if IsAvail(b, i - 1) { LinksInside(len, b, i - 1, h); }
    if IsAvail(b, i - 2) { LinksInside(len, b, i - 2, h); }
  }

  lemma LinkWritesKeepPayloads(len: int, mem: seq<int>, mem': seq<int>, b: Blocks, x: int)
    requires Tiled(len, b) && |mem| == len && LinkWrites(mem, mem', b)
    ensures PayloadsKept(mem, mem', b, x)
  {
    forall h, i | IsTaken(b, h) && h != x && 0 <= h < i < Right(b, h) - 1 < |mem| ensures mem'[i] == mem[i] {
      LinkWordAway(len, b, h, i);
    }
  }

  // ------------------------------------------------------------------
  // Taking a block off the list and putting one on

  predicate Clear(free: seq<int>, i: nat, j: nat)
    requires i < |free| && j < |free|
  {
    free[i] + 4 <= free[j] || free[j] + 4 <= free[i]
  }

  /** Listed blocks lie inside the array, four words or more from one another. */
  ghost predicate Spaced(len: int, free: seq<int>) {
    && (forall i | 0 <= i < |free| :: 0 < free[i] && free[i] + 2 < len)
    && (forall i, j {:trigger Clear(free, i, j)} | 0 <= i < |free| && 0 <= j < |free| && i != j :: Clear(free, i, j))
  }

  lemma ListSpaced(len: int, b: Blocks, free: seq<int>)
    requires Tiled(len, b) && ListSound(b, free)
    ensures Spaced(len, free)
  {
    forall i | 0 <= i < |free| ensures 0 < free[i] && free[i] + 2 < len {
      InBounds(len, b, free[i]);
      LinksInside(len, b, free[i], free[i]);
    }
    forall i, j | 0 <= i < |free| && 0 <= j < |free| && i != j ensures Clear(free, i, j) {
      LinksInside(len, b, free[i], free[j]);
      LinksInside(len, b, free[j], free[i]);
    }
  }

  lemma Gap(len: int, free: seq<int>, i: nat, j: nat)
    requires Spaced(len, free) && i < |free| && j < |free|
    ensures 0 < free[i] && free[i] + 2 < len
    ensures i != j ==> free[i] + 4 <= free[j] || free[j] + 4 <= free[i]
  {
    assert i != j ==> Clear(free, i, j);
  }

  lemma NeighboursInside(len: int, free: seq<int>, k: nat)
    requires Spaced(len, free) && k < |free|
    ensures var (p, n) := (PrevLink(free, k), NextLink(free, k));
      && (p == 0 <==> k == 0) && (n == 0 <==> k + 1 == |free|)
      && (p != 0 ==> 0 <= p && p + 1 < len) && (n != 0 ==> 0 <= n && n + 2 < len)
  {
  }

  lemma BypassAt(mem: seq<int>, free: seq<int>, k: nat, j: nat)
    requires Spaced(|mem|, free) && k < |free| && j < |free| && j != k
    requires PrevLink(free, k) != 0 ==> 0 <= PrevLink(free, k) && PrevLink(free, k) + 1 < |mem|
    requires NextLink(free, k) != 0 ==> 0 <= NextLink(free, k) && NextLink(free, k) + 2 < |mem|
    ensures 0 <= free[j] && free[j] + 2 < |mem|
    ensures var m := Bypass(mem, PrevLink(free, k), NextLink(free, k));
      && m[free[j] + 1] == (if j + 1 == k then NextLink(free, k) else mem[free[j] + 1])
      && m[free[j] + 2] == (if j == k + 1 then PrevLink(free, k) else mem[free[j] + 2])
  {
    if k > 0 { Gap(|mem|, free, j, k - 1); }
    if k + 1 < |free| { Gap(|mem|, free, j, k + 1); }
  }

  function Drop(free: seq<int>, k: nat): seq<int>
    requires k < |free|
  {
    free[..k] + free[k + 1..]
  }

  lemma DropAt(free: seq<int>, k: nat, i: nat)
    requires k < |free| && i < |free| - 1
    ensures var (xs, j) := (Drop(free, k), if i < k then i else i + 1);
      && |xs| == |free| - 1 && j != k && j < |free| && xs[i] == free[j]
      && NextLink(xs, i) == (if j + 1 == k then NextLink(free, k) else NextLink(free, j))
      && PrevLink(xs, i) == (if j == k + 1 then PrevLink(free, k) else PrevLink(free, j))
  {
  }

  lemma BypassUnlinks(mem: seq<int>, free: seq<int>, k: nat)
    requires Spaced(|mem|, free) && Linked(mem, free) && k < |free|
    requires PrevLink(free, k) != 0 ==> 0 <= PrevLink(free, k) && PrevLink(free, k) + 1 < |mem|
    requires NextLink(free, k) != 0 ==> 0 <= NextLink(free, k) && NextLink(free, k) + 2 < |mem|
    ensures Linked(Bypass(mem, PrevLink(free, k), NextLink(free, k)), Drop(free, k))
  {
    var m, xs := Bypass(mem, PrevLink(free, k), NextLink(free, k)), Drop(free, k);
    forall i | 0 <= i < |xs|
      ensures LinksAt(m, xs, i)
    {
      var j := if i < k then i else i + 1;
      DropAt(free, k, i);
      BypassAt(mem, free, k, j);
      assert LinksAt(mem, free, j);
    }
  }

  lemma BypassRepresented(s: State, mem: seq<int>, k: nat)
    requires Shape(mem, Head(s.free), s) && k < |s.free|
    ensures var (p, n) := (PrevLink(s.free, k), NextLink(s.free, k));
      && (p == 0 <==> k == 0) && (p == 0 || p in s.blocks) && (n == 0 || n in s.blocks)
      && (p != 0 ==> 0 <= p && p + 1 < |mem|) && (n != 0 ==> 0 <= n && n + 2 < |mem|)
      && Shape(Bypass(mem, p, n), if p == 0 then n else Head(s.free), s.(free := Without(s.free, s.free[k])))
      && PayloadsKept(mem, Bypass(mem, p, n), s.blocks, -1)
  {
    var free, b := s.free, s.blocks;
    ListSpaced(s.len, b, free);
    NeighboursInside(s.len, free, k);
    var (p, n) := (PrevLink(free, k), NextLink(free, k));
    assert p != 0 ==> p == free[k - 1];
    assert n != 0 ==> n == free[k + 1];
    BypassUnlinks(mem, free, k);
    WithoutAt(free, k);
    WithoutSound(b, free, free[k]);
    LinkWritesKeepTags(s.len, mem, Bypass(mem, p, n), b);
    LinkWritesKeepPayloads(s.len, mem, Bypass(mem, p, n), b, -1);
  }

  lemma LinkFrontPushes(mem: seq<int>, free: seq<int>, q: int)
    requires Spaced(|mem|, [q] + free) && Linked(mem, free)
    requires 0 <= q && q + 2 < |mem| && (Head(free) != 0 ==> 0 <= Head(free) && Head(free) + 2 < |mem|)
    ensures Linked(LinkFront(mem, q, Head(free)), [q] + free)
  {
    var xs := [q] + free;
    var m := LinkFront(mem, q, Head(free));
    forall i | 0 <= i < |xs|
      ensures LinksAt(m, xs, i)
    {
      Gap(|mem|, xs, i, 0);
      if free != [] { Gap(|mem|, xs, i, 1); }
      if i > 0 { assert LinksAt(mem, free, i - 1); }
    }
  }

  // ------------------------------------------------------------------
  // Rewriting the blocks of a span

  ghost predicate SameOutside(mem: seq<int>, mem': seq<int>, lo: int, hi: int) {
    |mem'| == |mem| && forall i | 0 <= i < |mem| && !(lo <= i < hi) :: mem'[i] == mem[i]
  }

  lemma OutsideSpan(len: int, b: Blocks, lo: int, hi: int, h: int)
    requires Tiled(len, b) && Span(len, b, lo, hi) && h in b && !(lo <= h < hi)
    ensures 0 <= h < Right(b, h) <= len && (Right(b, h) <= lo || hi <= h)
  {
    InBounds(len, b, h);
    if h < lo { Apart(len, b, h, lo); }
  }

  lemma SpanTags(len: int, b: Blocks, c: Blocks, mem: seq<int>, mem': seq<int>, lo: int, hi: int)
    requires Tiled(len, b) && |mem| == len && Tagged(mem, b) && Span(len, b, lo, hi) && SameOutside(mem, mem', lo, hi)
    requires forall h | h in c && !(lo <= h < hi) :: h in b && b[h] == c[h]
    requires forall h | h in c && lo <= h < hi :: TagsAt(mem', c, h)
    ensures Tagged(mem', c)
  {
    forall h | h in c
      ensures TagsAt(mem', c, h)
    {
      if !(lo <= h < hi) {
        OutsideSpan(len, b, lo, hi, h);
        assert TagsAt(mem, b, h);
      }
    }
  }

  lemma SpanLinks(len: int, b: Blocks, free: seq<int>, mem: seq<int>, mem': seq<int>, lo: int, hi: int)
    requires Tiled(len, b) && |mem| == len && ListSound(b, free) && Linked(mem, free)
    requires Span(len, b, lo, hi) && SameOutside(mem, mem', lo, hi)
    requires forall h | h in free :: !(lo <= h < hi)
    ensures Linked(mem', free)
  {
    forall i | 0 <= i < |free|
      ensures LinksAt(mem', free, i)
    {
      assert LinksAt(mem, free, i);
      assert free[i] in free;
      OutsideSpan(len, b, lo, hi, free[i]);
      LinksInside(len, b, free[i], free[i]);
    }
  }

  lemma SpanPayloads(len: int, b: Blocks, mem: seq<int>, mem': seq<int>, lo: int, hi: int, x: int)
    requires Tiled(len, b) && |mem| == len && Span(len, b, lo, hi) && SameOutside(mem, mem', lo, hi)
    requires forall h | IsTaken(b, h) && lo <= h < hi :: h == x
    ensures PayloadsKept(mem, mem', b, x)
  {
    forall h, i | IsTaken(b, h) && h != x && 0 <= h < i < Right(b, h) - 1 < |mem| ensures mem'[i] == mem[i] {
      OutsideSpan(len, b, lo, hi, h);
    }
  }

  // ------------------------------------------------------------------
  // The writes of malloc and free

  /** Tags written when `malloc` takes `ints` ints of available block `p`. */
  function CarveWrites(mem: seq<int>, p: int, sz: int, ints: int): seq<int>
    requires 0 <= p && 4 <= ints <= sz && p + sz <= |mem|
  {
    if sz - ints >= 4 then WriteTags(WriteTags(mem, p, -ints), p + ints, sz - ints) else WriteTags(mem, p, -sz)
  }

  lemma CarveRepresented(len: int, mem: seq<int>, b: Blocks, free: seq<int>, p: int, ints: int)
    requires Tiled(len, b) && |mem| == len && Tagged(mem, b) && ListSound(b, free) && Linked(mem, free)
    requires IsAvail(b, p) && p !in free && 4 <= ints <= b[p]
    ensures 0 <= p && p + b[p] <= len
    ensures var m := CarveWrites(mem, p, b[p], ints);
      Tagged(m, Carve(b, p, ints)) && Linked(m, free) && PayloadsKept(mem, m, b, p)
  {
    InBounds(len, b, p);
    var lo, hi, c, m := p, Right(b, p), Carve(b, p, ints), CarveWrites(mem, p, b[p], ints);
    CarveRight(len, b, p, ints);
    assert Right(b, p) in b;
    forall h | h in b && lo <= h < hi ensures h == p {
      if h != p { Apart(len, b, p, h); }
    }
    SpanTags(len, b, c, mem, m, lo, hi);
    SpanLinks(len, b, free, mem, m, lo, hi);
    SpanPayloads(len, b, mem, m, lo, hi, p);
  }

  lemma MergeRepresented(len: int, mem: seq<int>, b: Blocks, free: seq<int>, lo: int, hi: int, x: int)
    requires Tiled(len, b) && |mem| == len && Tagged(mem, b) && ListSound(b, free) && Linked(mem, free)
    requires Span(len, b, lo, hi)
    requires forall h | h in free :: !(lo <= h < hi)
    requires forall h | IsTaken(b, h) && lo <= h < hi :: h == x
    ensures var m := WriteTags(mem, lo, hi - lo);
      Tagged(m, Merge(b, lo, hi)) && Linked(m, free) && PayloadsKept(mem, m, b, x)
  {
    var c, m := Merge(b, lo, hi), WriteTags(mem, lo, hi - lo);
    MergeRight(len, b, lo, hi);
    SpanTags(len, b, c, mem, m, lo, hi);
    SpanLinks(len, b, free, mem, m, lo, hi);
    SpanPayloads(len, b, mem, m, lo, hi, x);
  }

  lemma HeadInside(len: int, free: seq<int>)
    requires Spaced(len, free)
    ensures Head(free) != 0 ==> 0 <= Head(free) && Head(free) + 2 < len
  {
  }

  lemma PushRepresented(len: int, mem: seq<int>, b: Blocks, free: seq<int>, q: int)
    requires Tiled(len, b) && |mem| == len && Tagged(mem, b) && ListSound(b, free) && Linked(mem, free)
    requires IsAvail(b, q) && q !in free
    requires 0 <= q && q + 2 < |mem| && (Head(free) != 0 ==> 0 <= Head(free) && Head(free) + 2 < |mem|)
    ensures ListSound(b, [q] + free)
    ensures var m := LinkFront(mem, q, Head(free));
      Tagged(m, b) && Linked(m, [q] + free) && PayloadsKept(mem, m, b, q)
  {
    PushSound(b, free, q);
    ListSpaced(len, b, [q] + free);
    LinkFrontPushes(mem, free, q);
    LinkWritesKeepTags(len, mem, LinkFront(mem, q, Head(free)), b);
    LinkWritesKeepPayloads(len, mem, LinkFront(mem, q, Head(free)), b, q);
  }

  lemma PayloadsKeptTrans(m0: seq<int>, m1: seq<int>, m2: seq<int>, b: Blocks, c: Blocks, x: int)
    requires PayloadsKept(m0, m1, b, x) && PayloadsKept(m1, m2, c, x)
    requires forall h | IsTaken(b, h) && h != x :: IsTaken(c, h) && c[h] == b[h]
    ensures PayloadsKept(m0, m2, b, x)
  {
    forall h, i | IsTaken(b, h) && h != x && 0 <= h < i < Right(b, h) - 1 < |m0| ensures m2[i] == m0[i] {
      assert IsTaken(c, h) && Right(c, h) == Right(b, h);
      assert m1[i] == m0[i];
    }
  }

  /** Memory after `malloc` took `ints` ints of block `p`, already off the list. */
  function TakeWrites(mem: seq<int>, p: int, sz: int, ints: int, avail: int): seq<int>
    requires 0 <= p && 4 <= ints <= sz && p + sz <= |mem|
    requires avail != 0 ==> 0 <= avail && avail + 2 < |mem|
  {
    var m := CarveWrites(mem, p, sz, ints);
    if sz - ints >= 4 then LinkFront(m, p + ints, avail) else m
  }

  lemma TakeRepresented(s: State, m0: seq<int>, mem: seq<int>, p: int, ints: int)
    requires Inv(s) && |mem| == s.len && p in s.free && 4 <= ints <= s.blocks[p]
    requires Tagged(mem, s.blocks) && Linked(mem, Without(s.free, p)) && PayloadsKept(m0, mem, s.blocks, -1)
    ensures var avail := Head(Without(s.free, p));
      && 0 <= p && p + s.blocks[p] <= s.len && (avail != 0 ==> 0 <= avail && avail + 2 < s.len)
      && var m := TakeWrites(mem, p, s.blocks[p], ints, avail);
      && Shape(m, if s.blocks[p] - ints >= 4 then p + ints else avail, Allocated(s, p, ints))
      && PayloadsKept(m0, m, s.blocks, p)
  {
    var b, rest, c := s.blocks, Without(s.free, p), Carve(s.blocks, p, ints);
    WithoutSound(b, s.free, p);
    ListSpaced(s.len, b, rest);
    HeadInside(s.len, rest);
    CarveRepresented(s.len, mem, b, rest, p, ints);
    if p + ints in b { Apart(s.len, b, p, p + ints); }
    CarveList(b, s.free, p, ints);
    CarveTiles(s.len, b, p, ints);
    var m := CarveWrites(mem, p, b[p], ints);
    PayloadsKeptTrans(m0, mem, m, b, b, p);
    if b[p] - ints >= 4 {
      CarveRelists(s.len, m, b, rest, p, ints);
      PayloadsKeptTrans(m0, m, LinkFront(m, p + ints, Head(rest)), b, b, p);
    }
  }

  lemma CarveRelists(len: int, m: seq<int>, b: Blocks, rest: seq<int>, p: int, ints: int)
    requires Tiled(len, b) && IsAvail(b, p) && 4 <= ints <= b[p] - 4 && |m| == len
    requires Tiled(len, Carve(b, p, ints)) && ListSound(Carve(b, p, ints), rest) && p + ints !in rest
    requires Tagged(m, Carve(b, p, ints)) && Linked(m, rest)
    requires 0 <= p && p + ints + 2 < len && (Head(rest) != 0 ==> 0 <= Head(rest) && Head(rest) + 2 < len)
    ensures var t := LinkFront(m, p + ints, Head(rest));
      Tagged(t, Carve(b, p, ints)) && Linked(t, [p + ints] + rest) && PayloadsKept(m, t, b, p)
  {
    var c := Carve(b, p, ints);
    PushRepresented(len, m, c, rest, p + ints);
    CarveRight(len, b, p, ints);
    CarveFresh(len, b, p, ints);
    SameButNewHead(m, LinkFront(m, p + ints, Head(rest)), b, c, p, ints);
  }

  lemma SameButNewHead(mem: seq<int>, mem': seq<int>, b: Blocks, c: Blocks, p: int, ints: int)
    requires PayloadsKept(mem, mem', c, p + ints) && p + ints !in b
    requires forall h | IsTaken(b, h) :: IsTaken(c, h) && c[h] == b[h]
    ensures PayloadsKept(mem, mem', b, p)
  {
    forall h, i | IsTaken(b, h) && h != p && 0 <= h < i < Right(b, h) - 1 < |mem| ensures mem'[i] == mem[i] {
      assert IsTaken(c, h) && Right(c, h) == Right(b, h);
    }
  }

  /** Memory after `free` merged the span from `lo` to `hi` and relisted it. */
  function MergeWrites(mem: seq<int>, lo: int, hi: int, avail: int): seq<int>
    requires 0 <= lo && hi - lo >= 4 && hi <= |mem|
    requires avail != 0 ==> 0 <= avail && avail + 2 < |mem|
  {
    LinkFront(WriteTags(mem, lo, hi - lo), lo, avail)
  }

  ghost function ReleaseRestOf(s: State, h: int): seq<int>
    requires Tiled(s.len, s.blocks) && h in s.blocks && h != 0
  {
    Without(Without(s.free, Left(s.len, s.blocks, h)), Right(s.blocks, h))
  }

  lemma ReleaseBounds(s: State, h: int)
    requires Inv(s) && IsTaken(s.blocks, h) && !Sentinel(s.len, h)
    ensures var (lo, hi, avail) := (MergeLo(s.len, s.blocks, h), MergeHi(s.blocks, h), Head(ReleaseRestOf(s, h)));
      && 0 <= lo && hi - lo >= 4 && hi <= s.len && (avail != 0 ==> 0 <= avail && avail + 2 < s.len)
  {
    var b, l, r := s.blocks, Left(s.len, s.blocks, h), Right(s.blocks, h);
    MergeSpan(s.len, b, h);
    MergeRight(s.len, b, MergeLo(s.len, b, h), MergeHi(b, h));
    WithoutSound(b, s.free, l);
    WithoutSound(b, Without(s.free, l), r);
    ListSpaced(s.len, b, ReleaseRestOf(s, h));
    HeadInside(s.len, ReleaseRestOf(s, h));
  }

  lemma ReleaseRepresented(s: State, m0: seq<int>, mem: seq<int>, h: int)
    requires Inv(s) && |mem| == s.len && IsTaken(s.blocks, h) && !Sentinel(s.len, h)
    requires Tagged(mem, s.blocks) && Linked(mem, ReleaseRestOf(s, h)) && PayloadsKept(m0, mem, s.blocks, -1)
    ensures var (lo, hi, avail) := (MergeLo(s.len, s.blocks, h), MergeHi(s.blocks, h), Head(ReleaseRestOf(s, h)));
      && 0 <= lo && hi - lo >= 4 && hi <= s.len && (avail != 0 ==> 0 <= avail && avail + 2 < s.len)
      && Represents(MergeWrites(mem, lo, hi, avail), lo, Release(s, h))
      && PayloadsKept(m0, MergeWrites(mem, lo, hi, avail), s.blocks, h)
  {
    var b, rest := s.blocks, ReleaseRestOf(s, h);
    var lo, hi := MergeLo(s.len, b, h), MergeHi(b, h);
    ReleaseBounds(s, h);
    MergeSpan(s.len, b, h);
    ReleaseRest(s, h);
    WithoutSound(b, s.free, Left(s.len, b, h));
    WithoutSound(b, Without(s.free, Left(s.len, b, h)), Right(b, h));
    MergeRepresented(s.len, mem, b, rest, lo, hi, h);
    var m := WriteTags(mem, lo, hi - lo);
    PayloadsKeptTrans(m0, mem, m, b, b, h);
    ReleaseRelists(s, m, h);
    PayloadsKeptTrans(m0, m, MergeWrites(mem, lo, hi, Head(rest)), b, b, h);
  }

  lemma ReleaseRelists(s: State, m: seq<int>, h: int)
    requires Inv(s) && |m| == s.len && IsTaken(s.blocks, h) && !Sentinel(s.len, h)
    requires Tagged(m, Release(s, h).blocks) && Linked(m, ReleaseRestOf(s, h))
    requires var (lo, avail) := (MergeLo(s.len, s.blocks, h), Head(ReleaseRestOf(s, h)));
      0 <= lo && lo + 2 < s.len && (avail != 0 ==> 0 <= avail && avail + 2 < s.len)
    ensures var (lo, avail) := (MergeLo(s.len, s.blocks, h), Head(ReleaseRestOf(s, h)));
      && Represents(LinkFront(m, lo, avail), lo, Release(s, h))
      && PayloadsKept(m, LinkFront(m, lo, avail), s.blocks, h)
  {
    var b, c, rest := s.blocks, Release(s, h).blocks, ReleaseRestOf(s, h);
    var lo := MergeLo(s.len, b, h);
    ReleaseRest(s, h);
    ReleaseKeepsTiling(s, h);
    PushRepresented(s.len, m, c, rest, lo);
    ReleaseKeepsOthers(s, h);
    SameButMerged(m, LinkFront(m, lo, Head(rest)), b, c, lo, h);
  }

  lemma ReleaseRest(s: State, h: int)
    requires Inv(s) && IsTaken(s.blocks, h) && !Sentinel(s.len, h)
    ensures var (lo, hi, rest) := (MergeLo(s.len, s.blocks, h), MergeHi(s.blocks, h), ReleaseRestOf(s, h));
      && (forall k | k in rest :: !(lo <= k < hi))
      && (forall k | IsTaken(s.blocks, k) && lo <= k < hi :: k == h)
      && ListSound(Release(s, h).blocks, rest) && lo !in rest && IsAvail(Release(s, h).blocks, lo)
  {
    MergeSpan(s.len, s.blocks, h);
    MergeRight(s.len, s.blocks, MergeLo(s.len, s.blocks, h), MergeHi(s.blocks, h));
    ReleaseKeepsList(s, h);
    TailSound(Release(s, h).blocks, ReleaseRestOf(s, h), MergeLo(s.len, s.blocks, h));
  }

  lemma TailSound(b: Blocks, free: seq<int>, h: int)
    requires ListSound(b, [h] + free)
    ensures ListSound(b, free)
  {
    var xs := [h] + free;
    assert forall i | 0 <= i < |free| :: free[i] == xs[i + 1];
  }

  lemma SameButMerged(mem: seq<int>, mem': seq<int>, b: Blocks, c: Blocks, lo: int, h: int)
    requires PayloadsKept(mem, mem', c, lo)
    requires forall k | IsTaken(b, k) && k != h :: IsTaken(c, k) && c[k] == b[k]
    requires !IsTaken(c, lo)
    ensures PayloadsKept(mem, mem', b, h)
  {
    forall k, i | IsTaken(b, k) && k != h && 0 <= k < i < Right(b, k) - 1 < |mem| ensures mem'[i] == mem[i] {
      assert IsTaken(c, k) && Right(c, k) == Right(b, k);
    }
  }

  // ------------------------------------------------------------------
  // Writes into a live payload

  /** Storing into the payload of a taken block disturbs no tag, no link, no other payload. */
  lemma PayloadWrites(s: State, avail: int, mem: seq<int>, mem': seq<int>, q: int)
    requires Inv(s) && Represents(mem, avail, s) && IsTaken(s.blocks, q)
    requires SameOutside(mem, mem', q + 1, Right(s.blocks, q) - 1)
    ensures Represents(mem', avail, s) && PayloadsKept(mem, mem', s.blocks, q)
  {
    var b := s.blocks;
    InBounds(s.len, b, q);
    forall h | h in b ensures TagsAt(mem', b, h) {
      assert TagsAt(mem, b, h);
      if h < q { Apart(s.len, b, h, q); }
      if q < h { Apart(s.len, b, q, h); }
    }
    forall i | 0 <= i < |s.free| ensures LinksAt(mem', s.free, i) {
      assert LinksAt(mem, s.free, i);
      LinksInside(s.len, b, s.free[i], q);
    }
    forall h, i | IsTaken(b, h) && h != q && 0 <= h < i < Right(b, h) - 1 < |mem| ensures mem'[i] == mem[i] {
      if h < q { Apart(s.len, b, h, q); } else { Apart(s.len, b, q, h); }
    }
  }

  /** 256 to the power `r`, for a number of bytes within a word. */
  function Radix(r: nat): int {
    if r == 0 then 1 else if r == 1 then 0x100 else if r == 2 then 0x1_0000 else 0x100_0000
  }

  /** Byte `j` counted from word `w`, little-endian. */
  function ByteAt(mem: seq<int>, w: int, j: nat): int
    requires 0 <= w && w + j / 4 < |mem|
  {
    mem[w + j / 4] / Radix(j % 4) % 0x100
  }

  predicate SameByte(mem: seq<int>, w: int, mem': seq<int>, w': int, j: nat) {
    && 0 <= w && w + j / 4 < |mem| && 0 <= w' && w' + j / 4 < |mem'|
    && ByteAt(mem, w, j) == ByteAt(mem', w', j)
  }

  /** The same `n` bytes from word `w` of one memory and word `w'` of another. */
  ghost predicate SameBytes(mem: seq<int>, w: int, mem': seq<int>, w': int, n: int) {
    forall j: nat {:trigger SameByte(mem, w, mem', w', j)} | j < n :: SameByte(mem, w, mem', w', j)
  }

  /** A word with its low `r` bytes taken from `x`. */
  function LowBytesFrom(d: int, x: int, r: nat): int {
    d - d % Radix(r) + x % Radix(r)
  }

  /** Whole multiples of the radix of `r` do not show in the bytes below `r`. */
  lemma HighBytesHidden(a: int, x: int, r: nat, j: nat)
    requires j < r < 4
    ensures (Radix(r) * a + x) / Radix(j) % 0x100 == x / Radix(j) % 0x100
  {
    if j == 0 {
      assert Radix(r) * a == 0x100 * (Radix(r - 1) * a);
      HundredsHidden(Radix(r - 1) * a, x);
    } else if j == 1 {
      assert Radix(r) * a + x == 0x100 * (0x100 * (Radix(r - 2) * a)) + x;
      assert (0x100 * (0x100 * (Radix(r - 2) * a)) + x) / 0x100 == 0x100 * (Radix(r - 2) * a) + x / 0x100;
      HundredsHidden(Radix(r - 2) * a, x / 0x100);
    } else {
      assert (0x1_0000 * (0x100 * a) + x) / 0x1_0000 == 0x100 * a + x / 0x1_0000;
      HundredsHidden(a, x / 0x1_0000);
    }
  }

  lemma HundredsHidden(a: int, x: int)
    ensures (0x100 * a + x) % 0x100 == x % 0x100
  {
  }

  lemma LowBytesCopied(d: int, x: int, r: nat, j: nat)
    requires j < r < 4
    ensures LowBytesFrom(d, x, r) / Radix(j) % 0x100 == x / Radix(j) % 0x100
  {
    HighBytesHidden(d / Radix(r), x % Radix(r), r, j);
    HighBytesHidden(x / Radix(r), x % Radix(r), r, j);
    assert d == Radix(r) * (d / Radix(r)) + d % Radix(r);
    assert x == Radix(r) * (x / Radix(r)) + x % Radix(r);
  }

  /** memcpy of `n` bytes between word-aligned places. */
  ghost predicate Copied(mem: seq<int>, mem': seq<int>, dst: int, src: int, n: nat)
    requires 0 <= dst && dst + (n + 3) / 4 <= |mem| && 0 <= src && src + (n + 3) / 4 <= |mem|
  {
    && SameOutside(mem, mem', dst, dst + (n + 3) / 4)
    && (forall i | dst <= i < dst + n / 4 :: mem'[i] == mem[src + (i - dst)])
    && (n % 4 > 0 ==> mem'[dst + n / 4] == LowBytesFrom(mem[dst + n / 4], mem[src + n / 4], n % 4))
  }

  lemma CopiedByte(mem: seq<int>, mem': seq<int>, dst: int, src: int, n: nat, j: nat)
    requires 0 <= dst && dst + (n + 3) / 4 <= |mem| && 0 <= src && src + (n + 3) / 4 <= |mem|
    requires Copied(mem, mem', dst, src, n) && j < n
    ensures ByteAt(mem', dst, j) == ByteAt(mem, src, j)
  {
    if j / 4 == n / 4 {
      LowBytesCopied(mem[dst + n / 4], mem[src + n / 4], n % 4, j % 4);
    }
  }

  lemma KeptByte(mem: seq<int>, mem': seq<int>, b: Blocks, x: int, h: int, j: nat)
    requires PayloadsKept(mem, mem', b, x) && IsTaken(b, h) && h != x && 0 <= h && Right(b, h) <= |mem|
    requires j < 4 * (Size(b, h) - 2)
    ensures ByteAt(mem', h + 1, j) == ByteAt(mem, h + 1, j)
  {
    assert mem'[h + 1 + j / 4] == mem[h + 1 + j / 4];
  }

  function Min(a: int, b: int): int {
    if a < b then a else b
  }

  /** Over copy and release, bytes of block `idx` arrive in block `q`, which was not taken in
      `b`, and the payloads of all other blocks of `b` stay. */
  lemma MovedBytes(m1: seq<int>, m2: seq<int>, m3: seq<int>, b: Blocks, c: Blocks, idx: int, q: int, n: nat, k: nat)
    requires IsTaken(b, idx) && !IsTaken(b, q) && IsTaken(c, q) && 0 <= idx && 0 <= q
    requires Right(b, idx) <= |m1| && Right(c, q) <= |m1| && n <= 4 * (Size(c, q) - 2)
    requires forall h | IsTaken(b, h) :: IsTaken(c, h) && c[h] == b[h]
    requires PayloadsKept(m1, m2, c, q) && PayloadsKept(m2, m3, c, idx)
    requires k >= Min(n, 4 * (Size(b, idx) - 2)) && SameBytes(m2, q + 1, m1, idx + 1, k)
    ensures PayloadsKept(m1, m3, b, idx)
    ensures SameBytes(m3, q + 1, m1, idx + 1, Min(n, 4 * (Size(b, idx) - 2)))
  {
    var (w, v) := (q + 1, idx + 1);
    forall j: nat | j < n && j < 4 * (Size(b, idx) - 2) ensures SameByte(m3, w, m1, v, j) {
      KeptByte(m2, m3, c, idx, q, j);
      assert SameByte(m2, w, m1, v, j);
    }
    forall h, i | IsTaken(b, h) && h != idx && 0 <= h < i < Right(b, h) - 1 < |m1| ensures m3[i] == m1[i] {
      assert IsTaken(c, h) && h != q && Right(c, h) == Right(b, h);
      assert m2[i] == m1[i];
    }
  }

  lemma SameBytesKept(m0: seq<int>, m1: seq<int>, m3: seq<int>, b: Blocks, idx: int, w: int, n: int)
    requires PayloadsKept(m0, m1, b, -1) && IsTaken(b, idx) && 0 <= idx && Right(b, idx) <= |m0|
    requires SameBytes(m3, w, m1, idx + 1, n) && n <= 4 * (Size(b, idx) - 2)
    ensures SameBytes(m3, w, m0, idx + 1, n)
  {
    var v := idx + 1;
    forall j: nat | j < n ensures SameByte(m3, w, m0, v, j) {
      assert SameByte(m3, w, m1, v, j);
      KeptByte(m0, m1, b, -1, idx, j);
    }
  }
}
