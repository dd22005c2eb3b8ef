/** The image builder (fat439/mkfs.c): formats a volume and copies files into it. */
module Mkfs {
  import opened Common
  import opened Bytes
  import opened BlockDevices
  import opened FatChains
  import opened FatLayout

  datatype InputFile = InputFile(name: seq<Byte>, data: seq<Byte>)

  /** Blocks a file takes; one more than its bytes need when they end at a block's end. */
  function ChainLength(length: nat): nat {
    (length + 16) / 512 + 1
  }

  // ------------------------------------------------------------------
  // Words and bytes inside blocks

  lemma OverwriteSlice(block: seq<Byte>, off: nat, buf: seq<Byte>, i: nat, j: nat)
    requires off + |buf| <= |block| && i <= j <= |buf|
    ensures Overwrite(block, off, buf)[off + i..off + j] == buf[i..j]
  {
    var x, y := Overwrite(block, off, buf)[off + i..off + j], buf[i..j];
    forall k | 0 <= k < j - i ensures x[k] == y[k] { }
  }

  lemma WordPoked(block: seq<Byte>, off: nat, v: nat)
    requires off + 4 <= |block| && v < WORD
    ensures WordAt(Overwrite(block, off, WordBytes(v)), off) == v
  {
    OverwriteSlice(block, off, WordBytes(v), 0, 4);
    assert WordBytes(v)[0..4] == WordBytes(v);
    WordOf(Overwrite(block, off, WordBytes(v)), off, v);
  }

  lemma WordElsewhere(block: seq<Byte>, off: nat, buf: seq<Byte>, at: nat)
    requires off + |buf| <= |block| && at + 4 <= |block| && (at + 4 <= off || off + |buf| <= at)
    ensures WordAt(Overwrite(block, off, buf), at) == WordAt(block, at)
  {
  }

  lemma SliceElsewhere(block: seq<Byte>, off: nat, buf: seq<Byte>, at: nat, m: nat)
    requires off + |buf| <= |block| && at + m <= |block| && (at + m <= off || off + |buf| <= at)
    ensures Overwrite(block, off, buf)[at..at + m] == block[at..at + m]
  {
    var x, y := Overwrite(block, off, buf)[at..at + m], block[at..at + m];
    forall i | 0 <= i < m ensures x[i] == y[i] { }
  }

  /** The header words set when a file is begun. */
  ghost predicate Begun(block: seq<Byte>, start: nat) {
    |block| == 512 && WordAt(block, 0) == TYPE_FILE && WordAt(block, 8) == 1023 && WordAt(block, 12) == start
  }

  function Begin(block: seq<Byte>, start: nat): seq<Byte>
    requires |block| == 512
  {
    Overwrite(Overwrite(Overwrite(block, 0, WordBytes(TYPE_FILE)), 8, WordBytes(1023)), 12, WordBytes(start))
  }

  lemma BeginBegun(block: seq<Byte>, start: nat)
    requires |block| == 512 && start < WORD
    ensures Begun(Begin(block, start), start)
  {
    var b1 := Overwrite(block, 0, WordBytes(TYPE_FILE));
    var b2 := Overwrite(b1, 8, WordBytes(1023));
    WordPoked(block, 0, TYPE_FILE);
    WordPoked(b1, 8, 1023);
    WordPoked(b2, 12, start);
    WordElsewhere(b1, 8, WordBytes(1023), 0);
    WordElsewhere(b2, 12, WordBytes(start), 0);
    WordElsewhere(b2, 12, WordBytes(start), 8);
  }

  lemma BegunKept(block: seq<Byte>, start: nat, off: nat, buf: seq<Byte>)
    requires Begun(block, start) && 16 <= off && off + |buf| <= 512
    ensures Begun(Overwrite(block, off, buf), start)
  {
    WordElsewhere(block, off, buf, 0);
    WordElsewhere(block, off, buf, 8);
    WordElsewhere(block, off, buf, 12);
  }

  lemma LengthSet(block: seq<Byte>, start: nat, length: nat)
    requires Begun(block, start) && length < WORD
    ensures HeaderIs(Overwrite(block, 4, WordBytes(length)), TYPE_FILE, length, 1023, start)
  {
    WordPoked(block, 4, length);
    WordElsewhere(block, 4, WordBytes(length), 0);
    WordElsewhere(block, 4, WordBytes(length), 8);
    WordElsewhere(block, 4, WordBytes(length), 12);
  }

  // ------------------------------------------------------------------
  // File contents

  /** The next `|chunk|` bytes of a file go behind those stored already. */
  lemma StoredMore(blocks: seq<seq<Byte>>, chain: seq<nat>, data: seq<Byte>, total: nat, off: nat, chunk: seq<Byte>)
    requires |chain| > 0 && Distinct(chain) && Uniform(blocks, 512) && (forall i | 0 <= i < |chain| :: chain[i] < |blocks|)
    requires total + |chunk| <= |data| && off + |chunk| <= 512 && 512 * (|chain| - 1) + off == 16 + total
    requires chunk == data[total..total + |chunk|]
    requires Stored(blocks, chain, data, total)
    ensures var cur := chain[|chain| - 1];
      Stored(blocks[cur := Overwrite(blocks[cur], off, chunk)], chain, data, total + |chunk|)
  {
    var last := |chain| - 1;
    var cur := chain[last];
    var after := blocks[cur := Overwrite(blocks[cur], off, chunk)];
    forall k | 0 <= k < total + |chunk| ensures StoredAt(after, chain, data, k) {
      StoredPlace(k, last, total, off);
      if k < total { assert StoredAt(blocks, chain, data, k); } else { assert data[k] == chunk[k - total]; }
    }
  }

  lemma StoredPlace(k: nat, last: nat, total: nat, off: nat)
    requires 512 * last + off == 16 + total && off <= 512
    ensures k < total ==> (k + 16) / 512 < last || ((k + 16) / 512 == last && (k + 16) % 512 < off)
    ensures total <= k && off + (k - total) < 512 ==> (k + 16) / 512 == last && (k + 16) % 512 == off + (k - total)
  {
  }

  /** Stored bytes do not depend on header bytes or on blocks outside the chain. */
  lemma StoredKept(before: seq<seq<Byte>>, after: seq<seq<Byte>>, chain: seq<nat>, longer: seq<nat>, data: seq<Byte>, n: nat)
    requires n <= |data| && Stored(before, chain, data, n) && |before| == |after| && |chain| > 0
    requires |chain| <= |longer| && longer[..|chain|] == chain
    requires forall i | 0 <= i < |chain| :: chain[i] < |before| && |after[chain[i]]| == |before[chain[i]]|
    requires forall i | 0 < i < |chain| :: after[chain[i]] == before[chain[i]]
    requires forall r | 16 <= r < |before[chain[0]]| :: after[chain[0]][r] == before[chain[0]][r]
    ensures Stored(after, longer, data, n)
  {
    forall k | 0 <= k < n ensures StoredAt(after, longer, data, k) {
      assert StoredAt(before, chain, data, k);
      var q := (k + 16) / 512;
      assert longer[q] == longer[..|chain|][q] == chain[q];
    }
  }

  lemma FileKept(before: seq<seq<Byte>>, after: seq<seq<Byte>>, chain: seq<nat>, data: seq<Byte>)
    requires FileIn(before, chain, data) && |before| == |after|
    requires forall i | 0 <= i < |chain| :: chain[i] < |before| && after[chain[i]] == before[chain[i]]
    ensures FileIn(after, chain, data)
  {
    StoredKept(before, after, chain, chain, data, |data|);
  }

  /** The read call: at least one byte unless the file has ended, at most what is wanted. */
  method ReadSome(want: nat, left: nat) returns (n: nat)
    ensures n <= want && n <= left && (n == 0 <==> want == 0 || left == 0)
  {
    assert 0 <= Min(want, left) <= want && Min(want, left) <= left;
    n :| n <= want && n <= left && (n == 0 <==> want == 0 || left == 0);
  }

  ghost predicate InBlocks(chain: seq<nat>, n: nat) {
    forall i | 0 <= i < |chain| :: chain[i] < n
  }

  lemma ChainInBlocks(fat: seq<nat>, chain: seq<nat>)
    requires Linked(fat, chain)
    ensures InBlocks(chain, |fat|)
  {
    forall i | 0 <= i < |chain| ensures chain[i] < |fat| { assert LinkAt(fat, chain, i); }
  }

  /** Blocks for the first `i` files. */
  function BlocksFor(files: seq<InputFile>, i: nat): nat
    requires i <= |files|
  {
    if i == 0 then 0 else BlocksFor(files, i - 1) + ChainLength(|files[i - 1].data|)
  }

  lemma {:induction false} BlocksGrow(files: seq<InputFile>, i: nat, j: nat)
    requires i <= j <= |files|
    ensures BlocksFor(files, i) <= BlocksFor(files, j)
  {
    if i < j { BlocksGrow(files, i, j - 1); }
  }

  /** How many blocks each file takes: its bytes and 16 of header, and at least a byte of the
      last block is left over. */
  ghost predicate FilesTake(files: seq<InputFile>, ls: seq<nat>) {
    |ls| == |files| && forall i | 0 <= i < |ls| :: 512 * ls[i] > |files[i].data| + 16 >= 512 * (ls[i] - 1)
  }

  function Total(ls: seq<nat>): nat {
    if ls == [] then 0 else Total(ls[..|ls| - 1]) + ls[|ls| - 1]
  }

  lemma {:induction false} BlocksTotal(files: seq<InputFile>, ls: seq<nat>, i: nat)
    requires FilesTake(files, ls) && i <= |files|
    ensures BlocksFor(files, i) == Total(ls[..i])
  {
    if i > 0 {
      BlocksTotal(files, ls, i - 1);
      assert ls[..i][..i - 1] == ls[..i - 1];
    }
  }

  /** Whether everything fits: superblock, table, root directory and the files. */
  lemma FitsExactly(n: nat, files: seq<InputFile>, t: nat, ls: seq<nat>)
    requires TableTakes(n, t) && FilesTake(files, ls)
    ensures 1 + BlocksFor(files, |files|) <= n - 1 - FatBlocks(n) <==> 1 + t + 1 + Total(ls) <= n
  {
    FatBlocksExact(n, t);
    BlocksTotal(files, ls, |files|);
    assert ls[..|files|] == ls;
  }

  ghost function Descending(hi: nat, lo: nat): (c: seq<nat>)
    requires lo <= hi
    ensures |c| == hi - lo + 1 && forall k | 0 <= k < |c| :: c[k] == hi - k
  {
    seq(hi - lo + 1, k requires 0 <= k <= hi - lo => hi - k)
  }

  lemma DescendingInv(fat: seq<nat>, n: nat, lo: nat, own: map<nat, nat>)
    requires 0 < lo < n == |fat| && (forall b :: b in own <==> lo <= b < n) && (forall b | b in own :: own[b] == 0)
    requires forall b | 0 <= b < n :: fat[b] == if lo < b then b - 1 else 0
    ensures Inv(fat, n - 1, [Descending(n - 1, lo)], own)
  {
    var chain := Descending(n - 1, lo);
    var chains := [chain];
    assert chains[0] == chain;
    forall i | 0 <= i < |chain| ensures LinkAt(fat, chain, i) { }
    assert Linked(fat, chain);
    assert ChainOwned(chains, own, 0);
    forall b | b in own ensures own[b] < |chains| && b in chains[own[b]] {
      assert chain[n - 1 - b] == b;
    }
  }

  function RootHeader(block: seq<Byte>, nFiles: nat, root: nat): seq<Byte>
    requires |block| == 512
  {
    Overwrite(Overwrite(Overwrite(Overwrite(block, 0, WordBytes(TYPE_DIR)), 4, WordBytes(nFiles * 16)), 8, WordBytes(0)), 12, WordBytes(root))
  }

  lemma RootHeaderIs(block: seq<Byte>, nFiles: nat, root: nat)
    requires |block| == 512 && nFiles <= 31 && root < WORD
    ensures HeaderIs(RootHeader(block, nFiles, root), TYPE_DIR, 16 * nFiles, 0, root)
  {
    var b1 := Overwrite(block, 0, WordBytes(TYPE_DIR));
    var b2 := Overwrite(b1, 4, WordBytes(nFiles * 16));
    var b3 := Overwrite(b2, 8, WordBytes(0));
    WordPoked(block, 0, TYPE_DIR);
    WordPoked(b1, 4, nFiles * 16);
    WordPoked(b2, 8, 0);
    WordPoked(b3, 12, root);
    WordElsewhere(b1, 4, WordBytes(nFiles * 16), 0);
    WordElsewhere(b2, 8, WordBytes(0), 0);
    WordElsewhere(b2, 8, WordBytes(0), 4);
    WordElsewhere(b3, 12, WordBytes(root), 0);
    WordElsewhere(b3, 12, WordBytes(root), 4);
    WordElsewhere(b3, 12, WordBytes(root), 8);
  }

  lemma HeaderKept(block: seq<Byte>, off: nat, buf: seq<Byte>, kind: nat, length: nat, parent: nat, current: nat)
    requires HeaderIs(block, kind, length, parent, current) && 16 <= off && off + |buf| <= 512
    ensures HeaderIs(Overwrite(block, off, buf), kind, length, parent, current)
  {
    WordElsewhere(block, off, buf, 0);
    WordElsewhere(block, off, buf, 4);
    WordElsewhere(block, off, buf, 8);
    WordElsewhere(block, off, buf, 12);
  }

  lemma EntryWritten(block: seq<Byte>, i: nat, field: seq<Byte>, start: nat)
    requires |block| == 512 && i < 31 && |field| == 12 && start < WORD
    ensures EntryIs(Overwrite(block, 16 + 16 * i, field + WordBytes(start)), i, field, start)
  {
    var w := WordBytes(start);
    var a := 16 + 16 * i;
    OverwriteSlice(block, a, field + w, 0, 12);
    OverwriteSlice(block, a, field + w, 12, 16);
    assert (field + w)[0..12] == field && (field + w)[12..16] == w;
    WordOf(Overwrite(block, a, field + w), a + 12, start);
  }

  lemma EntryKept(block: seq<Byte>, i: nat, field: seq<Byte>, start: nat, off: nat, buf: seq<Byte>)
    requires EntryIs(block, i, field, start) && 16 + 16 * i + 16 <= off && off + |buf| <= |block|
    ensures EntryIs(Overwrite(block, off, buf), i, field, start)
  {
    SliceElsewhere(block, off, buf, 16 + 16 * i, 12);
    WordElsewhere(block, off, buf, 16 + 16 * i + 12);
  }

  lemma FileApart(before: seq<seq<Byte>>, fat: seq<nat>, chains: seq<seq<nat>>, own: map<nat, nat>, root: nat, block: seq<Byte>, c: nat, data: seq<Byte>)
    requires Partition(chains, own) && 1 < c < |chains| && chains[1] == [root] && Linked(fat, chains[c])
    requires |fat| == |before| && root < |before| && FileIn(before, chains[c], data)
    ensures FileIn(before[root := block], chains[c], data)
  {
    ChainInBlocks(fat, chains[c]);
    assert root in chains[1];
    NotIn(chains, own, 1, c, root);
    FileKept(before, before[root := block], chains[c], data);
  }

  ghost predicate Placed(chains: seq<seq<nat>>, blocks: seq<seq<Byte>>, root: nat, file: InputFile, k: nat) {
    && |chains| > 2 + k && |chains[2 + k]| > 0 && root < |blocks|
    && EntryIs(blocks[root], k, NameField(file.name), chains[2 + k][0]) && FileIn(blocks, chains[2 + k], file.data)
  }

  /** A file stays in place while another is copied. */
  lemma PlacedKept(was: seq<seq<nat>>, chains: seq<seq<nat>>, fat: seq<nat>, own: map<nat, nat>,
                   before: seq<seq<Byte>>, after: seq<seq<Byte>>, root: nat, file: InputFile, k: nat)
    requires Placed(was, before, root, file, k) && Partition(chains, own) && |chains| == |was| + 1
    requires chains[2 + k] == was[2 + k] && chains[1] == [root] && Linked(fat, chains[2 + k]) && |fat| == |before| == |after|
    requires forall b | 0 <= b < |before| && b !in chains[|was|] :: after[b] == before[b]
    ensures Placed(chains, after, root, file, k)
  {
    var f, chain := |was|, chains[2 + k];
    assert root in chains[1];
    NotIn(chains, own, 1, f, root);
    ChainInBlocks(fat, chain);
    forall j | 0 <= j < |chain| ensures after[chain[j]] == before[chain[j]] {
      NotIn(chains, own, 2 + k, f, chain[j]);
    }
    FileKept(before, after, chain, file.data);
  }

  /** All files stay in place, and the root directory is no part of the newest one. */
  lemma AllPlacedKept(was: seq<seq<nat>>, chains: seq<seq<nat>>, fat: seq<nat>, own: map<nat, nat>,
                      before: seq<seq<Byte>>, after: seq<seq<Byte>>, root: nat, files: seq<InputFile>, i: nat)
    requires i <= |files| && |was| == 2 + i && |chains| == 3 + i && chains[1] == [root]
    requires Partition(chains, own) && (forall c | 0 <= c < |chains| :: Linked(fat, chains[c])) && |fat| == |before| == |after|
    requires forall k | 0 <= k < i :: Placed(was, before, root, files[k], k)
    requires forall c | 1 <= c < |was| :: chains[c] == was[c]
    requires forall b | 0 <= b < |before| && b !in chains[|was|] :: after[b] == before[b]
    ensures forall k | 0 <= k < i :: Placed(chains, after, root, files[k], k)
    ensures root !in chains[2 + i]
  {
    forall k | 0 <= k < i ensures Placed(chains, after, root, files[k], k) {
      assert Placed(was, before, root, files[k], k) && Linked(fat, chains[2 + k]);
      PlacedKept(was, chains, fat, own, before, after, root, files[k], k);
    }
    assert root in chains[1];
    NotIn(chains, own, 1, 2 + i, root);
  }

  lemma PlacedBefore(before: seq<seq<Byte>>, fat: seq<nat>, chains: seq<seq<nat>>, own: map<nat, nat>, root: nat,
                     file: InputFile, k: nat, off: nat, buf: seq<Byte>)
    requires Partition(chains, own) && |chains| > 2 + k && chains[1] == [root] && Linked(fat, chains[2 + k]) && |fat| == |before|
    requires Placed(chains, before, root, file, k) && 16 + 16 * k + 16 <= off && off + |buf| <= |before[root]|
    ensures Placed(chains, before[root := Overwrite(before[root], off, buf)], root, file, k)
  {
    EntryKept(before[root], k, NameField(file.name), chains[2 + k][0], off, buf);
    FileApart(before, fat, chains, own, root, Overwrite(before[root], off, buf), 2 + k, file.data);
  }

  lemma PlacedNew(bs: seq<seq<Byte>>, fat: seq<nat>, chains: seq<seq<nat>>, own: map<nat, nat>, root: nat, file: InputFile, i: nat)
    requires i < 31 && |chains| == 3 + i && chains[1] == [root] && |fat| == |bs| && root < |bs| && |bs[root]| == 512
    requires Partition(chains, own) && Linked(fat, chains[2 + i]) && |fat| < WORD && FileIn(bs, chains[2 + i], file.data)
    ensures var entry := NameField(file.name) + WordBytes(chains[2 + i][0]);
      Placed(chains, bs[root := Overwrite(bs[root], 16 + 16 * i, entry)], root, file, i)
  {
    var x := chains[2 + i][0];
    var block := Overwrite(bs[root], 16 + 16 * i, NameField(file.name) + WordBytes(x));
    assert LinkAt(fat, chains[2 + i], 0);
    EntryWritten(bs[root], i, NameField(file.name), x);
    FileApart(bs, fat, chains, own, root, block, 2 + i, file.data);
  }

  lemma EntryPlaced(bs: seq<seq<Byte>>, fat: seq<nat>, chains: seq<seq<nat>>, own: map<nat, nat>, root: nat, files: seq<InputFile>, i: nat)
    requires i < |files| <= 31 && |chains| == 3 + i && chains[1] == [root] && |fat| == |bs| && root < |bs| && |bs[root]| == 512
    requires Partition(chains, own) && (forall c | 0 <= c < |chains| :: Linked(fat, chains[c])) && |fat| < WORD
    requires forall k | 0 <= k < i :: Placed(chains, bs, root, files[k], k)
    requires FileIn(bs, chains[2 + i], files[i].data)
    ensures var entry := NameField(files[i].name) + WordBytes(chains[2 + i][0]);
      forall k | 0 <= k < i + 1 :: Placed(chains, bs[root := Overwrite(bs[root], 16 + 16 * i, entry)], root, files[k], k)
  {
    var x := chains[2 + i][0];
    var entry := NameField(files[i].name) + WordBytes(x);
    var block := Overwrite(bs[root], 16 + 16 * i, entry);
    assert Linked(fat, chains[2 + i]);
    PlacedNew(bs, fat, chains, own, root, files[i], i);
    forall k | 0 <= k < i ensures Placed(chains, bs[root := block], root, files[k], k) {
      assert Placed(chains, bs, root, files[k], k) && Linked(fat, chains[2 + k]);
      PlacedBefore(bs, fat, chains, own, root, files[k], k, 16 + 16 * i, entry);
    }
  }

  /** The root directory's block with one entry more. */
  lemma EntryReady(bs: seq<seq<Byte>>, fat: seq<nat>, chains: seq<seq<nat>>, own: map<nat, nat>, root: nat, files: seq<InputFile>, i: nat)
    requires i < |files| <= 31 && |chains| == 3 + i && chains[1] == [root] && |fat| == |bs| && root < |bs|
    requires Partition(chains, own) && (forall c | 0 <= c < |chains| :: Linked(fat, chains[c])) && |fat| < WORD
    requires HeaderIs(bs[root], TYPE_DIR, 16 * |files|, 0, root)
    requires forall k | 0 <= k < i :: Placed(chains, bs, root, files[k], k)
    requires FileIn(bs, chains[2 + i], files[i].data)
    ensures chains[2 + i][0] < WORD
    ensures var block := Overwrite(bs[root], 16 + 16 * i, NameField(files[i].name) + WordBytes(chains[2 + i][0]));
      && HeaderIs(block, TYPE_DIR, 16 * |files|, 0, root)
      && forall k | 0 <= k < i + 1 :: Placed(chains, bs[root := block], root, files[k], k)
  {
    assert Linked(fat, chains[2 + i]);
    assert LinkAt(fat, chains[2 + i], 0);
    var entry := NameField(files[i].name) + WordBytes(chains[2 + i][0]);
    EntryPlaced(bs, fat, chains, own, root, files, i);
    HeaderKept(bs[root], 16 + 16 * i, entry, TYPE_DIR, 16 * |files|, 0, root);
  }

  class Image {
    const nBlocks: nat
    const fat: array<nat>
    const blocks: array<seq<Byte>>
    var avail: nat
    var root: nat
    ghost var chains: seq<seq<nat>>
    ghost var own: map<nat, nat>

    /** Sizes and ranges. */
    ghost predicate Shaped()
      reads this, fat, blocks
    {
      && nBlocks * 512 < 0x8000_0000 && FatBlocks(nBlocks) + 2 <= nBlocks
      && fat.Length == nBlocks && blocks.Length == nBlocks && Uniform(blocks[..], 512)
      && (forall i | 0 <= i < nBlocks :: fat[i] < nBlocks)
    }

    ghost predicate Valid()
      reads this, fat, blocks
    {
      && Shaped() && Inv(fat[..], avail, chains, own)
      && (forall b :: b in own <==> FatBlocks(nBlocks) < b < nBlocks)
      && |chains[0]| <= nBlocks
    }

    /** Unlink the first free block; `ok` is false when the disk is full. */
    method GetBlock() returns (ok: bool, idx: nat)
      requires avail < fat.Length
      modifies this`avail, fat
      ensures ok == (old(avail) != 0)
      ensures !ok ==> avail == old(avail) && fat[..] == old(fat[..])
      ensures ok ==> idx == old(avail) && avail == old(fat[idx]) && fat[..] == old(fat[..])[idx := 0]
    {
      idx := avail;
      if idx == 0 { return false, 0; }
      avail := fat[idx];
      fat[idx] := 0;
      ok := true;
    }

    lemma AvailFits()
      requires Valid()
      ensures avail < nBlocks && (avail == 0 <==> chains[0] == []) && (avail != 0 ==> avail in own)
    {
      assert ChainOwned(chains, own, 0);
      assert Linked(fat[..], chains[0]);
      if chains[0] != [] { assert LinkAt(fat[..], chains[0], 0); }
    }

    /** getBlock for a chain of its own. */
    method FirstBlock() returns (ok: bool, start: nat)
      requires Valid()
      modifies this`avail, this`chains, this`own, fat
      ensures Valid() && ok == (old(chains)[0] != [])
      ensures !ok ==> chains == old(chains)
      ensures ok ==> |old(chains)[0]| > 0 && chains == Grown(old(chains), |old(chains)|) && start == old(chains)[0][0]
    {
      AvailFits();
      ok, start := GetBlock();
      if ok {
        GrowKeeps(old(fat[..]), old(avail), chains, own, |chains|);
        own := own[start := |chains|];
        chains := Grown(chains, |chains|);
      }
    }

    /** getBlock, linked behind the last block `cur` of the last chain. */
    method NextBlock(cur: nat) returns (ok: bool, b: nat)
      requires Valid() && |chains| > 1
      requires var c := |chains| - 1; |chains[c]| > 0 && cur == chains[c][|chains[c]| - 1]
      modifies this`avail, this`chains, this`own, fat
      ensures Valid() && ok == (old(chains)[0] != [])
      ensures !ok ==> chains == old(chains)
      ensures ok ==> |old(chains)[0]| > 0 && chains == Grown(old(chains), |old(chains)| - 1) && b == old(chains)[0][0]
    {
      AvailFits();
      ghost var c := |chains| - 1;
      ok, b := GetBlock();
      if ok {
        GrowKeeps(old(fat[..]), old(avail), chains, own, c);
        fat[cur] := b;
        assert fat[..] == GrownFat(old(fat[..]), chains, c);
        own := own[b := c];
        chains := Grown(chains, c);
      }
    }

    /** Since `was` and `before`, one chain more was made from free blocks, and nothing was
        done to the blocks outside it. */
    ghost predicate Extended(was: seq<seq<nat>>, before: seq<seq<Byte>>)
      reads this, blocks
    {
      && |was| > 0 && |chains| == |was| + 1 && |was[0]| == |chains[0]| + |chains[|was|]|
      && (forall d | 0 < d < |was| :: chains[d] == was[d])
      && |was[0]| <= |before| == blocks.Length
      && (forall b | 0 <= b < blocks.Length && b !in chains[|was|] :: blocks[b] == before[b])
    }

    /** The first `total` bytes of a file are in, the last of them before `off` in `current`. */
    ghost predicate Filing(was: seq<seq<nat>>, before: seq<seq<Byte>>, data: seq<Byte>, total: nat, off: nat, start: nat, current: nat)
      reads this, fat, blocks
    {
      && Valid() && Extended(was, before)
      && var chain := chains[|was|];
        && |chain| > 0 && start == chain[0] && current == chain[|chain| - 1] && InBlocks(chain, nBlocks)
        && 512 * (|chain| - 1) + off == 16 + total && off <= 512 && total <= |data|
        && Begun(blocks[start], start) && Stored(blocks[..], chain, data, total)
    }

    method BeginFile(ghost data: seq<Byte>) returns (ok: bool, start: nat)
      requires Valid()
      modifies this`avail, this`chains, this`own, fat, blocks
      ensures Valid() && ok == (old(chains)[0] != [])
      ensures ok ==> Filing(old(chains), old(blocks[..]), data, 0, 16, start, start)
    {
      ok, start := FirstBlock();
      if !ok { return; }
      ghost var f := |chains| - 1;
      assert Linked(fat[..], chains[f]);
      ChainInBlocks(fat[..], chains[f]);
      assert chains[f][0] == start;
      blocks[start] := Begin(blocks[start], start);
      BeginBegun(old(blocks[start]), start);
    }

    /** A full block is followed by a fresh one. */
    method ExtendFile(ghost was: seq<seq<nat>>, ghost before: seq<seq<Byte>>, ghost data: seq<Byte>, ghost total: nat, ghost start: nat, current: nat)
      returns (ok: bool, b: nat)
      requires Filing(was, before, data, total, 512, start, current)
      modifies this`avail, this`chains, this`own, fat
      ensures ok == (old(chains)[0] != []) && Valid() && chains[0] == if ok then old(chains)[0][1..] else []
      ensures !ok ==> chains == old(chains)
      ensures ok ==> Filing(was, before, data, total, 0, start, b)
    {
      ghost var f, chain := |was|, chains[|was|];
      ok, b := NextBlock(current);
      if !ok { return; }
      assert Linked(fat[..], chains[f]);
      ChainInBlocks(fat[..], chains[f]);
      StoredKept(blocks[..], blocks[..], chain, chains[f], data, total);
    }

    /** What was read goes into the current block. */
    method FillFile(ghost was: seq<seq<nat>>, ghost before: seq<seq<Byte>>, data: seq<Byte>, total: nat, off: nat, ghost start: nat, current: nat, n: nat)
      requires Filing(was, before, data, total, off, start, current) && n <= |data| - total && n <= 512 - off
      modifies blocks
      ensures Filing(was, before, data, total + n, off + n, start, current)
    {
      ghost var chain, bs := chains[|was|], blocks[..];
      assert ChainOwned(chains, own, |was|);
      var chunk := data[total..total + n];
      StoredMore(bs, chain, data, total, off, chunk);
      if |chain| == 1 { BegunKept(bs[start], start, off, chunk); }
      blocks[current] := Overwrite(blocks[current], off, chunk);
      assert blocks[..] == bs[current := Overwrite(bs[current], off, chunk)];
    }

    method EndFile(ghost was: seq<seq<nat>>, ghost before: seq<seq<Byte>>, ghost data: seq<Byte>, total: nat, ghost off: nat, start: nat, ghost current: nat)
      requires Filing(was, before, data, total, off, start, current) && total == |data| && off < 512
      modifies blocks
      ensures Valid() && Extended(was, before) && |chains[|was|]| == ChainLength(|data|) && start == chains[|was|][0]
      ensures FileIn(blocks[..], chains[|was|], data)
    {
      ghost var chain, bs := chains[|was|], blocks[..];
      assert ChainOwned(chains, own, |was|);
      LengthSet(blocks[start], start, total);
      blocks[start] := Overwrite(blocks[start], 4, WordBytes(total));
      StoredKept(bs, blocks[..], chain, chain, data, total);
    }

    /** Copy a file in, under any pattern of short reads. */
    method OneFile(data: seq<Byte>) returns (ok: bool, start: nat)
      requires Valid()
      modifies this`avail, this`chains, this`own, fat, blocks
      ensures Valid() && ok == (ChainLength(|data|) <= |old(chains)[0]|)
      ensures ok ==>
        && Extended(old(chains), old(blocks[..])) && |chains[|old(chains)|]| == ChainLength(|data|)
        && start == chains[|old(chains)|][0] && FileIn(blocks[..], chains[|old(chains)|], data)
    {
      ghost var was, before := chains, blocks[..];
      ok, start := BeginFile(data);
      if !ok { return; }
      var current, left: nat, off: nat, total: nat := start, 512 - 16, 16, 0;
      while true
        invariant Filing(was, before, data, total, off, start, current) && left == 512 - off && ok
        decreases |data| - total
      {
        if left == 0 {
          var b;
          ok, b := ExtendFile(was, before, data, total, start, current);
          if !ok { return; }
          current, off, left := b, 0, 512;
        }
        var n := ReadSome(left, |data| - total);
        if n == 0 { break; }
        FillFile(was, before, data, total, off, start, current, n);
        off, left, total := off + n, left - n, total + n;
      }
      EndFile(was, before, data, total, off, start, current);
    }

    /** An empty volume: free blocks are chained from the last one down to the first behind
        the table. */
    constructor Format(n: nat)
      requires FatBlocks(n) + 2 <= n && n * 512 < 0x8000_0000
      ensures Valid() && nBlocks == n && fresh(fat) && fresh(blocks)
      ensures |chains| == 1 && |chains[0]| == n - 1 - FatBlocks(n)
    {
      nBlocks := n;
      fat := new nat[n](_ => 0);
      var zeros := Zeros(512);
      blocks := new seq<Byte>[n](_ => zeros);
      avail, root := n - 1, 0;
      new;
      var lastAvail := 1 + FatBlocks(n);
      var i := avail;
      while i > lastAvail
        invariant lastAvail <= i <= n - 1 == avail
        invariant forall b | 0 <= b < n :: blocks[b] == zeros
        invariant forall b | 0 <= b < n :: fat[b] == if i < b then b - 1 else 0
      {
        fat[i] := i - 1;
        i := i - 1;
      }
      chains := [Descending(n - 1, lastAvail)];
      own := map b: nat | b in chains[0] :: 0;
      forall b ensures b in own <==> lastAvail <= b < n {
        if lastAvail <= b < n { assert chains[0][n - 1 - b] == b; }
      }
      DescendingInv(fat[..], n, lastAvail, own);
    }

    /** The root directory takes the first block. */
    method MakeRoot(nFiles: nat)
      requires Valid() && |chains| == 1 && chains[0] != [] && nFiles <= 31
      modifies this, fat, blocks
      ensures Valid() && |chains| == 2 && |chains[0]| == |old(chains)[0]| - 1
      ensures chains[1] == [root] && root < nBlocks && HeaderIs(blocks[root], TYPE_DIR, 16 * nFiles, 0, root)
    {
      var ok, b := FirstBlock();
      assert Linked(fat[..], chains[1]);
      ChainInBlocks(fat[..], chains[1]);
      assert chains[1] == [b] && chains[1][0] < nBlocks;
      root := b;
      RootHeaderIs(blocks[b], nFiles, b);
      blocks[b] := RootHeader(blocks[b], nFiles, b);
    }

    /** The first `i` files are in. */
    ghost predicate Filled(files: seq<InputFile>, i: nat)
      reads this, fat, blocks
    {
      && Valid() && |chains| == 2 + i && i <= |files| && |files| <= 31
      && chains[1] == [root] && root < nBlocks && HeaderIs(blocks[root], TYPE_DIR, 16 * |files|, 0, root)
      && (forall k | 0 <= k < i :: Placed(chains, blocks[..], root, files[k], k))
      && |chains[0]| + 1 + BlocksFor(files, i) == nBlocks - 1 - FatBlocks(nBlocks)
    }

    method AddFile(files: seq<InputFile>, i: nat) returns (ok: bool)
      requires Filled(files, i) && i < |files|
      modifies this`avail, this`chains, this`own, fat, blocks
      ensures ok == (1 + BlocksFor(files, i + 1) <= nBlocks - 1 - FatBlocks(nBlocks))
      ensures ok ==> Filled(files, i + 1)
    {
      var x;
      ok, x := OneFile(files[i].data);
      if !ok { return; }
      AllPlacedKept(old(chains), chains, fat[..], own, old(blocks[..]), blocks[..], root, files, i);
      AddEntry(files, i, x);
    }

    method AddEntry(files: seq<InputFile>, i: nat, x: nat)
      requires Valid() && |chains| == 3 + i && i < |files| <= 31
      requires chains[1] == [root] && root < nBlocks && HeaderIs(blocks[root], TYPE_DIR, 16 * |files|, 0, root)
      requires forall k | 0 <= k < i :: Placed(chains, blocks[..], root, files[k], k)
      requires FileIn(blocks[..], chains[2 + i], files[i].data) && x == chains[2 + i][0]
      requires |chains[0]| + 1 + BlocksFor(files, i + 1) == nBlocks - 1 - FatBlocks(nBlocks)
      modifies blocks
      ensures Filled(files, i + 1)
    {
      EntryReady(blocks[..], fat[..], chains, own, root, files, i);
      WriteRoot(Overwrite(blocks[root], 16 + 16 * i, NameField(files[i].name) + WordBytes(x)));
    }

    method WriteRoot(block: seq<Byte>)
      requires Valid() && root < nBlocks && |block| == 512
      modifies blocks
      ensures Valid() && blocks[..] == old(blocks[..])[root := block]
    {
      blocks[root] := block;
    }

    lemma FilledFits(files: seq<InputFile>, i: nat)
      requires Filled(files, i)
      ensures 1 + BlocksFor(files, i) <= nBlocks - 1 - FatBlocks(nBlocks)
    {
    }

    /** Copy all files; `ok` is false when they do not fit. */
    method AddFiles(files: seq<InputFile>) returns (ok: bool)
      requires Filled(files, 0)
      modifies this`avail, this`chains, this`own, fat, blocks
      ensures ok == (1 + BlocksFor(files, |files|) <= nBlocks - 1 - FatBlocks(nBlocks))
      ensures ok ==> Filled(files, |files|)
    {
      var n;
      ok, n := AddWhileRoom(files);
      if ok { FilledFits(files, n); } else { BlocksGrow(files, n + 1, |files|); }
    }

    /** Copy files up to the first that does not fit. */
    method AddWhileRoom(files: seq<InputFile>) returns (ok: bool, n: nat)
      requires Filled(files, 0)
      modifies this`avail, this`chains, this`own, fat, blocks
      ensures n <= |files| && (ok <==> n == |files|)
      ensures if ok then Filled(files, n) else 1 + BlocksFor(files, n + 1) > nBlocks - 1 - FatBlocks(nBlocks)
    {
      n := 0;
      while n < |files|
        invariant n <= |files| && Filled(files, n)
      {
        ok := AddFile(files, n);
        if !ok { return; }
        n := n + 1;
      }
      ok := true;
    }

    lemma FilledFormatted(files: seq<InputFile>)
      requires Filled(files, |files|)
      ensures Formatted(Contents(), files, chains, own)
    {
      AvailFits();
    }

    /** The image as a value. */
    ghost function Contents(): Volume
      reads this, fat, blocks
    {
      Volume(nBlocks, avail, root, fat[..], blocks[..])
    }
  }

  /** A volume that holds exactly these files, in chains 2, 3, ..., and names them in its root
      directory, chain 1. */
  ghost predicate Formatted(v: Volume, files: seq<InputFile>, chains: seq<seq<nat>>, own: map<nat, nat>) {
    && VolumeOk(v) && Inv(v.fat, v.avail, chains, own) && |chains| == 2 + |files| && |files| <= 31
    && (forall b :: b in own <==> FatBlocks(v.nBlocks) < b < v.nBlocks)
    && chains[1] == [v.root] && HeaderIs(v.blocks[v.root], TYPE_DIR, 16 * |files|, 0, v.root)
    && (forall k | 0 <= k < |files| :: Placed(chains, v.blocks, v.root, files[k], k))
  }

  /** The image builder.  It fails exactly when the files and the root directory need more
      blocks than there are. */
  method MakeImage(n: nat, files: seq<InputFile>) returns (ok: bool, image: Image)
    requires FatBlocks(n) + 2 <= n && n * 512 < 0x8000_0000 && |files| <= 31
    ensures ok == (1 + BlocksFor(files, |files|) <= n - 1 - FatBlocks(n))
    ensures ok ==> image.nBlocks == n && Formatted(image.Contents(), files, image.chains, image.own)
    ensures forall t: nat, ls: seq<nat> | TableTakes(n, t) && FilesTake(files, ls) :: ok <==> 1 + t + 1 + Total(ls) <= n
  {
    forall t: nat, ls: seq<nat> | TableTakes(n, t) && FilesTake(files, ls)
      ensures 1 + BlocksFor(files, |files|) <= n - 1 - FatBlocks(n) <==> 1 + t + 1 + Total(ls) <= n
    {
      FitsExactly(n, files, t, ls);
    }
    image := new Image.Format(n);
    image.MakeRoot(|files|);
    ok := image.AddFiles(files);
    if ok { image.FilledFormatted(files); }
  }

  /** The words of a header, in numbers. */
  lemma HeaderStands(b: seq<Byte>, kind: nat, length: nat, parent: nat, current: nat)
    requires HeaderIs(b, kind, length, parent, current)
    ensures StandsAt(b, 0, kind) && StandsAt(b, 4, length) && StandsAt(b, 8, parent) && StandsAt(b, 12, current)
  {
    WordStands(b, 0, kind);
    WordStands(b, 4, length);
    WordStands(b, 8, parent);
    WordStands(b, 12, current);
  }

  /** Entry `k` of a directory, in bytes. */
  lemma EntryStands(b: seq<Byte>, k: nat, name: seq<Byte>, c: nat)
    requires EntryIs(b, k, NameField(name), c)
    ensures StandsAt(b, 16 + 16 * k + 12, c)
    ensures forall j | 0 <= j < 12 :: b[16 + 16 * k + j] == if j < |name| then name[j] else 0
  {
    WordStands(b, 16 + 16 * k + 12, c);
    forall j | 0 <= j < 12 ensures b[16 + 16 * k + j] == if j < |name| then name[j] else 0 {
      assert b[16 + 16 * k + j] == b[16 + 16 * k..16 + 16 * k + 12][j];
    }
  }

  /** The header of the root directory: type 2, 16 bytes for each file, no parent, its own block. */
  lemma RootBytes(v: Volume, files: seq<InputFile>, chains: seq<seq<nat>>, own: map<nat, nat>)
    requires Formatted(v, files, chains, own)
    ensures var b := v.blocks[v.root];
      |b| == 512 && StandsAt(b, 0, 2) && StandsAt(b, 4, 16 * |files|) && StandsAt(b, 8, 0) && StandsAt(b, 12, v.root)
  {
    HeaderStands(v.blocks[v.root], 2, 16 * |files|, 0, v.root);
  }

  /** What the image holds of a file: in the root directory 12 bytes of name, cut off or filled up
      with zeros, and the first block; there type 1, the length, 1023 and that block. */
  lemma PlacedBytes(chains: seq<seq<nat>>, blocks: seq<seq<Byte>>, root: nat, file: InputFile, k: nat)
    requires Placed(chains, blocks, root, file, k)
    ensures |blocks[root]| >= 16 * k + 32 && chains[2 + k][0] < |blocks| && |blocks[chains[2 + k][0]]| == 512
    ensures StandsAt(blocks[root], 16 + 16 * k + 12, chains[2 + k][0])
    ensures forall j | 0 <= j < 12 :: blocks[root][16 + 16 * k + j] == if j < |file.name| then file.name[j] else 0
    ensures var f := blocks[chains[2 + k][0]];
      StandsAt(f, 0, 1) && StandsAt(f, 4, |file.data|) && StandsAt(f, 8, 1023) && StandsAt(f, 12, chains[2 + k][0])
  {
    EntryStands(blocks[root], k, file.name, chains[2 + k][0]);
    HeaderStands(blocks[chains[2 + k][0]], 1, |file.data|, 1023, chains[2 + k][0]);
  }
}
