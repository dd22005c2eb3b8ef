/** The kernel's side of FAT439 (kernel/fs.cc, kernel/fs.h): mounting, reading, looking up
    and making directories. */
module FatFs {
  import opened Common
  import opened Bytes
  import opened BlockDevices
  import opened FatChains
  import opened FatLayout

  const ERR_TOO_LONG := -1000
  const ERR_NO_SPACE := -1006
  const ERR_NOT_DIR := -1007
  const ERR_NO_ROOT_SPACE := -1008
  const ERR_DEVWRITE := -1009
  const ERR_FL_NAMELEN := -1010
  const ERR_FL_EXIST := -1011
  const ERR_INVL_CHAR := -1012

  class Fat439 {
    const dev: BlockDevice
    const nBlocks: nat
    const root: nat
    const table: Allocator

    ghost predicate Valid()
      reads dev.sectors
    {
      && dev.Valid() && dev.blockSize == 512 && dev.sectors.Length == nBlocks
      && table.fat.Length == nBlocks
    }

    constructor (d: BlockDevice, n: nat, r: nat, a: Allocator)
      ensures dev == d && nBlocks == n && root == r && table == a
    {
      dev, nBlocks, root, table := d, n, r, a;
    }

    /** Up to `len` bytes of block `b` from `off` on. */
    method ReadBlock(b: nat, off: nat, len: nat) returns (buf: seq<Byte>)
      requires Valid() && b < nBlocks && off < 512
      ensures |buf| == Min(len, 512 - off) && buf == dev.sectors[b][off..off + |buf|]
    {
      MulLe(b + 1, nBlocks, 512);
      buf := dev.Read(b * 512 + off, len);
      DivModUnique(b, off, 512);
      FlatSlice(dev.sectors[..], 512, b, off, |buf|, b * 512 + off);
    }

    /** Write `buf` into block `b` at `off`. */
    method WriteBlock(b: nat, off: nat, buf: seq<Byte>)
      requires Valid() && b < nBlocks && off < 512 && off + |buf| <= 512
      modifies dev.sectors
      ensures Valid() && dev.sectors[..] == old(dev.sectors[..])[b := Overwrite(old(dev.sectors[b]), off, buf)]
    {
      MulLe(b + 1, nBlocks, 512);
      DivModUnique(b, off, 512);
      ghost var s, o;
      var m;
      m, s, o := dev.Write(b * 512 + off, buf);
      DivModUnique(s, o, 512);
      assert buf[..m] == buf;
    }
  }

  /** Where `n` links lead from the start of `chain`: into it, or to 0 right behind it. */
  ghost function Walk(chain: seq<nat>, n: nat): nat {
    if n < |chain| then chain[n] else 0
  }

  /** A stretch of a file inside one block, seen in the sectors. */
  lemma StoredSlice(sectors: seq<seq<Byte>>, chain: seq<nat>, data: seq<Byte>, offset: nat, m: nat)
    requires Stored(sectors, chain, data, |data|) && Uniform(sectors, 512)
    requires 0 < m && offset + m <= |data| && (offset + 16) % 512 + m <= 512
    ensures (offset + 16) / 512 < |chain| && chain[(offset + 16) / 512] < |sectors|
    ensures var r := (offset + 16) % 512;
      sectors[chain[(offset + 16) / 512]][r..r + m] == data[offset..offset + m]
  {
    var q, r := (offset + 16) / 512, (offset + 16) % 512;
    assert StoredAt(sectors, chain, data, offset);
    var x, y := sectors[chain[q]][r..r + m], data[offset..offset + m];
    forall j | 0 <= j < m ensures x[j] == y[j] {
      SamePlace(offset, j);
      assert StoredAt(sectors, chain, data, offset + j);
    }
  }

  lemma SamePlace(offset: nat, j: nat)
    requires (offset + 16) % 512 + j < 512
    ensures (offset + j + 16) / 512 == (offset + 16) / 512 && (offset + j + 16) % 512 == (offset + 16) % 512 + j
  {
  }

  class OpenFile {
    const fs: Fat439
    const start: nat
    var kind: nat
    var length: nat
    var parent: nat
    var current: nat

    constructor Open(f: Fat439, s: nat)
      requires f.Valid() && s < f.nBlocks
      ensures fs == f && start == s && HeaderIs(f.dev.sectors[s], kind, length, parent, current)
    {
      MulLe(s + 1, f.nBlocks, 512);
      var meta := f.dev.ReadFully(s * 512, 16);
      FlatSlice(f.dev.sectors[..], 512, s, 0, 16, s * 512);
      HeaderRead(f.dev.sectors[s], meta);
      fs, start := f, s;
      kind, length, parent, current := WordAt(meta, 0), WordAt(meta, 4), WordAt(meta, 8), WordAt(meta, 12);
    }

    /** The file holds `data`, in the blocks of `chain`. */
    ghost predicate Holds(chain: seq<nat>, data: seq<Byte>)
      reads this, fs.dev.sectors, fs.table.fat
    {
      && fs.Valid() && |chain| > 0 && chain[0] == start && Linked(fs.table.fat[..], chain) && length == |data|
      && Stored(fs.dev.sectors[..], chain, data, |data|)
    }

    /** Bytes that one read at `offset` can give. */
    ghost function Reach(offset: nat): nat
      reads this
      requires offset <= length
    {
      Min(length - offset, 512 - (offset + 16) % 512)
    }

    /** Follow `n` links of the table. */
    method Follow(n: nat, ghost chain: seq<nat>) returns (b: nat)
      requires |chain| > 0 && chain[0] == start && Linked(fs.table.fat[..], chain) && n <= |chain|
      ensures b == Walk(chain, n) && b < fs.table.fat.Length
    {
      b := start;
      assert LinkAt(fs.table.fat[..], chain, 0);
      for i := 0 to n
        invariant b == Walk(chain, i) && b < fs.table.fat.Length
      {
        assert LinkAt(fs.table.fat[..], chain, i);
        if i + 1 < |chain| { assert LinkAt(fs.table.fat[..], chain, i + 1); }
        b := fs.table.fat[b];
      }
    }

    /** What lies at `offset`, up to `n` bytes, the end of the file and the end of the block. */
    method Read(offset: nat, n: nat, ghost chain: seq<nat>, ghost data: seq<Byte>) returns (cnt: int, buf: seq<Byte>)
      requires Holds(chain, data)
      ensures offset > length ==> cnt == ERR_TOO_LONG && buf == []
      ensures offset <= length ==>
        && cnt == |buf| && cnt == Min(n, Reach(offset)) && buf == data[offset..offset + cnt]
    {
      if offset > length { return ERR_TOO_LONG, []; }
      var len := Min(n, length - offset);
      var blockInFile, offsetInBlock := (offset + 16) / 512, (offset + 16) % 512;
      WalkFits(fs.dev.sectors[..], chain, data, offset);
      var block := Follow(blockInFile, chain);
      buf := fs.ReadBlock(block, offsetInBlock, len);
      cnt := |buf|;
      if cnt > 0 { StoredSlice(fs.dev.sectors[..], chain, data, offset, cnt); }
    }

    /** Reads at one and the same offset until `n` bytes are there: a stretch that one read
        can reach comes out right, a longer one as repetitions of that stretch. */
    method ReadFully(offset: nat, n: nat, ghost chain: seq<nat>, ghost data: seq<Byte>) returns (cnt: int, buf: seq<Byte>)
      requires Holds(chain, data)
      ensures n > 0 && offset > length ==> cnt == ERR_TOO_LONG && buf == []
      ensures offset <= length && Reach(offset) == 0 ==> cnt == 0 && buf == []
      ensures offset <= length && Reach(offset) > 0 ==> cnt == |buf| == n && Repeats(buf, data, offset, Reach(offset))
    {
      var togo := n;
      buf := [];
      ghost var times := 0;
      ghost var p: nat := if offset <= length then Reach(offset) else 0;
      assert offset <= length ==> offset + p <= |data|;
      while togo > 0
        invariant togo >= 0 && togo + |buf| == n && (|buf| > 0 ==> p > 0)
        invariant p > 0 ==> Repeats(buf, data, offset, p)
        invariant togo > 0 ==> |buf| == times * p
      {
        var c, chunk := Read(offset, togo, chain, data);
        if c < 0 { return c, []; }
        if c == 0 { return n - togo, buf; }
        RepeatsMore(buf, data, offset, p, times, chunk);
        assert c == Min(togo, p);
        buf := buf + chunk;
        togo := togo - c;
        times := times + 1;
      }
      cnt := n;
    }

    /** Set the length, in memory and in the header on disk. */
    method Resize(newsz: nat)
      requires fs.Valid() && start < fs.nBlocks
      modifies this`length, fs.dev.sectors
      ensures fs.Valid() && length == newsz
      ensures fs.dev.sectors[..] == old(fs.dev.sectors[..])[start := Overwrite(old(fs.dev.sectors[start]), 0, Header(kind, newsz, parent, current))]
    {
      length := newsz;
      fs.WriteBlock(start, 0, Header(kind, length, parent, current));
    }

    /** Append to a file that ends, and still will end, in its first block. */
    method Append(buf: seq<Byte>) returns (r: int)
      requires fs.Valid() && start < fs.nBlocks && length + 16 + |buf| <= 512 && |buf| > 0
      modifies this`length, fs.dev.sectors
      ensures fs.Valid() && r == 0 && length == old(length) + |buf|
      ensures var block := Overwrite(old(fs.dev.sectors[start]), 16 + old(length), buf);
        fs.dev.sectors[..] == old(fs.dev.sectors[..])[start := Overwrite(block, 0, Header(kind, length, parent, current))]
    {
      fs.WriteBlock(start, length + 16, buf);
      Resize(length + |buf|);
      r := 0;
    }
  }

  /** The four words of a header. */
  function Header(kind: nat, length: nat, parent: nat, current: nat): (h: seq<Byte>)
    ensures |h| == 16
  {
    WordBytes(kind) + WordBytes(length) + WordBytes(parent) + WordBytes(current)
  }

  lemma HeaderWritten(block: seq<Byte>, kind: nat, length: nat, parent: nat, current: nat)
    requires |block| == 512 && kind < WORD && length < WORD && parent < WORD && current < WORD
    ensures HeaderIs(Overwrite(block, 0, Header(kind, length, parent, current)), kind, length, parent, current)
  {
    var b := Overwrite(block, 0, Header(kind, length, parent, current));
    FourPieces(WordBytes(kind), WordBytes(length), WordBytes(parent), WordBytes(current), block[16..]);
    assert b == WordBytes(kind) + WordBytes(length) + WordBytes(parent) + WordBytes(current) + block[16..];
    WordOf(b, 0, kind);
    WordOf(b, 4, length);
    WordOf(b, 8, parent);
    WordOf(b, 12, current);
  }

  /** `buf` is `data[offset..offset + period]` over and over, possibly cut short at the end. */
  ghost predicate Repeats(buf: seq<Byte>, data: seq<Byte>, offset: nat, period: nat) {
    period > 0 && forall j | 0 <= j < |buf| :: 0 <= offset + j % period < |data| && buf[j] == data[offset + j % period]
  }

  lemma RepeatsMore(buf: seq<Byte>, data: seq<Byte>, offset: nat, period: nat, times: nat, chunk: seq<Byte>)
    requires Repeats(buf, data, offset, period) && |buf| == times * period
    requires 0 < |chunk| <= period && offset + period <= |data| && chunk == data[offset..offset + |chunk|]
    ensures Repeats(buf + chunk, data, offset, period)
  {
    forall j | 0 <= j < |buf + chunk|
      ensures 0 <= offset + j % period < |data| && (buf + chunk)[j] == data[offset + j % period]
    {
      if j >= |buf| { DivModUnique(times, j - |buf|, period); }
    }
  }

  lemma RepeatsOnce(buf: seq<Byte>, data: seq<Byte>, offset: nat, period: nat)
    requires Repeats(buf, data, offset, period) && |buf| <= period && offset + period <= |data|
    ensures buf == data[offset..offset + |buf|]
  {
    forall j | 0 <= j < |buf| ensures buf[j] == data[offset..offset + |buf|][j] {
      DivModUnique(0, j, period);
    }
  }

  /** A walk to any offset within the length, its end included, stays on the disk. */
  lemma WalkFits(sectors: seq<seq<Byte>>, chain: seq<nat>, data: seq<Byte>, offset: nat)
    requires Stored(sectors, chain, data, |data|) && |chain| > 0 && offset <= |data|
    ensures (offset + 16) / 512 <= |chain|
    ensures offset < |data| ==> (offset + 16) / 512 < |chain|
  {
    if offset < |data| {
      assert StoredAt(sectors, chain, data, offset);
    } else if offset > 0 {
      assert StoredAt(sectors, chain, data, offset - 1);
    }
  }

  lemma HeaderRead(block: seq<Byte>, meta: seq<Byte>)
    requires |block| == 512 && meta == block[0..16]
    ensures HeaderIs(block, WordAt(meta, 0), WordAt(meta, 4), WordAt(meta, 8), WordAt(meta, 12))
  {
  }

  class File {
    const openFile: OpenFile
    var offset: nat

    constructor (o: OpenFile)
      ensures openFile == o && offset == 0
    {
      openFile, offset := o, 0;
    }

    method Seek(at: nat)
      modifies this
      ensures offset == at
    {
      offset := at;
    }

    method Read(n: nat, ghost chain: seq<nat>, ghost data: seq<Byte>) returns (cnt: int, buf: seq<Byte>)
      requires openFile.Holds(chain, data)
      modifies this
      ensures old(offset) > |data| ==> cnt == ERR_TOO_LONG && buf == [] && offset == old(offset)
      ensures old(offset) <= |data| ==>
        && cnt == |buf| == Min(n, openFile.Reach(old(offset)))
        && offset == old(offset) + cnt && buf == data[old(offset)..offset]
    {
      cnt, buf := openFile.Read(offset, n, chain, data);
      if cnt > 0 { offset := offset + cnt; }
    }

    /** Read `n` bytes, or as many as the file has from here on. */
    method ReadFully(n: nat, ghost chain: seq<nat>, ghost data: seq<Byte>) returns (cnt: int, buf: seq<Byte>)
      requires openFile.Holds(chain, data)
      modifies this
      ensures old(offset) <= |data| ==>
        && cnt == |buf| == Min(n, |data| - old(offset))
        && offset == old(offset) + cnt && buf == data[old(offset)..offset]
      ensures old(offset) > |data| ==> cnt == (if n == 0 then 0 else ERR_TOO_LONG) && buf == [] && offset == old(offset)
    {
      var togo := n;
      buf := [];
      ghost var from := offset;
      while togo > 0
        invariant 0 <= togo && |buf| + togo == n && offset == from + |buf|
        invariant if from <= |data| then offset <= |data| && buf == data[from..offset] else buf == []
      {
        ghost var at := offset;
        var c, chunk := Read(togo, chain, data);
        if c < 0 { return c, []; }
        if c == 0 { return n - togo, buf; }
        assert data[from..at] + data[at..offset] == data[from..offset];
        buf := buf + chunk;
        togo := togo - c;
      }
      cnt := n;
    }
  }

  /** Mount a device: refuse a wrong magic number, else load superblock and table. */
  method Mount(dev: BlockDevice, ghost chains: seq<seq<nat>>, ghost own: map<nat, nat>) returns (r: Option<Fat439>)
    requires dev.Valid() && dev.blockSize == 512 && |dev.Data()| >= 16
    requires 512 + 4 * WordAt(dev.Data()[0..16], 4) <= |dev.Data()|
    ensures r.None? <==> dev.Data()[0..4] != MAGIC
    ensures r.Some? ==>
      && var fs := r.value;
      && var h := dev.Data()[0..16];
      && fs.dev == dev && fs.nBlocks == WordAt(h, 4) && fs.table.avail == WordAt(h, 8) && fs.root == WordAt(h, 12)
      && fresh(fs.table) && fresh(fs.table.fat) && fs.table.chains == chains && fs.table.own == own
      && fs.table.fat.Length == fs.nBlocks
      && forall i | 0 <= i < fs.nBlocks :: fs.table.fat[i] == WordAt(dev.Data()[512..512 + 4 * fs.nBlocks], 4 * i)
  {
    var h := dev.ReadFully(0, 16);
    assert dev.Data()[0..4] == h[0..4];
    MagicWord(h);
    if WordAt(h, 0) != 0x39333446 { return None; }
    var n := WordAt(h, 4);
    var bytes := dev.ReadFully(512, 4 * n);
    var fat := new nat[n](i requires 0 <= i < n => WordAt(bytes, 4 * i));
    var table := new Allocator(fat, WordAt(h, 8), chains, own);
    var fs := new Fat439(dev, n, WordAt(h, 12), table);
    r := Some(fs);
  }

  lemma MagicWord(h: seq<Byte>)
    requires |h| >= 4
    ensures WordAt(h, 0) == 0x39333446 <==> h[0..4] == MAGIC
  {
    assert h[0..4] == MAGIC <==> h[0] == 0x46 && h[1] == 0x34 && h[2] == 0x33 && h[3] == 0x39;
  }

  // ------------------------------------------------------------------
  // Directories

  const DOT: seq<Byte> := [46]
  const DOTDOT: seq<Byte> := [46, 46]

  function EntryField(listing: seq<Byte>, i: nat): (f: seq<Byte>)
    requires 16 * i + 16 <= |listing|
    ensures |f| == 12
  {
    listing[16 * i..16 * i + 12]
  }

  function EntryStart(listing: seq<Byte>, i: nat): nat
    requires 16 * i + 16 <= |listing|
  {
    WordAt(listing, 16 * i + 12)
  }

  /** Start block in the first of the entries `i..n` that has this name, 0 if none has. */
  ghost function FirstMatch(listing: seq<Byte>, n: nat, name: seq<Byte>, i: nat): nat
    requires 16 * n <= |listing|
    decreases n - i
  {
    if i >= n then 0
    else if Matches(EntryField(listing, i), name, 0) then EntryStart(listing, i)
    else FirstMatch(listing, n, name, i + 1)
  }

  /** What looking a name up in a directory means. */
  ghost function Looked(start: nat, parent: nat, listing: seq<Byte>, n: nat, name: seq<Byte>): nat
    requires 16 * n <= |listing|
  {
    if name == DOT then start else if name == DOTDOT then parent else FirstMatch(listing, n, name, 0)
  }

  lemma {:induction false} FirstMatchAt(listing: seq<Byte>, n: nat, name: seq<Byte>, i: nat, k: nat)
    requires 16 * n <= |listing| && i <= k <= n
    requires forall j | i <= j < k :: !Matches(EntryField(listing, j), name, 0)
    ensures k < n && Matches(EntryField(listing, k), name, 0) ==> FirstMatch(listing, n, name, i) == EntryStart(listing, k)
    ensures FirstMatch(listing, n, name, i) == FirstMatch(listing, n, name, k)
    decreases n - i
  {
    if i < k { FirstMatchAt(listing, n, name, i + 1, k); }
  }

  // ------------------------------------------------------------------
  // Adding an entry

  /** A name field that holds `name` and its terminator; what follows is arbitrary. */
  predicate FieldHolds(field: seq<Byte>, name: seq<Byte>) {
    |field| == 12 && |name| < 12 && field[..|name| + 1] == name + [0]
  }

  lemma FieldMatches(field: seq<Byte>, name: seq<Byte>, x: seq<Byte>)
    requires FieldHolds(field, name) && IsName(name) && IsName(x)
    ensures Matches(field, x, 0) <==> x == name
  {
    MatchesFrom(field, x, 0);
    var g := field[..|name| + 1];
    assert forall i | 0 <= i < |name| :: field[i] == g[i] == name[i];
    assert field[|name|] == g[|name|] == 0;
    if |x| < 12 && field[..|x| + 1] == x + [0] {
      var h := field[..|x| + 1];
      assert forall i | 0 <= i < |x| :: field[i] == h[i] == x[i];
      assert field[|x|] == h[|x|] == 0;
      SameTerminated(field, x, name);
    }
  }

  lemma SameTerminated(field: seq<Byte>, x: seq<Byte>, name: seq<Byte>)
    requires IsName(x) && IsName(name) && |x| < |field| && |name| < |field| && field[|x|] == 0 && field[|name|] == 0
    requires forall i | 0 <= i < |x| :: field[i] == x[i]
    requires forall i | 0 <= i < |name| :: field[i] == name[i]
    ensures x == name
  {
    assert |x| <= |name| && |name| <= |x|;
  }

  /** Every entry names a block. */
  ghost predicate StartsUsed(listing: seq<Byte>, n: nat) {
    16 * n <= |listing| && forall i | 0 <= i < n :: EntryStart(listing, i) != 0
  }

  lemma EntrySame(l0: seq<Byte>, l1: seq<Byte>, i: nat)
    requires 16 * i + 16 <= |l0| && |l0| <= |l1| && l1[..|l0|] == l0
    ensures EntryField(l1, i) == EntryField(l0, i) && EntryStart(l1, i) == EntryStart(l0, i)
  {
    SliceAt(l1, 0, |l0|, 16 * i, 16 * i + 12);
    SliceAt(l1, 0, |l0|, 16 * i + 12, 16 * i + 16);
    assert l1[0..|l0|] == l0;
    WordAtSame(l1, 16 * i + 12, l0, 16 * i + 12);
  }

  /** A new entry counts only where the old ones do not match. */
  lemma {:induction false} FirstMatchMore(l0: seq<Byte>, n: nat, l1: seq<Byte>, x: seq<Byte>, i: nat)
    requires |l0| == 16 * n && |l1| == 16 * n + 16 && l1[..|l0|] == l0 && StartsUsed(l0, n) && i <= n
    ensures FirstMatch(l1, n + 1, x, i) ==
      if FirstMatch(l0, n, x, i) != 0 then FirstMatch(l0, n, x, i)
      else if Matches(EntryField(l1, n), x, 0) then EntryStart(l1, n) else 0
    decreases n - i
  {
    if i < n {
      EntrySame(l0, l1, i);
      FirstMatchMore(l0, n, l1, x, i + 1);
    }
  }

  lemma EntryPieces(l0: seq<Byte>, field: seq<Byte>, w: seq<Byte>, a: nat)
    requires |l0| == a && |field| == 12 && |w| == 4
    ensures var l1 := l0 + (field + w);
      l1[..a] == l0 && l1[a..a + 12] == field && l1[a + 12..a + 16] == w
  {
    var l1 := l0 + (field + w);
    forall k | 0 <= k < 12 ensures l1[a..a + 12][k] == field[k] { }
    forall k | 0 <= k < 4 ensures l1[a + 12..a + 16][k] == w[k] { }
  }

  lemma NewEntry(l0: seq<Byte>, n: nat, field: seq<Byte>, b: nat, l1: seq<Byte>)
    requires |l0| == 16 * n && |field| == 12 && b < WORD && l1 == l0 + (field + WordBytes(b))
    ensures |l1| == 16 * n + 16 && l1[..|l0|] == l0 && EntryField(l1, n) == field && EntryStart(l1, n) == b
  {
    EntryPieces(l0, field, WordBytes(b), 16 * n);
    WordOf(l1, 16 * n + 12, b);
  }

  /** With the entry added, the new name leads to the new block and every other name to
      where it led before; only "..", which a directory answers itself, is not affected. */
  lemma LookupAfter(start: nat, parent: nat, l0: seq<Byte>, n: nat, name: seq<Byte>, field: seq<Byte>, b: nat, l1: seq<Byte>, x: seq<Byte>)
    requires |l0| == 16 * n && StartsUsed(l0, n) && 0 < b < WORD && l1 == l0 + (field + WordBytes(b))
    requires FieldHolds(field, name) && IsName(name) && IsName(x) && name != DOT
    requires Looked(start, parent, l0, n, name) == 0
    ensures |l1| == 16 * (n + 1) && StartsUsed(l1, n + 1)
    ensures Looked(start, parent, l1, n + 1, x) == if x == name && name != DOTDOT then b else Looked(start, parent, l0, n, x)
  {
    NewEntry(l0, n, field, b, l1);
    FirstMatchMore(l0, n, l1, x, 0);
    FieldMatches(field, name, x);
    forall i | 0 <= i < n + 1 ensures EntryStart(l1, i) != 0 {
      if i < n { EntrySame(l0, l1, i); }
    }
  }

  class Directory {
    const start: nat
    const content: OpenFile
    var entries: nat

    constructor (o: OpenFile)
      ensures content == o && start == o.start && entries == o.length / 16
    {
      content, start, entries := o, o.start, o.length / 16;
    }

    /** One entry; it lies inside a block, so that one read is enough. */
    method ReadEntry(offset: nat, ghost i: nat, ghost chain: seq<nat>, ghost listing: seq<Byte>) returns (entry: seq<Byte>)
      requires content.Holds(chain, listing) && offset == 16 * i && 16 * i + 16 <= |listing|
      ensures entry == listing[16 * i..16 * i + 16]
    {
      var cnt;
      cnt, entry := content.ReadFully(offset, 16, chain, listing);
      RepeatsOnce(entry, listing, offset, content.Reach(offset));
    }

    /** The comparison of a stored name with the one asked for. */
    method SameName(field: seq<Byte>, name: seq<Byte>) returns (same: bool)
      requires |field| == 12
      ensures same == Matches(field, name, 0)
    {
      for i := 0 to 12
        invariant Matches(field, name, 0) == Matches(field, name, i)
      {
        var x := field[i];
        if x != CharAt(name, i) { return false; }
        if x == 0 { return true; }
      }
      same := false;
    }

    method Lookup(name: seq<Byte>, ghost chain: seq<nat>, ghost listing: seq<Byte>) returns (r: nat)
      requires content.Holds(chain, listing) && 16 * entries <= |listing| && IsName(name)
      ensures r == Looked(start, content.parent, listing, entries, name)
      ensures (name == [46] ==> r == start) && (name == [46, 46] ==> r == content.parent)
    {
      if CharAt(name, 0) == 46 && CharAt(name, 1) == 0 {
        DotNames(name);
        return start;
      }
      if CharAt(name, 0) == 46 && CharAt(name, 1) == 46 && CharAt(name, 2) == 0 {
        DotNames(name);
        return content.parent;
      }
      var offset := 0;
      for i := 0 to entries
        invariant offset == 16 * i
        invariant FirstMatch(listing, entries, name, 0) == FirstMatch(listing, entries, name, i)
      {
        var entry := ReadEntry(offset, i, chain, listing);
        offset := offset + 16;
        SliceAt(listing, 16 * i, 16 * i + 16, 0, 12);
        SliceAt(listing, 16 * i, 16 * i + 16, 12, 16);
        assert entry[..12] == entry[0..12] == EntryField(listing, i);
        WordAtSame(entry, 12, listing, 16 * i + 12);
        var same := SameName(entry[..12], name);
        if same { return WordAt(entry, 12); }
      }
      r := 0;
    }

    /** The directory occupies its first block alone, which is chain `d`; memory and disk
        agree on it. */
    ghost predicate Ready(d: nat)
      reads this, content, content.fs.dev.sectors, content.fs.table, content.fs.table.fat
    {
      && content.fs.Valid() && content.fs.table.Valid() && content.fs.nBlocks <= WORD
      && start == content.start && 0 < start < content.fs.nBlocks
      && 0 < d < |content.fs.table.chains| && content.fs.table.chains[d] == [start]
      && HeaderIs(content.fs.dev.sectors[start], content.kind, content.length, content.parent, content.current)
      && content.length == 16 * entries && 16 + content.length <= 512
      && StartsUsed(Listing(), entries)
    }

    ghost function Listing(): (l: seq<Byte>)
      reads this, content, content.fs.dev.sectors
      requires content.fs.Valid() && start < content.fs.nBlocks && 16 + content.length <= 512
      ensures |l| == content.length
    {
      content.fs.dev.sectors[start][16..16 + content.length]
    }

    /** Where a name leads. */
    ghost function Target(name: seq<Byte>): nat
      reads this, content, content.fs.dev.sectors
      requires content.fs.Valid() && start < content.fs.nBlocks && content.length == 16 * entries && 16 + content.length <= 512
    {
      Looked(start, content.parent, Listing(), entries, name)
    }

    /** Lookup in a directory of one block. */
    method LookupHere(name: seq<Byte>, ghost d: nat) returns (r: nat)
      requires Ready(d) && IsName(name)
      ensures r == Target(name)
    {
      ghost var l, ss := Listing(), content.fs.dev.sectors[..];
      assert Linked(content.fs.table.fat[..], content.fs.table.chains[d]);
      forall k | 0 <= k < |l| ensures StoredAt(ss, [start], l, k) { }
      r := Lookup(name, [start], l);
    }

    /** The name field of a new entry; `junk` is what the stack held there. */
    method MakeField(name: seq<Byte>, junk: seq<Byte>) returns (field: seq<Byte>)
      requires IsName(name) && |name| < 12 && |junk| == 12
      ensures FieldHolds(field, name)
    {
      field := junk;
      var ni := 0;
      while CharAt(name, ni) != 0 && ni < 12
        invariant 0 <= ni <= |name| && |field| == 12 && field[..ni] == name[..ni]
        decreases 12 - ni
      {
        field := field[ni := name[ni]];
        ni := ni + 1;
      }
      if ni < 12 { field := field[ni := 0]; }
      assert field[..ni] == name && field[..ni + 1] == name + [0];
    }

    /** What mkdir answers, in the order of its tests. */
    ghost function MkdirAnswer(name: seq<Byte>): int
      reads this, content, content.fs.dev.sectors, content.fs.table
      requires content.fs.Valid() && start < content.fs.nBlocks && content.length == 16 * entries && 16 + content.length <= 512
      requires |content.fs.table.chains| > 0
    {
      if content.kind != TYPE_DIR then ERR_NOT_DIR
      else if |name| >= 12 then ERR_FL_NAMELEN
      else if 47 in name then ERR_INVL_CHAR
      else if Target(name) != 0 then ERR_FL_EXIST
      else if start == content.fs.root && content.length + 32 >= 512 then ERR_NO_ROOT_SPACE
      else if content.fs.table.chains[0] == [] then ERR_NO_SPACE
      else 0
    }

    /** Write the header of the new directory, then its entry here. */
    method Install(name: seq<Byte>, junk: seq<Byte>, b: nat, ghost d: nat) returns (r: int)
      requires Ready(d) && IsName(name) && |name| < 12 && |junk| == 12 && name != DOT && Target(name) == 0
      requires 0 < b < content.fs.nBlocks && b != start && content.length + 32 <= 512
      modifies this, content, content.fs.dev.sectors
      ensures Ready(d) && r == 0 && entries == old(entries) + 1
      ensures content.kind == old(content.kind) && content.parent == old(content.parent)
      ensures HeaderIs(content.fs.dev.sectors[b], TYPE_DIR, 0, start, b)
      ensures forall c | 0 <= c < content.fs.nBlocks && c != b && c != start :: content.fs.dev.sectors[c] == old(content.fs.dev.sectors[c])
      ensures forall x | IsName(x) :: Target(x) == if x == name && name != DOTDOT then b else old(Target(x))
    {
      HeaderWritten(content.fs.dev.sectors[b], TYPE_DIR, 0, start, b);
      content.fs.WriteBlock(b, 0, Header(TYPE_DIR, 0, start, b));
      var field := MakeField(name, junk);
      r := AddEntry(name, field, b, d);
    }

    /** Append an entry to the directory. */
    method AddEntry(ghost name: seq<Byte>, field: seq<Byte>, b: nat, ghost d: nat) returns (r: int)
      requires Ready(d) && IsName(name) && FieldHolds(field, name) && name != DOT && Target(name) == 0
      requires 0 < b < content.fs.nBlocks && content.length + 32 <= 512
      modifies this, content, content.fs.dev.sectors
      ensures Ready(d) && r == 0 && entries == old(entries) + 1
      ensures content.kind == old(content.kind) && content.parent == old(content.parent)
      ensures forall c | 0 <= c < content.fs.nBlocks && c != start :: content.fs.dev.sectors[c] == old(content.fs.dev.sectors[c])
      ensures forall x | IsName(x) :: Target(x) == if x == name && name != DOTDOT then b else old(Target(x))
    {
      ghost var l, n, parent := Listing(), entries, content.parent;
      var entry := field + WordBytes(b);
      var success := AppendEntry(entry);
      if success != 0 { return ERR_DEVWRITE; }
      entries := entries + 1;
      LookupAfter(start, parent, l, n, name, field, b, Listing(), name);
      forall x | IsName(x) ensures Target(x) == if x == name && name != DOTDOT then b else old(Target(x)) {
        LookupAfter(start, parent, l, n, name, field, b, Listing(), x);
      }
      r := 0;
    }

    method AppendEntry(entry: seq<Byte>) returns (success: int)
      requires content.fs.Valid() && start == content.start && start < content.fs.nBlocks && content.length + 32 <= 512 && |entry| == 16
      requires HeaderIs(content.fs.dev.sectors[start], content.kind, content.length, content.parent, content.current)
      modifies content`length, content.fs.dev.sectors
      ensures success == 0 && content.fs.Valid() && content.length == old(content.length) + 16 && Listing() == old(Listing()) + entry
      ensures HeaderIs(content.fs.dev.sectors[start], content.kind, content.length, content.parent, content.current)
      ensures forall c | 0 <= c < content.fs.nBlocks && c != start :: content.fs.dev.sectors[c] == old(content.fs.dev.sectors[c])
    {
      ghost var before := content.fs.dev.sectors[start];
      ghost var length, kind, parent, current := content.length, content.kind, content.parent, content.current;
      success := content.Append(entry);
      HeaderWritten(Overwrite(before, 16 + length, entry), kind, length + 16, parent, current);
      AppendedListing(before, length, entry, Header(kind, length + 16, parent, current));
    }

    /** Make a directory in this one, if its block has room. */
    method Mkdir(name: seq<Byte>, junk: seq<Byte>, ghost d: nat) returns (r: int)
      requires Ready(d) && IsName(name) && |junk| == 12
      requires start == content.fs.root || content.length + 32 <= 512
      modifies this, content, content.fs.table, content.fs.table.fat, content.fs.dev.sectors
      ensures Ready(d) && r == old(MkdirAnswer(name))
      ensures r != 0 ==>
        && entries == old(entries) && content.length == old(content.length)
        && content.fs.table.chains == old(content.fs.table.chains) && content.fs.dev.sectors[..] == old(content.fs.dev.sectors[..])
      ensures r == 0 ==>
        && var was := old(content.fs.table.chains);
        && |was[0]| > 0 && content.fs.table.chains == Grown(was, |was|)
        && var b := was[0][0];
        && 0 < b < content.fs.nBlocks && b != start && HeaderIs(content.fs.dev.sectors[b], TYPE_DIR, 0, start, b)
        && (forall c | 0 <= c < content.fs.nBlocks && c != b && c != start :: content.fs.dev.sectors[c] == old(content.fs.dev.sectors[c]))
        && (forall x | IsName(x) :: Target(x) == if x == name && name != DOTDOT then b else old(Target(x)))
    {
      if content.kind != TYPE_DIR { return ERR_NOT_DIR; }
      if |name| >= 12 { return ERR_FL_NAMELEN; }
      if 47 in name { return ERR_INVL_CHAR; }
      var found := LookupHere(name, d);
      if found != 0 { return ERR_FL_EXIST; }
      if start == content.fs.root && content.length + 32 >= 512 { return ERR_NO_ROOT_SPACE; }
      var b := TakeBlock(d);
      if b == 0 { return ERR_NO_SPACE; }
      r := Install(name, junk, b, d);
    }

    /** remNextAvail; the directory's own block is not free. */
    method TakeBlock(ghost d: nat) returns (b: nat)
      requires Ready(d)
      modifies content.fs.table, content.fs.table.fat
      ensures Ready(d)
      ensures b == 0 <==> old(content.fs.table.chains)[0] == []
      ensures b == 0 ==> content.fs.table.chains == old(content.fs.table.chains)
      ensures b != 0 ==>
        && var was := old(content.fs.table.chains);
        && |was[0]| > 0 && b == was[0][0] && b < content.fs.nBlocks && b != start && content.fs.table.chains == Grown(was, |was|)
    {
      ghost var was, own := content.fs.table.chains, content.fs.table.own;
      if |was[0]| > 0 { Apart(was, own, 0, 0, d, 0); }
      b := content.fs.table.RemNextAvail();
      if b != 0 { GrownAt(was, |was|, d); }
    }
  }

  /** A directory with parent 0, as the root is, accepts ".." as a new name like any other, but
      looking ".." up finds nothing, before and after. */
  lemma DotDotIsLost(dir: Directory, d: nat)
    requires dir.Ready(d) && dir.content.parent == 0
    ensures dir.Target(DOTDOT) == 0
    ensures dir.MkdirAnswer(DOTDOT) == 0 <==>
      && dir.content.kind == TYPE_DIR && dir.content.fs.table.chains[0] != []
      && !(dir.start == dir.content.fs.root && dir.content.length + 32 >= 512)
  {
    assert DOTDOT == [46, 46] && DOTDOT != DOT;
  }

  /** mkdir refuses a name for its length exactly if a lookup of it could not match its own
      entry, and in the root directory it stops at 30 entries, though a block has room for 31. */
  lemma MkdirLimits(dir: Directory, d: nat, name: seq<Byte>)
    requires dir.Ready(d) && IsName(name)
    ensures dir.MkdirAnswer(name) == ERR_FL_NAMELEN <==> dir.content.kind == TYPE_DIR && !Matches(NameField(name), name, 0)
    ensures dir.start == dir.content.fs.root && dir.MkdirAnswer(name) == ERR_NO_ROOT_SPACE ==> dir.entries >= 30
    ensures dir.start == dir.content.fs.root && dir.MkdirAnswer(name) in {0, ERR_NO_SPACE} ==> dir.entries < 30
  {
    NameFound(name, name);
  }

  lemma AppendedListing(block: seq<Byte>, length: nat, entry: seq<Byte>, header: seq<Byte>)
    requires |block| == 512 && 16 + length + |entry| <= 512 && |header| == 16
    ensures Overwrite(Overwrite(block, 16 + length, entry), 0, header)[16..16 + length + |entry|] == block[16..16 + length] + entry
  {
    var b := Overwrite(block, 16 + length, entry);
    var x, y := Overwrite(b, 0, header)[16..16 + length + |entry|], block[16..16 + length] + entry;
    forall k | 0 <= k < length + |entry| ensures x[k] == y[k] {
      assert x[k] == b[16 + k];
    }
  }

  lemma DotNames(name: seq<Byte>)
    requires IsName(name)
    ensures CharAt(name, 0) == 46 && CharAt(name, 1) == 0 <==> name == DOT
    ensures CharAt(name, 0) == 46 && CharAt(name, 1) == 46 && CharAt(name, 2) == 0 <==> name == DOTDOT
  {
  }

  /** One read stops only at the end of the file or of a block, and crosses no block. */
  lemma ReachStops(file: OpenFile, offset: nat, k: nat)
    requires offset <= file.length
    ensures var end := offset + file.Reach(offset);
      && offset <= end <= file.length && (end < file.length ==> end > offset && (end + 16) % 512 == 0)
      && (offset < k < end ==> (k + 16) % 512 != 0)
  {
  }
}
