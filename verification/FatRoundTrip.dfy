/** Files written by the image builder and read back by the kernel. */
module FatRoundTrip {
  import opened Common
  import opened Bytes
  import opened BlockDevices
  import opened FatChains
  import opened FatLayout
  import opened Mkfs
  import opened FatFs

  ghost predicate OnDisk(dev: BlockDevice, v: Volume)
    reads dev.sectors
  {
    dev.Valid() && dev.blockSize == 512 && VolumeOk(v) && dev.sectors[..] == SectorsOf(v)
  }

  method MountVolume(dev: BlockDevice, ghost v: Volume, ghost chains: seq<seq<nat>>, ghost own: map<nat, nat>) returns (fs: Fat439)
    requires OnDisk(dev, v)
    ensures fs.Valid() && fs.dev == dev && fs.nBlocks == v.nBlocks && fs.root == v.root
    ensures fs.table.fat[..] == v.fat && fs.table.avail == v.avail && fs.table.chains == chains && fs.table.own == own
    ensures fresh(fs.table) && fresh(fs.table.fat)
  {
    SuperRoundTrip(v);
    assert dev.Data() == ImageOf(v);
    FatRoundTrip(v, 0);
    assert dev.Data()[0..4] == dev.Data()[0..16][0..4];
    var r := Mount(dev, chains, own);
    fs := r.value;
    forall i | 0 <= i < v.nBlocks ensures fs.table.fat[i] == v.fat[i] {
      FatRoundTrip(v, i);
    }
  }

  lemma SectorIsBlock(v: Volume, b: nat)
    requires VolumeOk(v) && FatBlocks(v.nBlocks) < b < v.nBlocks
    ensures SectorsOf(v)[b] == v.blocks[b]
  {
  }

  /** Blocks of every chain lie behind the table. */
  lemma ChainBlocks(v: Volume, chains: seq<seq<nat>>, own: map<nat, nat>, c: nat, i: nat)
    requires VolumeOk(v) && Partition(chains, own) && c < |chains| && i < |chains[c]|
    requires forall b :: b in own <==> FatBlocks(v.nBlocks) < b < v.nBlocks
    ensures FatBlocks(v.nBlocks) < chains[c][i] < v.nBlocks
  {
    assert ChainOwned(chains, own, c);
  }

  /** A file of the volume, in the sectors. */
  lemma FileOnDisk(v: Volume, files: seq<InputFile>, chains: seq<seq<nat>>, own: map<nat, nat>, k: nat)
    requires Formatted(v, files, chains, own) && k < |files|
    ensures FileIn(SectorsOf(v), chains[2 + k], files[k].data) && chains[2 + k][0] != 0 && Linked(v.fat, chains[2 + k])
  {
    assert Linked(v.fat, chains[2 + k]);
    assert Placed(chains, v.blocks, v.root, files[k], k);
    var chain := chains[2 + k];
    forall i | 0 <= i < |chain| ensures 0 < chain[i] < v.nBlocks && SectorsOf(v)[chain[i]] == v.blocks[chain[i]] {
      ChainBlocks(v, chains, own, 2 + k, i);
      SectorIsBlock(v, chain[i]);
    }
    FileKept(v.blocks, SectorsOf(v), chain, files[k].data);
  }

  ghost function RootListing(v: Volume, n: nat): (l: seq<Byte>)
    requires VolumeOk(v) && n <= 31
    ensures |l| == 16 * n
  {
    v.blocks[v.root][16..16 + 16 * n]
  }

  lemma RootOnDisk(v: Volume, files: seq<InputFile>, chains: seq<seq<nat>>, own: map<nat, nat>)
    requires Formatted(v, files, chains, own)
    ensures SectorsOf(v)[v.root] == v.blocks[v.root] && Linked(v.fat, [v.root])
    ensures Stored(SectorsOf(v), [v.root], RootListing(v, |files|), 16 * |files|)
  {
    assert chains[1][0] == v.root;
    ChainBlocks(v, chains, own, 1, 0);
    SectorIsBlock(v, v.root);
    assert Linked(v.fat, chains[1]);
    var l, ss := RootListing(v, |files|), SectorsOf(v);
    forall k | 0 <= k < |l| ensures StoredAt(ss, [v.root], l, k) { }
  }

  ghost predicate ListsAt(l: seq<Byte>, files: seq<InputFile>, chains: seq<seq<nat>>, i: nat)
    requires |l| == 16 * |files| && i < |files|
  {
    |chains| > 2 + i && |chains[2 + i]| > 0 && EntryField(l, i) == NameField(files[i].name) && EntryStart(l, i) == chains[2 + i][0]
  }

  /** A directory listing that names the files in order, each with its start block. */
  ghost predicate Lists(l: seq<Byte>, files: seq<InputFile>, chains: seq<seq<nat>>) {
    |l| == 16 * |files| && forall i {:trigger ListsAt(l, files, chains, i)} | 0 <= i < |files| :: ListsAt(l, files, chains, i)
  }

  lemma RootLists(v: Volume, files: seq<InputFile>, chains: seq<seq<nat>>, own: map<nat, nat>)
    requires Formatted(v, files, chains, own)
    ensures Lists(RootListing(v, |files|), files, chains)
  {
    var l := RootListing(v, |files|);
    forall i | 0 <= i < |files| ensures ListsAt(l, files, chains, i) {
      assert Placed(chains, v.blocks, v.root, files[i], i);
      RootListsAt(v.blocks, v.root, files, chains, i);
    }
  }

  lemma RootListsAt(blocks: seq<seq<Byte>>, root: nat, files: seq<InputFile>, chains: seq<seq<nat>>, i: nat)
    requires root < |blocks| && |blocks[root]| == 512 && i < |files| <= 31 && |chains| > 2 + i && |chains[2 + i]| > 0
    requires EntryIs(blocks[root], i, NameField(files[i].name), chains[2 + i][0])
    ensures ListsAt(blocks[root][16..16 + 16 * |files|], files, chains, i)
  {
    EntryInListing(blocks[root], |files|, i, NameField(files[i].name), chains[2 + i][0]);
  }

  lemma EntryInListing(b: seq<Byte>, n: nat, i: nat, field: seq<Byte>, start: nat)
    requires i < n <= 31 && |b| == 512 && EntryIs(b, i, field, start)
    ensures var l := b[16..16 + 16 * n];
      EntryField(l, i) == field && EntryStart(l, i) == start
  {
    var l := b[16..16 + 16 * n];
    SliceAt(b, 16, 16 + 16 * n, 16 * i, 16 * i + 12);
    SliceAt(b, 16, 16 + 16 * n, 16 * i + 12, 16 * i + 16);
    WordAtSame(l, 16 * i + 12, b, 16 + 16 * i + 12);
  }

  /** File `k` is the one found under `name`: the first of that name, if the name fits. */
  predicate FirstNamed(files: seq<InputFile>, name: seq<Byte>, k: nat) {
    k < |files| && |name| < 12 && files[k].name == name && forall j | 0 <= j < k :: files[j].name != name
  }

  /** The index of the file found under `name`, or the number of files if there is none. */
  ghost predicate IsNamedIndex(files: seq<InputFile>, name: seq<Byte>, k: nat) {
    && k <= |files| && (k < |files| ==> FirstNamed(files, name, k))
    && (k == |files| ==> forall j | 0 <= j < |files| :: !FirstNamed(files, name, j))
  }

  /** A read of `n` bytes at `s` gave what the file has there. */
  predicate Served(data: seq<Byte>, s: nat, n: nat, cnt: int, buf: seq<Byte>) {
    if s <= |data| then cnt == |buf| && buf == data[s..s + Min(n, |data| - s)]
    else cnt == (if n == 0 then 0 else ERR_TOO_LONG) && buf == []
  }

  ghost predicate Names(files: seq<InputFile>) {
    forall i | 0 <= i < |files| :: IsName(files[i].name)
  }

  /** Looking a name up in the root directory finds the first file of that name, and
      nothing if there is none or the name is too long. */
  lemma RootLookup(l: seq<Byte>, files: seq<InputFile>, chains: seq<seq<nat>>, name: seq<Byte>, k: nat)
    requires Lists(l, files, chains) && Names(files) && IsName(name) && IsNamedIndex(files, name, k)
    ensures k < |files| ==> ListsAt(l, files, chains, k)
    ensures FirstMatch(l, |files|, name, 0) == if k < |files| then chains[2 + k][0] else 0
  {
    if k == |files| { NoneNamed(files, name, |files|); }
    forall j | 0 <= j < k ensures !Matches(EntryField(l, j), name, 0) {
      assert ListsAt(l, files, chains, j);
      NameFound(files[j].name, name);
    }
    FirstMatchAt(l, |files|, name, 0, k);
    if k < |files| {
      assert ListsAt(l, files, chains, k);
      NameFound(name, name);
    }
  }

  lemma {:induction false} NoneNamed(files: seq<InputFile>, name: seq<Byte>, n: nat)
    requires n <= |files| && forall j | 0 <= j < |files| :: !FirstNamed(files, name, j)
    ensures |name| < 12 ==> forall j | 0 <= j < n :: files[j].name != name
  {
    if n > 0 {
      NoneNamed(files, name, n - 1);
      assert !FirstNamed(files, name, n - 1);
    }
  }

  /** Mount, look up, open, seek, read. */
  method ReadBack(dev: BlockDevice, ghost v: Volume, ghost files: seq<InputFile>, ghost chains: seq<seq<nat>>, ghost own: map<nat, nat>,
                  name: seq<Byte>, s: nat, n: nat, ghost k: nat) returns (found: bool, cnt: int, buf: seq<Byte>)
    requires OnDisk(dev, v) && Formatted(v, files, chains, own) && Names(files)
    requires IsName(name) && name != DOT && name != DOTDOT && IsNamedIndex(files, name, k)
    ensures found == (k < |files|) && (found ==> Served(files[k].data, s, n, cnt, buf))
  {
    var fs := MountVolume(dev, v, chains, own);
    var start := FindFile(fs, v, files, chains, own, name, k);
    if k < |files| { FileOnDisk(v, files, chains, own, k); }
    found, cnt, buf := start != 0, 0, [];
    if found { cnt, buf := ReadAt(fs, start, s, n, chains[2 + k], files[k].data); }
  }

  /** Look a name up in the root directory. */
  method FindFile(fs: Fat439, ghost v: Volume, ghost files: seq<InputFile>, ghost chains: seq<seq<nat>>, ghost own: map<nat, nat>,
                  name: seq<Byte>, ghost k: nat) returns (start: nat)
    requires Formatted(v, files, chains, own) && Names(files)
    requires fs.Valid() && fs.nBlocks == v.nBlocks && fs.root == v.root && fs.table.fat[..] == v.fat && fs.dev.sectors[..] == SectorsOf(v)
    requires IsName(name) && name != DOT && name != DOTDOT && IsNamedIndex(files, name, k)
    ensures start == if k < |files| then Head(chains[2 + k]) else 0
  {
    RootReady(v, files, chains, own, name, k);
    start := LookUp(fs, fs.root, name, RootListing(v, |files|));
  }

  /** All that a lookup in the root directory needs. */
  lemma RootReady(v: Volume, files: seq<InputFile>, chains: seq<seq<nat>>, own: map<nat, nat>, name: seq<Byte>, k: nat)
    requires Formatted(v, files, chains, own) && Names(files) && IsName(name) && IsNamedIndex(files, name, k)
    ensures v.root < v.nBlocks && |files| <= 31 && (k < |files| ==> 2 + k < |chains|)
    ensures WordAt(SectorsOf(v)[v.root], 4) == 16 * |files| && Linked(v.fat, [v.root])
    ensures Stored(SectorsOf(v), [v.root], RootListing(v, |files|), 16 * |files|)
    ensures FirstMatch(RootListing(v, |files|), |files|, name, 0) == if k < |files| then Head(chains[2 + k]) else 0
  {
    RootOnDisk(v, files, chains, own);
    RootLists(v, files, chains, own);
    RootLookup(RootListing(v, |files|), files, chains, name, k);
  }

  /** Open the directory at `dir` and look a name up in it. */
  method LookUp(fs: Fat439, dir: nat, name: seq<Byte>, ghost l: seq<Byte>) returns (start: nat)
    requires fs.Valid() && dir < fs.nBlocks && WordAt(fs.dev.sectors[dir], 4) == |l| && |l| % 16 == 0
    requires Stored(fs.dev.sectors[..], [dir], l, |l|) && Linked(fs.table.fat[..], [dir])
    requires IsName(name) && name != DOT && name != DOTDOT
    ensures start == FirstMatch(l, |l| / 16, name, 0)
  {
    var content := new OpenFile.Open(fs, dir);
    var directory := new Directory(content);
    start := directory.Lookup(name, [dir], l);
  }

  /** Open the file at `start`, seek and read. */
  method ReadAt(fs: Fat439, start: nat, s: nat, n: nat, ghost chain: seq<nat>, ghost data: seq<Byte>) returns (cnt: int, buf: seq<Byte>)
    requires fs.Valid() && FileIn(fs.dev.sectors[..], chain, data) && chain[0] == start && Linked(fs.table.fat[..], chain)
    ensures Served(data, s, n, cnt, buf)
  {
    var file := new OpenFile.Open(fs, start);
    var f := new File(file);
    f.Seek(s);
    cnt, buf := f.ReadFully(n, chain, data);
  }

  method MakeDisk(n: nat, files: seq<InputFile>)
    returns (ok: bool, dev: BlockDevice, ghost v: Volume, ghost chains: seq<seq<nat>>, ghost own: map<nat, nat>)
    requires FatBlocks(n) + 2 <= n && n * 512 < 0x8000_0000 && |files| <= 31
    ensures ok == (1 + BlocksFor(files, |files|) <= n - 1 - FatBlocks(n))
    ensures ok ==> OnDisk(dev, v) && Formatted(v, files, chains, own)
  {
    var image;
    ok, image := MakeImage(n, files);
    v, chains, own := image.Contents(), image.chains, image.own;
    if ok {
      dev := DiskOf(Volume(image.nBlocks, image.avail, image.root, image.fat[..], image.blocks[..]));
    } else {
      var none := new seq<Byte>[0];
      dev := new BlockDevice(512, none);
    }
  }

  method DiskOf(v: Volume) returns (dev: BlockDevice)
    requires VolumeOk(v)
    ensures OnDisk(dev, v)
  {
    var disk := new seq<Byte>[v.nBlocks](i requires 0 <= i < v.nBlocks => SectorAt(v, i));
    assert forall i | 0 <= i < v.nBlocks :: disk[i] == SectorsOf(v)[i];
    assert disk[..] == SectorsOf(v);
    dev := new BlockDevice(512, disk);
  }

  lemma NamedIndex(files: seq<InputFile>, name: seq<Byte>) returns (k: nat)
    ensures IsNamedIndex(files, name, k)
    ensures k < |files| <==> exists j: nat :: FirstNamed(files, name, j)
    ensures forall j: nat :: FirstNamed(files, name, j) ==> j == k
  {
    if j: nat :| FirstNamed(files, name, j) {
      k := j;
    } else {
      k := |files|;
    }
  }

  /** Build an image of some files, put it on a disk, and read from the file called `name`. */
  method RoundTrip(n: nat, files: seq<InputFile>, name: seq<Byte>, s: nat, want: nat)
    returns (ok: bool, found: bool, cnt: int, buf: seq<Byte>)
    requires FatBlocks(n) + 2 <= n && n * 512 < 0x8000_0000 && |files| <= 31
    requires Names(files) && IsName(name) && name != DOT && name != DOTDOT
    ensures ok == (1 + BlocksFor(files, |files|) <= n - 1 - FatBlocks(n))
    ensures ok ==> (found <==> exists k: nat :: FirstNamed(files, name, k))
    ensures ok ==> forall k: nat | FirstNamed(files, name, k) :: Served(files[k].data, s, want, cnt, buf)
  {
    var dev;
    ghost var v, chains, own;
    ok, dev, v, chains, own := MakeDisk(n, files);
    found, cnt, buf := false, 0, [];
    if ok {
      ghost var k := NamedIndex(files, name);
      found, cnt, buf := ReadBack(dev, v, files, chains, own, name, s, want, k);
    }
  }
}
