/** Making a directory in the root of a mounted image, and what lookups find afterwards. */
module FatDirectories {
  import opened Common
  import opened Bytes
  import opened BlockDevices
  import opened FatChains
  import opened FatLayout
  import opened Mkfs
  import opened FatFs
  import opened FatRoundTrip

  lemma StartsInRoot(v: Volume, files: seq<InputFile>, chains: seq<seq<nat>>, own: map<nat, nat>)
    requires Formatted(v, files, chains, own)
    ensures StartsUsed(RootListing(v, |files|), |files|)
  {
    var l := RootListing(v, |files|);
    RootLists(v, files, chains, own);
    forall i | 0 <= i < |files| ensures EntryStart(l, i) != 0 {
      assert ListsAt(l, files, chains, i);
      FileOnDisk(v, files, chains, own, i);
    }
  }

  /** What the sectors hold of the root directory. */
  lemma RootFacts(v: Volume, files: seq<InputFile>, chains: seq<seq<nat>>, own: map<nat, nat>)
    requires Formatted(v, files, chains, own)
    ensures var block := SectorsOf(v)[v.root];
      && HeaderIs(block, TYPE_DIR, 16 * |files|, 0, v.root) && block[16..16 + 16 * |files|] == RootListing(v, |files|)
      && 0 < v.root && chains[1] == [v.root] && StartsUsed(RootListing(v, |files|), |files|)
  {
    RootOnDisk(v, files, chains, own);
    StartsInRoot(v, files, chains, own);
    assert LinkAt(v.fat, [v.root], 0);
  }

  /** Open a directory of `n` entries that fills chain `d`. */
  method OpenDirectory(fs: Fat439, start: nat, ghost n: nat, ghost parent: nat, ghost current: nat, ghost d: nat) returns (dir: Directory)
    requires fs.Valid() && fs.table.Valid() && fs.nBlocks <= WORD && 0 < start < fs.nBlocks && 16 * n + 16 <= 512
    requires 0 < d < |fs.table.chains| && fs.table.chains[d] == [start]
    requires HeaderIs(fs.dev.sectors[start], TYPE_DIR, 16 * n, parent, current)
    requires StartsUsed(fs.dev.sectors[start][16..16 + 16 * n], n)
    ensures dir.Ready(d) && dir.start == start && dir.content.fs == fs && dir.entries == n
    ensures dir.content.kind == TYPE_DIR && dir.content.length == 16 * n && dir.content.parent == parent
    ensures fresh(dir) && fresh(dir.content)
  {
    var content := new OpenFile.Open(fs, start);
    dir := new Directory(content);
  }

  /** The root directory of a mounted image, with all that mkdir relies on. */
  method OpenRoot(dev: BlockDevice, ghost v: Volume, ghost files: seq<InputFile>, ghost chains: seq<seq<nat>>, ghost own: map<nat, nat>)
    returns (dir: Directory)
    requires OnDisk(dev, v) && Formatted(v, files, chains, own)
    ensures dir.Ready(1) && dir.start == v.root == dir.content.fs.root && dir.content.fs.dev == dev
    ensures dir.content.kind == TYPE_DIR && dir.content.length == 16 * |files| && dir.content.parent == 0 && dir.entries == |files|
    ensures dir.content.fs.table.chains == chains && dir.Listing() == RootListing(v, |files|)
    ensures fresh(dir) && fresh(dir.content) && fresh(dir.content.fs.table) && fresh(dir.content.fs.table.fat)
  {
    var fs := MountVolume(dev, v, chains, own);
    RootFacts(v, files, chains, own);
    assert dev.sectors[v.root] == SectorsOf(v)[v.root];
    dir := OpenDirectory(fs, fs.root, |files|, 0, v.root, 1);
  }

  /** What mkdir answers for an image: whether the name fits, is new and has room. */
  ghost function AnswerFor(files: seq<InputFile>, free: seq<nat>, name: seq<Byte>): int {
    if |name| >= 12 then ERR_FL_NAMELEN
    else if 47 in name then ERR_INVL_CHAR
    else if name == DOT || (name != DOTDOT && exists k: nat :: FirstNamed(files, name, k)) then ERR_FL_EXIST
    else if 16 * |files| + 32 >= 512 then ERR_NO_ROOT_SPACE
    else if free == [] then ERR_NO_SPACE
    else 0
  }

  /** Where a name leads in the root directory of an image. */
  ghost predicate LeadsTo(files: seq<InputFile>, chains: seq<seq<nat>>, root: nat, x: seq<Byte>, b: nat) {
    if x == DOT then b == root
    else if x == DOTDOT then b == 0
    else
      && (forall k: nat | FirstNamed(files, x, k) :: |chains| > 2 + k && b == Head(chains[2 + k]) && b != 0)
      && (b != 0 ==> exists k: nat :: FirstNamed(files, x, k))
  }

  lemma RootLeads(v: Volume, files: seq<InputFile>, chains: seq<seq<nat>>, own: map<nat, nat>, x: seq<Byte>)
    requires Formatted(v, files, chains, own) && Names(files) && IsName(x)
    ensures LeadsTo(files, chains, v.root, x, Looked(v.root, 0, RootListing(v, |files|), |files|, x))
  {
    if x != DOT && x != DOTDOT {
      var k := NamedIndex(files, x);
      RootLists(v, files, chains, own);
      RootLookup(RootListing(v, |files|), files, chains, x, k);
      if k < |files| { FileOnDisk(v, files, chains, own, k); }
    }
  }

  /** Make a directory, then look a name up in the same directory. */
  method MkdirThenLookUp(dir: Directory, name: seq<Byte>, junk: seq<Byte>, x: seq<Byte>, ghost d: nat) returns (r: int, found: nat)
    requires dir.Ready(d) && IsName(name) && IsName(x) && |junk| == 12
    requires dir.start == dir.content.fs.root || dir.content.length + 32 <= 512
    modifies dir, dir.content, dir.content.fs.table, dir.content.fs.table.fat, dir.content.fs.dev.sectors
    ensures r == old(dir.MkdirAnswer(name))
    ensures found == if r == 0 && x == name && name != DOTDOT then Head(old(dir.content.fs.table.chains)[0]) else old(dir.Target(x))
    ensures r == 0 ==> Head(old(dir.content.fs.table.chains)[0]) != 0
  {
    r := dir.Mkdir(name, junk, d);
    if r != 0 { assert dir.content.fs.dev.sectors[dir.start] == old(dir.content.fs.dev.sectors[dir.start]); }
    found := dir.LookupHere(x, d);
  }

  /** Make a directory, look its name up, open the block found as a directory, and look a name up
      there: "." is that block, ".." is the directory it was made in, and nothing else is there. */
  method MakeAndEnter(dir: Directory, name: seq<Byte>, junk: seq<Byte>, x: seq<Byte>, ghost d: nat) returns (r: int, b: nat, found: nat)
    requires dir.Ready(d) && IsName(name) && name != DOTDOT && IsName(x) && |junk| == 12
    requires dir.start == dir.content.fs.root || dir.content.length + 32 <= 512
    modifies dir, dir.content, dir.content.fs.table, dir.content.fs.table.fat, dir.content.fs.dev.sectors
    ensures r == 0 ==> b != 0 && b != dir.start && old(dir.content.fs.table.chains)[0] != [] && b == old(dir.content.fs.table.chains)[0][0]
    ensures r == 0 ==> found == if x == [46] then b else if x == [46, 46] then dir.start else 0
  {
    ghost var was := dir.content.fs.table.chains;
    r := dir.Mkdir(name, junk, d);
    b, found := 0, 0;
    if r == 0 {
      b := dir.LookupHere(name, d);
      found := EnterAndLookUp(dir.content.fs, b, x, dir.start, |was|);
    }
  }

  method EnterAndLookUp(fs: Fat439, b: nat, x: seq<Byte>, ghost parent: nat, ghost c: nat) returns (found: nat)
    requires fs.Valid() && fs.table.Valid() && fs.nBlocks <= WORD && 0 < b < fs.nBlocks && IsName(x)
    requires 0 < c < |fs.table.chains| && fs.table.chains[c] == [b] && HeaderIs(fs.dev.sectors[b], TYPE_DIR, 0, parent, b)
    ensures found == if x == [46] then b else if x == [46, 46] then parent else 0
  {
    var dir := OpenDirectory(fs, b, 0, parent, b, c);
    found := dir.LookupHere(x, c);
  }

  /** The answer of mkdir in the root of a freshly mounted image. */
  lemma AnswerIs(dir: Directory, v: Volume, files: seq<InputFile>, chains: seq<seq<nat>>, own: map<nat, nat>, name: seq<Byte>)
    requires dir.Ready(1) && dir.start == v.root == dir.content.fs.root && dir.content.kind == TYPE_DIR && dir.content.length == 16 * |files|
    requires Formatted(v, files, chains, own) && Names(files) && IsName(name) && dir.content.fs.table.chains == chains && v.root != 0
    requires dir.Target(name) == Looked(v.root, 0, RootListing(v, |files|), |files|, name)
    ensures dir.MkdirAnswer(name) == AnswerFor(files, chains[0], name)
  {
    RootLeads(v, files, chains, own, name);
  }

  /** Mount an image, make a directory in its root, and look a name up: the answer of mkdir,
      the new block behind the new name (unless it is ".."), and every other name as before. */
  method MakeAndLookUp(dev: BlockDevice, ghost v: Volume, ghost files: seq<InputFile>, ghost chains: seq<seq<nat>>, ghost own: map<nat, nat>,
                       name: seq<Byte>, junk: seq<Byte>, x: seq<Byte>) returns (r: int, found: nat)
    requires OnDisk(dev, v) && Formatted(v, files, chains, own) && Names(files)
    requires IsName(name) && IsName(x) && |junk| == 12
    modifies dev.sectors
    ensures r == AnswerFor(files, chains[0], name)
    ensures r == 0 && x == name && name != DOTDOT ==> found == Head(chains[0]) && found != 0
    ensures r != 0 || x != name || name == DOTDOT ==> LeadsTo(files, chains, v.root, x, found)
  {
    var dir := OpenRoot(dev, v, files, chains, own);
    RootLeads(v, files, chains, own, x);
    AnswerIs(dir, v, files, chains, own, name);
    r, found := MkdirThenLookUp(dir, name, junk, x, 1);
  }
}
