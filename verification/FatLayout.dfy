/** What a FAT439 volume looks like: superblock, allocation table, and files laid out in
    chains of 512-byte blocks, and the sectors that hold all this. */
module FatLayout {
  import opened Common
  import opened Bytes
  import opened BlockDevices
  import opened FatChains

  const TYPE_FILE := 1
  const TYPE_DIR := 2

  datatype Volume = Volume(nBlocks: nat, avail: nat, root: nat, fat: seq<nat>, blocks: seq<seq<Byte>>)

  /** Sectors taken by the allocation table. */
  function FatBlocks(nBlocks: nat): nat {
    (4 * nBlocks + 511) / 512
  }

  ghost predicate VolumeOk(v: Volume) {
    && v.nBlocks * 512 < 0x8000_0000 && FatBlocks(v.nBlocks) + 2 <= v.nBlocks
    && |v.fat| == v.nBlocks && |v.blocks| == v.nBlocks && v.avail < WORD && v.root < v.nBlocks
    && (forall i | 0 <= i < v.nBlocks :: v.fat[i] < WORD)
    && Uniform(v.blocks, 512)
  }

  // ------------------------------------------------------------------
  // Volume to sectors

  function Zeros(n: nat): (z: seq<Byte>)
    ensures |z| == n && forall i | 0 <= i < n :: z[i] == 0
  {
    seq(n, _ => 0)
  }

  const MAGIC: seq<Byte> := [0x46, 0x34, 0x33, 0x39]

  function SuperSector(v: Volume): (s: seq<Byte>)
    ensures |s| == 512
  {
    MAGIC + WordBytes(v.nBlocks) + WordBytes(v.avail) + WordBytes(v.root) + Zeros(496)
  }

  function FatWord(v: Volume, i: nat): nat {
    if i < |v.fat| then v.fat[i] else 0
  }

  /** Sector `s` of the allocation table, 128 words of it. */
  function FatSector(v: Volume, s: nat): (b: seq<Byte>)
    requires s >= 1
    ensures |b| == 512
  {
    seq(512, k requires 0 <= k < 512 => WordBytes(FatWord(v, 128 * (s - 1) + k / 4))[k % 4])
  }

  function SectorAt(v: Volume, s: nat): seq<Byte>
    requires s < |v.blocks|
  {
    if s == 0 then SuperSector(v) else if s <= FatBlocks(v.nBlocks) then FatSector(v, s) else v.blocks[s]
  }

  ghost function SectorsOf(v: Volume): (ss: seq<seq<Byte>>)
    requires VolumeOk(v)
    ensures Uniform(ss, 512) && |ss| == v.nBlocks
  {
    seq(v.nBlocks, s requires 0 <= s < v.nBlocks => SectorAt(v, s))
  }

  /** The bytes of the image file. */
  ghost function ImageOf(v: Volume): (img: seq<Byte>)
    requires VolumeOk(v)
    ensures |img| == v.nBlocks * 512
  {
    Flat(SectorsOf(v), 512)
  }

  /** The first 16 bytes of an image give its superblock back. */
  lemma SuperRoundTrip(v: Volume)
    requires VolumeOk(v)
    ensures var h := ImageOf(v)[0..16];
      h[0..4] == MAGIC && WordAt(h, 4) == v.nBlocks && WordAt(h, 8) == v.avail && WordAt(h, 12) == v.root
  {
    FlatSlice(SectorsOf(v), 512, 0, 0, 16, 0);
    var s := SuperSector(v);
    assert SectorsOf(v)[0] == s;
    FourPieces(MAGIC, WordBytes(v.nBlocks), WordBytes(v.avail), WordBytes(v.root), Zeros(496));
    SuperWords(s, v.nBlocks, v.avail, v.root);
  }

  lemma SuperWords(s: seq<Byte>, a: nat, b: nat, c: nat)
    requires |s| >= 16 && a < WORD && b < WORD && c < WORD
    requires s[0..4] == MAGIC && s[4..8] == WordBytes(a) && s[8..12] == WordBytes(b) && s[12..16] == WordBytes(c)
    ensures var h := s[0..16]; h[0..4] == MAGIC && WordAt(h, 4) == a && WordAt(h, 8) == b && WordAt(h, 12) == c
  {
    SliceAt(s, 0, 16, 0, 4);
    SliceAt(s, 0, 16, 4, 8);
    SliceAt(s, 0, 16, 8, 12);
    SliceAt(s, 0, 16, 12, 16);
    WordOf(s[0..16], 4, a);
    WordOf(s[0..16], 8, b);
    WordOf(s[0..16], 12, c);
  }

  /** The first bytes of an image: "F439", block count, first free block, root directory. */
  lemma SuperBytes(v: Volume)
    requires VolumeOk(v)
    ensures var img := ImageOf(v);
      && |img| >= 16 && img[0] == 'F' as int && img[1] == '4' as int && img[2] == '3' as int && img[3] == '9' as int
      && StandsAt(img, 4, v.nBlocks) && StandsAt(img, 8, v.avail) && StandsAt(img, 12, v.root)
  {
    SuperRoundTrip(v);
    var img := ImageOf(v);
    var h := img[0..16];
    assert forall k | 0 <= k < 4 :: h[0..4][k] == img[k];
    WordStands(h, 4, v.nBlocks);
    WordStands(h, 8, v.avail);
    WordStands(h, 12, v.root);
  }

  lemma FatByte(v: Volume, i: nat, j: nat)
    requires VolumeOk(v) && i < v.nBlocks && j < 4
    ensures 512 + 4 * i + j < v.nBlocks * 512
    ensures ImageOf(v)[512 + 4 * i + j] == WordBytes(v.fat[i])[j]
  {
    var s, r := FatPlace(v.nBlocks, i, j);
    FatSectorIn(v, s, r, i, j);
    ImageByte(SectorsOf(v), s, r, 512 + 4 * i + j);
  }

  lemma ImageByte(ss: seq<seq<Byte>>, s: nat, r: nat, a: nat)
    requires Uniform(ss, 512) && s < |ss| && r < 512 && a == s * 512 + r
    ensures a < |ss| * 512 && Flat(ss, 512)[a] == ss[s][r]
  {
    FlatIndex(ss, 512, s, r);
  }

  lemma FatSectorIn(v: Volume, s: nat, r: nat, i: nat, j: nat)
    requires VolumeOk(v) && 1 <= s <= FatBlocks(v.nBlocks) && r < 512
    requires i < v.nBlocks && j < 4 && r == 4 * (i - 128 * (s - 1)) + j
    ensures SectorsOf(v)[s][r] == WordBytes(v.fat[i])[j]
  {
    assert SectorsOf(v)[s] == SectorAt(v, s) == FatSector(v, s);
  }

  /** Word `i` of the table in sectors. */
  lemma FatPlace(nBlocks: nat, i: nat, j: nat) returns (s: nat, r: nat)
    requires i < nBlocks && j < 4 && FatBlocks(nBlocks) + 2 <= nBlocks
    ensures 1 <= s <= FatBlocks(nBlocks) && r < 512 && r == 4 * (i - 128 * (s - 1)) + j
    ensures s * 512 + r == 512 + 4 * i + j < nBlocks * 512
  {
    s, r := 1 + i / 128, 4 * (i % 128) + j;
  }

  lemma WordPicked(b: seq<Byte>, lo: nat, hi: nat, a: nat, w: seq<Byte>)
    requires lo + a + 4 <= hi <= |b| && |w| == 4
    requires forall j | 0 <= j < 4 :: b[lo + a + j] == w[j]
    ensures WordAt(b[lo..hi], a) == WordAt(w, 0)
  {
    var t := b[lo..hi];
    assert t[a] == b[lo + a + 0] && t[a + 1] == b[lo + a + 1] && t[a + 2] == b[lo + a + 2] && t[a + 3] == b[lo + a + 3];
  }

  lemma TableBytes(v: Volume, i: nat, img: seq<Byte>, w: seq<Byte>)
    requires VolumeOk(v) && i < v.nBlocks && img == ImageOf(v) && w == WordBytes(v.fat[i])
    ensures 512 + 4 * v.nBlocks <= |img|
    ensures forall j | 0 <= j < 4 :: img[512 + 4 * i + j] == w[j]
  {
    forall j | 0 <= j < 4 ensures img[512 + 4 * i + j] == w[j] {
      FatByte(v, i, j);
    }
  }

  /** The table region of an image gives the allocation table back. */
  lemma FatRoundTrip(v: Volume, i: nat)
    requires VolumeOk(v) && i < v.nBlocks
    ensures 512 + 4 * v.nBlocks <= |ImageOf(v)|
    ensures WordAt(ImageOf(v)[512..512 + 4 * v.nBlocks], 4 * i) == v.fat[i]
  {
    var img, w := ImageOf(v), WordBytes(v.fat[i]);
    TableBytes(v, i, img, w);
    WordPicked(img, 512, 512 + 4 * v.nBlocks, 4 * i, w);
    WordRoundTrip(v.fat[i]);
  }

  /** Entry `i` of the allocation table is at byte 512 + 4 * i. */
  lemma TableEntryBytes(v: Volume, i: nat)
    requires VolumeOk(v) && i < v.nBlocks
    ensures 512 + 4 * i + 4 <= |ImageOf(v)| && StandsAt(ImageOf(v), 512 + 4 * i, v.fat[i])
  {
    var img, w := ImageOf(v), WordBytes(v.fat[i]);
    TableBytes(v, i, img, w);
    WordRoundTrip(v.fat[i]);
    WordStands(w, 0, v.fat[i]);
    assert img[512 + 4 * i + 0] == w[0] && img[512 + 4 * i + 1] == w[1] && img[512 + 4 * i + 2] == w[2] && img[512 + 4 * i + 3] == w[3];
  }

  /** The table of `n` entries of 4 bytes takes `t` blocks of 512 bytes. */
  ghost predicate TableTakes(n: nat, t: nat) {
    512 * t >= 4 * n && 512 * t < 4 * n + 512
  }

  lemma FatBlocksExact(n: nat, t: nat)
    ensures TableTakes(n, t) <==> t == FatBlocks(n)
  {
  }

  // ------------------------------------------------------------------
  // Files

  /** Byte `k` of a file sits behind the header, in block `(k + 16) / 512` of its chain. */
  predicate StoredAt(blocks: seq<seq<Byte>>, chain: seq<nat>, data: seq<Byte>, k: nat)
    requires k < |data|
  {
    var (q, r) := ((k + 16) / 512, (k + 16) % 512);
    q < |chain| && chain[q] < |blocks| && r < |blocks[chain[q]]| && blocks[chain[q]][r] == data[k]
  }

  ghost predicate Stored(blocks: seq<seq<Byte>>, chain: seq<nat>, data: seq<Byte>, n: nat)
    requires n <= |data|
  {
    forall k {:trigger StoredAt(blocks, chain, data, k)} | 0 <= k < n :: StoredAt(blocks, chain, data, k)
  }

  /** The four header words of a file or directory. */
  predicate HeaderIs(block: seq<Byte>, kind: nat, length: nat, parent: nat, current: nat) {
    && |block| == 512
    && WordAt(block, 0) == kind && WordAt(block, 4) == length && WordAt(block, 8) == parent && WordAt(block, 12) == current
  }

  ghost predicate FileIn(blocks: seq<seq<Byte>>, chain: seq<nat>, data: seq<Byte>) {
    && |chain| == (|data| + 16) / 512 + 1 && chain[0] < |blocks|
    && HeaderIs(blocks[chain[0]], TYPE_FILE, |data|, 1023, chain[0])
    && Stored(blocks, chain, data, |data|)
  }

  // ------------------------------------------------------------------
  // Directory entries

  /** A file name is a string without the terminator. */
  predicate IsName(name: seq<Byte>) {
    forall i | 0 <= i < |name| :: name[i] != 0
  }

  /** strncpy into a field of 12 bytes. */
  function NameField(name: seq<Byte>): (f: seq<Byte>)
    ensures |f| == 12
  {
    if |name| >= 12 then name[..12] else name + Zeros(12 - |name|)
  }

  /** Character `j` of a terminated string. */
  function CharAt(name: seq<Byte>, j: nat): Byte {
    if j < |name| then name[j] else 0
  }

  /** The comparison in lookup, from character `j` on. */
  predicate Matches(field: seq<Byte>, name: seq<Byte>, j: nat)
    requires |field| == 12 && j <= 12
    decreases 12 - j
  {
    j < 12 && field[j] == CharAt(name, j) && (field[j] == 0 || Matches(field, name, j + 1))
  }

  /** What is compared equal: the name itself, if it leaves room for its terminator. */
  lemma {:induction false} MatchesFrom(field: seq<Byte>, name: seq<Byte>, j: nat)
    requires |field| == 12 && j <= 12 && j <= |name| && IsName(name)
    requires forall i | 0 <= i < j :: field[i] == name[i]
    ensures Matches(field, name, j) <==> |name| < 12 && field[..|name| + 1] == name + [0]
    decreases 12 - j
  {
    if j < 12 {
      if j < |name| {
        if field[j] == name[j] {
          MatchesFrom(field, name, j + 1);
        } else if |name| < 12 {
          assert (name + [0])[j] == name[j] && field[..|name| + 1][j] == field[j];
        }
      } else {
        assert |name| == j;
        if field[j] == 0 {
          assert field[..j + 1] == name + [0];
        } else {
          assert (name + [0])[j] == 0 && field[..j + 1][j] == field[j];
        }
      }
    }
  }

  /** A stored name is found under exactly itself, and only if it has at most 11 characters. */
  lemma NameFound(stored: seq<Byte>, name: seq<Byte>)
    requires IsName(stored) && IsName(name)
    ensures Matches(NameField(stored), name, 0) <==> |stored| < 12 && stored == name
  {
    var f := NameField(stored);
    MatchesFrom(f, name, 0);
    assert forall i | 0 <= i < 12 :: f[i] == CharAt(stored, i);
    if |name| < 12 {
      var g := f[..|name| + 1];
      assert forall i | 0 <= i < |g| :: g[i] == CharAt(stored, i);
      if stored == name {
        assert g == name + [0];
      } else if g == name + [0] {
        assert CharAt(stored, |name|) == g[|name|];
        assert forall i | 0 <= i < |name| :: CharAt(stored, i) == g[i] == name[i];
        PrefixLength(stored, name);
      }
    }
  }

  lemma PrefixLength(stored: seq<Byte>, name: seq<Byte>)
    requires IsName(stored) && IsName(name) && CharAt(stored, |name|) == 0
    requires forall i | 0 <= i < |name| :: CharAt(stored, i) == name[i]
    ensures stored == name
  {
    if |name| > 0 { assert CharAt(stored, |name| - 1) == name[|name| - 1]; }
  }

  /** Entry `i` of a directory block: a name field and the block where the file starts. */
  predicate EntryIs(block: seq<Byte>, i: nat, field: seq<Byte>, start: nat) {
    && 16 + 16 * i + 16 <= |block|
    && block[16 + 16 * i..16 + 16 * i + 12] == field && WordAt(block, 16 + 16 * i + 12) == start
  }
}
