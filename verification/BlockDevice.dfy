/** Bytes, little-endian words, and the sector device (kernel/block.cc) as a flat array. */
module Bytes {
  type Byte = x: int | 0 <= x < 0x100 witness 0

  const WORD := 0x1_0000_0000

  /** The four bytes of a 32-bit word, least significant first. */
  function WordBytes(v: nat): (b: seq<Byte>)
    ensures |b| == 4
  {
    [v % 0x100, v / 0x100 % 0x100, v / 0x1_0000 % 0x100, v / 0x100_0000 % 0x100]
  }

  function WordAt(b: seq<Byte>, i: nat): (v: nat)
    requires i + 4 <= |b|
    ensures v < WORD
  {
    b[i] as int + 0x100 * (b[i + 1] as int) + 0x1_0000 * (b[i + 2] as int) + 0x100_0000 * (b[i + 3] as int)
  }

  /** Reading a word back from its bytes. */
  lemma WordRoundTrip(v: nat)
    requires v < WORD
    ensures WordAt(WordBytes(v), 0) == v
  {
    assert v / 0x1_0000 == v / 0x100 / 0x100 && v / 0x100_0000 == v / 0x1_0000 / 0x100;
  }

  /** A word stands in four bytes, least significant first, as on the processor. */
  predicate StandsAt(b: seq<Byte>, i: nat, v: nat)
    requires i + 4 <= |b|
  {
    && b[i] == v % 256 && b[i + 1] == v / 256 % 256
    && b[i + 2] == v / 65536 % 256 && b[i + 3] == v / 16777216
  }

  lemma WordStands(b: seq<Byte>, i: nat, v: nat)
    requires i + 4 <= |b|
    ensures WordAt(b, i) == v <==> StandsAt(b, i, v)
  {
    if WordAt(b, i) == v {
      assert v / 256 == b[i + 1] as int + 256 * (b[i + 2] as int) + 65536 * (b[i + 3] as int);
      assert v / 65536 == b[i + 2] as int + 256 * (b[i + 3] as int);
    }
    if StandsAt(b, i, v) {
      assert v / 65536 == v / 256 / 256 && v / 16777216 == v / 65536 / 256;
    }
  }

  lemma WordAtSame(a: seq<Byte>, i: nat, b: seq<Byte>, j: nat)
    requires i + 4 <= |a| && j + 4 <= |b| && a[i..i + 4] == b[j..j + 4]
    ensures WordAt(a, i) == WordAt(b, j)
  {
    assert a[i] == a[i..i + 4][0] && a[i + 1] == a[i..i + 4][1] && a[i + 2] == a[i..i + 4][2] && a[i + 3] == a[i..i + 4][3];
    assert b[j] == b[j..j + 4][0] && b[j + 1] == b[j..j + 4][1] && b[j + 2] == b[j..j + 4][2] && b[j + 3] == b[j..j + 4][3];
  }

  /** A slice of a slice. */
  lemma SliceAt(a: seq<Byte>, lo: nat, hi: nat, i: nat, j: nat)
    requires lo <= hi <= |a| && i <= j <= hi - lo
    ensures a[lo..hi][i..j] == a[lo + i..lo + j]
  {
    var x, y := a[lo..hi][i..j], a[lo + i..lo + j];
    forall k | 0 <= k < j - i ensures x[k] == y[k] { }
  }

  /** Where the four bytes of a word stand, the word is read. */
  lemma WordOf(s: seq<Byte>, i: nat, v: nat)
    requires i + 4 <= |s| && v < WORD && s[i..i + 4] == WordBytes(v)
    ensures WordAt(s, i) == v
  {
    WordRoundTrip(v);
    FirstFour(s, i, WordBytes(v));
  }

  lemma FirstFour(s: seq<Byte>, i: nat, w: seq<Byte>)
    requires i + 4 <= |s| && s[i..i + 4] == w
    ensures WordAt(s, i) == WordAt(w, 0)
  {
    assert s[i] == s[i..i + 4][0] && s[i + 1] == s[i..i + 4][1] && s[i + 2] == s[i..i + 4][2] && s[i + 3] == s[i..i + 4][3];
  }

  /** Five pieces laid end to end, four of them four bytes long. */
  lemma FourPieces(a: seq<Byte>, b: seq<Byte>, c: seq<Byte>, d: seq<Byte>, e: seq<Byte>)
    requires |a| == 4 && |b| == 4 && |c| == 4 && |d| == 4
    ensures var s := a + b + c + d + e;
      s[0..4] == a && s[4..8] == b && s[8..12] == c && s[12..16] == d && s[16..] == e
  {
    var s := a + b + c + d + e;
    forall k | 0 <= k < 4 ensures s[0..4][k] == a[k] && s[4..8][k] == b[k] && s[8..12][k] == c[k] && s[12..16][k] == d[k] { }
    forall k | 0 <= k < |e| ensures s[16..][k] == e[k] { }
  }

  function Min(a: nat, b: nat): nat {
    if a < b then a else b
  }
}

module BlockDevices {
  import opened Common
  import opened Bytes

  /** Sectors of `bs` bytes laid end to end. */
  ghost function Flat(sectors: seq<seq<Byte>>, bs: nat): (f: seq<Byte>)
    requires bs > 0 && Uniform(sectors, bs)
    ensures |f| == |sectors| * bs
  {
    seq(|sectors| * bs, k requires 0 <= k < |sectors| * bs => FlatAt(sectors, bs, k))
  }

  ghost predicate Uniform(sectors: seq<seq<Byte>>, bs: nat) {
    forall i | 0 <= i < |sectors| :: |sectors[i]| == bs
  }

  ghost function FlatAt(sectors: seq<seq<Byte>>, bs: nat, k: nat): Byte
    requires bs > 0 && Uniform(sectors, bs) && k < |sectors| * bs
  {
    DivModFacts(k, bs, |sectors|);
    sectors[k / bs][k % bs]
  }

  lemma DivModFacts(k: nat, bs: nat, n: nat)
    requires bs > 0 && k < n * bs
    ensures 0 <= k / bs < n && 0 <= k % bs < bs && k == k / bs * bs + k % bs
  {
    MulLe(n, k / bs, bs);
  }

  lemma DivModUnique(q: nat, r: nat, bs: nat)
    requires r < bs
    ensures (q * bs + r) / bs == q && (q * bs + r) % bs == r
  {
    var k := q * bs + r;
    var d := k / bs - q;
    MulSign(bs, d);
    assert bs * d == r - k % bs;
  }

  /** Byte `r` of sector `s`. */
  lemma FlatIndex(sectors: seq<seq<Byte>>, bs: nat, s: nat, r: nat)
    requires bs > 0 && Uniform(sectors, bs) && s < |sectors| && r < bs
    ensures s * bs + r < |sectors| * bs && FlatAt(sectors, bs, s * bs + r) == sectors[s][r]
  {
    MulLe(s + 1, |sectors|, bs);
    DivModUnique(s, r, bs);
  }

  /** A stretch inside one sector, seen from the flat array; `a` is where it starts. */
  lemma FlatSlice(sectors: seq<seq<Byte>>, bs: nat, s: nat, off: nat, m: nat, a: nat)
    requires bs > 0 && Uniform(sectors, bs) && s < |sectors| && off + m <= bs && a == s * bs + off
    ensures a + m <= |sectors| * bs
    ensures Flat(sectors, bs)[a..a + m] == sectors[s][off..off + m]
  {
    MulLe(s + 1, |sectors|, bs);
    var x, y := Flat(sectors, bs)[a..a + m], sectors[s][off..off + m];
    forall j | 0 <= j < m ensures x[j] == y[j] {
      FlatIndex(sectors, bs, s, off + j);
    }
  }

  /** Sector `s` with `buf` in it from `off` on. */
  ghost function Patch(sectors: seq<seq<Byte>>, s: nat, off: nat, buf: seq<Byte>): seq<seq<Byte>>
    requires s < |sectors| && off + |buf| <= |sectors[s]|
  {
    sectors[s := sectors[s][..off] + buf + sectors[s][off + |buf|..]]
  }

  lemma PatchIndex(sectors: seq<seq<Byte>>, s: nat, off: nat, buf: seq<Byte>, q: nat, r: nat)
    requires s < |sectors| && off + |buf| <= |sectors[s]| && q < |sectors| && r < |sectors[q]|
    ensures |Patch(sectors, s, off, buf)[q]| == |sectors[q]|
    ensures Patch(sectors, s, off, buf)[q][r] == if q == s && off <= r < off + |buf| then buf[r - off] else sectors[q][r]
  {
  }

  /** Bytes of another sector lie outside a stretch of sector `s`. */
  lemma OtherSector(bs: nat, s: nat, q: nat, r: nat, off: nat, m: nat)
    requires r < bs && off + m <= bs && q != s
    ensures !(s * bs + off <= q * bs + r < s * bs + off + m)
  {
    MulLe(q + 1, s, bs);
    MulLe(s + 1, q, bs);
  }

  lemma PatchAt(sectors: seq<seq<Byte>>, bs: nat, s: nat, off: nat, buf: seq<Byte>, a: nat, k: nat)
    requires bs > 0 && Uniform(sectors, bs) && s < |sectors| && off + |buf| <= bs && k < |sectors| * bs && a == s * bs + off
    requires Uniform(Patch(sectors, s, off, buf), bs)
    ensures FlatAt(Patch(sectors, s, off, buf), bs, k) == if a <= k < a + |buf| then buf[k - a] else FlatAt(sectors, bs, k)
  {
    DivModFacts(k, bs, |sectors|);
    PatchIndex(sectors, s, off, buf, k / bs, k % bs);
    if k / bs != s { OtherSector(bs, s, k / bs, k % bs, off, |buf|); }
  }

  /** Replacing part of one sector replaces that part of the flat array, and nothing else. */
  lemma FlatPatch(sectors: seq<seq<Byte>>, bs: nat, s: nat, off: nat, buf: seq<Byte>, a: nat)
    requires bs > 0 && Uniform(sectors, bs) && s < |sectors| && off + |buf| <= bs && a == s * bs + off
    ensures a + |buf| <= |sectors| * bs && Uniform(Patch(sectors, s, off, buf), bs)
    ensures Flat(Patch(sectors, s, off, buf), bs) == Flat(sectors, bs)[..a] + buf + Flat(sectors, bs)[a + |buf|..]
  {
    MulLe(s + 1, |sectors|, bs);
    var f, g := Flat(sectors, bs), Flat(Patch(sectors, s, off, buf), bs);
    var h := f[..a] + buf + f[a + |buf|..];
    forall k | 0 <= k < |f| ensures g[k] == h[k] {
      PatchAt(sectors, bs, s, off, buf, a, k);
    }
  }

  class BlockDevice {
    const blockSize: nat
    const sectors: array<seq<Byte>>

    ghost predicate Valid()
      reads sectors
    {
      blockSize > 0 && Uniform(sectors[..], blockSize)
    }

    ghost function Data(): seq<Byte>
      reads sectors
      requires Valid()
    {
      Flat(sectors[..], blockSize)
    }

    constructor (bs: nat, ss: array<seq<Byte>>)
      requires bs > 0 && Uniform(ss[..], bs)
      ensures Valid() && blockSize == bs && sectors == ss
    {
      blockSize, sectors := bs, ss;
    }

    /** As many of `n` bytes from `offset` as lie in its sector. */
    method Read(offset: nat, n: nat) returns (buf: seq<Byte>)
      requires Valid() && offset < |Data()|
      ensures |buf| == Min(n, blockSize - offset % blockSize) && (n > 0 ==> |buf| > 0)
      ensures offset + |buf| <= |Data()| && buf == Data()[offset..offset + |buf|]
    {
      DivModFacts(offset, blockSize, sectors.Length);
      var sector := offset / blockSize;
      var data := sectors[sector];
      var dataOffset := offset - sector * blockSize;
      var m := Min(n, blockSize - dataOffset);
      FlatSlice(sectors[..], blockSize, sector, dataOffset, m, offset);
      buf := data[dataOffset..dataOffset + m];
    }

    /** Read exactly `n` bytes, over as many sectors as it takes. */
    method ReadFully(offset: nat, n: nat) returns (buf: seq<Byte>)
      requires Valid() && offset + n <= |Data()|
      ensures buf == Data()[offset..offset + n]
    {
      var togo, at := n, offset;
      buf := [];
      while togo > 0
        invariant 0 <= togo <= n && at == offset + n - togo && buf == Data()[offset..at]
      {
        var chunk := Read(at, togo);
        assert Data()[offset..at] + Data()[at..at + |chunk|] == Data()[offset..at + |chunk|];
        buf := buf + chunk;
        togo := togo - |chunk|;
        at := at + |chunk|;
      }
    }

    /** Write as much of `buf` at `offset` as lies in its sector. */
    method Write(offset: nat, buf: seq<Byte>) returns (m: nat, ghost sector: nat, ghost dataOffset: nat)
      requires Valid() && offset < |Data()|
      modifies sectors
      ensures offset == sector * blockSize + dataOffset && dataOffset < blockSize && sector < sectors.Length
      ensures Valid() && m == Min(|buf|, blockSize - dataOffset) && offset + m <= |old(Data())|
      ensures Data() == Overwrite(old(Data()), offset, buf[..m])
      ensures sectors[..] == Patch(old(sectors[..]), sector, dataOffset, buf[..m])
    {
      DivModFacts(offset, blockSize, sectors.Length);
      var s := offset / blockSize;
      var o := offset - s * blockSize;
      sector, dataOffset := s, o;
      m := Min(|buf|, blockSize - o);
      WriteSector(s, o, buf[..m], offset);
    }

    /** Part of a sector read, replaced and written back. */
    method WriteSector(s: nat, o: nat, buf: seq<Byte>, ghost a: nat)
      requires Valid() && s < sectors.Length && o + |buf| <= blockSize && a == s * blockSize + o
      modifies sectors
      ensures Valid() && a + |buf| <= |old(Data())| && Data() == Overwrite(old(Data()), a, buf)
      ensures sectors[..] == Patch(old(sectors[..]), s, o, buf)
    {
      FlatPatch(sectors[..], blockSize, s, o, buf, a);
      var data := sectors[s];
      sectors[s] := data[..o] + buf + data[o + |buf|..];
    }

    /** One round of writeFully: `done` bytes of `buf` are written already. */
    method WriteMore(offset: nat, buf: seq<Byte>, done: nat, ghost before: seq<Byte>) returns (c: nat)
      requires Valid() && done < |buf| && offset + |buf| <= |before| && |Data()| == |before|
      requires Data() == Overwrite(before, offset, buf[..done])
      modifies sectors
      ensures Valid() && |Data()| == |before| && 0 < c && done + c <= |buf|
      ensures Data() == Overwrite(before, offset, buf[..done + c])
    {
      ghost var s, o;
      c, s, o := Write(offset + done, buf[done..]);
      OverwriteMore(before, offset, buf, done, c);
    }

    /** Write all of `buf` at `offset`, over as many sectors as it takes. */
    method WriteFully(offset: nat, buf: seq<Byte>)
      requires Valid() && offset + |buf| <= |Data()|
      modifies sectors
      ensures Valid() && Data() == Overwrite(old(Data()), offset, buf)
    {
      ghost var before := Data();
      var done := 0;
      assert before == Overwrite(before, offset, buf[..0]);
      while done < |buf|
        invariant done <= |buf| && Valid() && |Data()| == |before|
        invariant Data() == Overwrite(before, offset, buf[..done])
      {
        var c := WriteMore(offset, buf, done, before);
        done := done + c;
      }
      assert buf[..done] == buf;
    }
  }

  /** `f` with `buf` in it from `a` on. */
  function Overwrite(f: seq<Byte>, a: nat, buf: seq<Byte>): seq<Byte>
    requires a + |buf| <= |f|
  {
    f[..a] + buf + f[a + |buf|..]
  }

  lemma OverwriteMore(f: seq<Byte>, a: nat, buf: seq<Byte>, m: nat, c: nat)
    requires m + c <= |buf| && a + |buf| <= |f|
    ensures Overwrite(Overwrite(f, a, buf[..m]), a + m, buf[m..][..c]) == Overwrite(f, a, buf[..m + c])
  {
    assert buf[..m] + buf[m..][..c] == buf[..m + c];
  }
}
