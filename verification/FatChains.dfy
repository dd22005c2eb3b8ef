/** Block chains in the file allocation table and the block allocator that mkfs and the
    kernel share (fat439/mkfs.c, kernel/fs.cc). */
module FatChains {
  import opened Common

  /** Entry of the table after block `i` of a chain: the next block, or 0 at the end. */
  function After(chain: seq<nat>, i: nat): nat {
    if i + 1 < |chain| then chain[i + 1] else 0
  }

  predicate LinkAt(fat: seq<nat>, chain: seq<nat>, i: nat)
    requires i < |chain|
  {
    0 < chain[i] < |fat| && fat[chain[i]] == After(chain, i)
  }

  /** The table links the blocks of `chain` in order and ends there. */
  ghost predicate Linked(fat: seq<nat>, chain: seq<nat>) {
    forall i {:trigger LinkAt(fat, chain, i)} | 0 <= i < |chain| :: LinkAt(fat, chain, i)
  }

  /** Chain number `own[b]` holds block `b`, once, and no other chain does. */
  ghost predicate Partition(chains: seq<seq<nat>>, own: map<nat, nat>) {
    && (forall c {:trigger ChainOwned(chains, own, c)} | 0 <= c < |chains| :: ChainOwned(chains, own, c))
    && (forall b {:trigger own[b]} | b in own :: own[b] < |chains| && b in chains[own[b]])
  }

  ghost predicate ChainOwned(chains: seq<seq<nat>>, own: map<nat, nat>, c: nat)
    requires c < |chains|
  {
    Distinct(chains[c]) && forall i | 0 <= i < |chains[c]| :: chains[c][i] in own && own[chains[c][i]] == c
  }

  function Head(chain: seq<nat>): nat {
    if chain == [] then 0 else chain[0]
  }

  /** Chain 0 is the free chain, which starts at `avail`; the others belong to files.  Each
      chain is linked in the table, chains share no block, and together they are the blocks
      of `own`. */
  ghost predicate Inv(fat: seq<nat>, avail: nat, chains: seq<seq<nat>>, own: map<nat, nat>) {
    && |chains| > 0 && avail == Head(chains[0])
    && Partition(chains, own)
    && (forall c {:trigger chains[c]} | 0 <= c < |chains| :: Linked(fat, chains[c]))
  }

  /** Blocks of different chains, and different blocks of one chain, differ. */
  lemma Apart(chains: seq<seq<nat>>, own: map<nat, nat>, c: nat, i: nat, d: nat, j: nat)
    requires Partition(chains, own) && c < |chains| && d < |chains| && i < |chains[c]| && j < |chains[d]|
    requires c != d || i != j
    ensures chains[c][i] != chains[d][j]
  {
    assert ChainOwned(chains, own, c) && ChainOwned(chains, own, d);
  }

  /** A write to the entry of a block outside `chain` leaves the chain linked. */
  lemma LinkedElsewhere(fat: seq<nat>, chain: seq<nat>, b: nat, v: nat)
    requires Linked(fat, chain) && b < |fat| && b !in chain
    ensures Linked(fat[b := v], chain)
  {
    var f := fat[b := v];
    forall i | 0 <= i < |chain| ensures LinkAt(f, chain, i) {
      assert LinkAt(fat, chain, i) && chain[i] in chain;
    }
  }

  lemma NotIn(chains: seq<seq<nat>>, own: map<nat, nat>, c: nat, d: nat, b: nat)
    requires Partition(chains, own) && c < |chains| && d < |chains| && c != d && b in chains[c]
    ensures b !in chains[d]
  {
    assert ChainOwned(chains, own, c) && ChainOwned(chains, own, d);
  }

  // ------------------------------------------------------------------
  // Taking a block off the free chain

  /** The first free block becomes the last block of chain `c`, or a chain of its own when
      `c` is one past the last chain. */
  ghost function Grown(chains: seq<seq<nat>>, c: nat): seq<seq<nat>>
    requires 0 < c <= |chains| && |chains[0]| > 0
  {
    var b := chains[0][0];
    var rest := chains[0 := chains[0][1..]];
    if c == |chains| then rest + [[b]] else rest[c := chains[c] + [b]]
  }

  lemma GrownAt(chains: seq<seq<nat>>, c: nat, d: nat)
    requires 0 < c <= |chains| && |chains[0]| > 0 && d < |Grown(chains, c)|
    ensures Grown(chains, c)[d] ==
      if d == 0 then chains[0][1..]
      else if d == c then (if c == |chains| then [] else chains[c]) + [chains[0][0]]
      else chains[d]
  {
  }

  lemma GrownPartition(chains: seq<seq<nat>>, own: map<nat, nat>, c: nat)
    requires Partition(chains, own) && 0 < c <= |chains| && |chains[0]| > 0
    ensures Partition(Grown(chains, c), own[chains[0][0] := c])
  {
    var b, g, w := chains[0][0], Grown(chains, c), own[chains[0][0] := c];
    assert ChainOwned(chains, own, 0);
    forall d | 0 <= d < |g| ensures ChainOwned(g, w, d) {
      GrownAt(chains, c, d);
      if d < |chains| { assert ChainOwned(chains, own, d); }
      if d != 0 && d < |chains| { NotIn(chains, own, 0, d, b); }
      if d == c { assert forall i | 0 <= i < |g[d]| - 1 :: g[d][i] == chains[c][i]; }
    }
    forall x | x in w ensures w[x] < |g| && x in g[w[x]] {
      GrownHas(chains, own, c, x);
    }
  }

  lemma GrownHas(chains: seq<seq<nat>>, own: map<nat, nat>, c: nat, x: nat)
    requires Partition(chains, own) && 0 < c <= |chains| && |chains[0]| > 0
    requires x in own || x == chains[0][0]
    ensures var d := own[chains[0][0] := c][x]; d < |Grown(chains, c)| && x in Grown(chains, c)[d]
  {
    var b, g := chains[0][0], Grown(chains, c);
    if x == b {
      GrownAt(chains, c, c);
      assert g[c][|g[c]| - 1] == b;
    } else {
      GrownAt(chains, c, own[x]);
      var i :| 0 <= i < |chains[own[x]]| && chains[own[x]][i] == x;
      if own[x] == 0 {
        assert chains[0][1..][i - 1] == x;
      } else if own[x] == c {
        assert g[c][i] == x;
      }
    }
  }

  lemma LinkedTail(fat: seq<nat>, chain: seq<nat>)
    requires Linked(fat, chain) && |chain| > 0 && Distinct(chain)
    ensures Linked(fat, chain[1..]) && chain[0] !in chain[1..] && chain[0] < |fat| && fat[chain[0]] == Head(chain[1..])
  {
    assert LinkAt(fat, chain, 0);
    forall i | 0 <= i < |chain| - 1 ensures LinkAt(fat, chain[1..], i) {
      assert LinkAt(fat, chain, i + 1);
    }
  }

  lemma LinkedAppend(fat: seq<nat>, chain: seq<nat>, b: nat)
    requires Linked(fat, chain) && Distinct(chain) && 0 < b < |fat| && b !in chain && fat[b] == 0
    ensures chain == [] ==> Linked(fat, [b])
    ensures chain != [] ==> chain[|chain| - 1] < |fat| && Linked(fat[chain[|chain| - 1] := b], chain + [b])
  {
    if chain == [] {
      assert LinkAt(fat, [b], 0);
    } else {
      var n := |chain| - 1;
      assert LinkAt(fat, chain, n);
      var f := fat[chain[n] := b];
      forall i | 0 <= i < |chain| + 1 ensures LinkAt(f, chain + [b], i) {
        if i <= n { assert LinkAt(fat, chain, i); }
      }
    }
  }

  /** The table after the first free block went to the end of chain `c`. */
  ghost function GrownFat(fat: seq<nat>, chains: seq<seq<nat>>, c: nat): seq<nat>
    requires 0 < c <= |chains| && |chains[0]| > 0 && chains[0][0] < |fat|
    requires c < |chains| ==> |chains[c]| > 0 && chains[c][|chains[c]| - 1] < |fat|
  {
    var f := fat[chains[0][0] := 0];
    if c == |chains| then f else f[chains[c][|chains[c]| - 1] := chains[0][0]]
  }

  /** getBlock, and getBlock followed by linking the block to the end of a chain, keep all
      chains disjoint and covering. */
  lemma GrowKeeps(fat: seq<nat>, avail: nat, chains: seq<seq<nat>>, own: map<nat, nat>, c: nat)
    requires Inv(fat, avail, chains, own) && 0 < c <= |chains| && avail != 0
    requires c < |chains| ==> |chains[c]| > 0
    ensures |chains[0]| > 0 && chains[0][0] == avail && 0 < avail < |fat|
    ensures c < |chains| ==> chains[c][|chains[c]| - 1] < |fat|
    ensures Inv(GrownFat(fat, chains, c), fat[avail], Grown(chains, c), own[avail := c])
  {
    assert Linked(fat, chains[0]) && LinkAt(fat, chains[0], 0);
    assert ChainOwned(chains, own, 0);
    GrownPartition(chains, own, c);
    LinkedTail(fat, chains[0]);
    if c < |chains| {
      assert Linked(fat, chains[c]) && LinkAt(fat, chains[c], |chains[c]| - 1);
    }
    var g := Grown(chains, c);
    GrownAt(chains, c, 0);
    forall d | 0 <= d < |g| ensures Linked(GrownFat(fat, chains, c), g[d]) {
      GrowLinked(fat, chains, own, c, d);
    }
  }

  lemma GrowLinked(fat: seq<nat>, chains: seq<seq<nat>>, own: map<nat, nat>, c: nat, d: nat)
    requires Partition(chains, own) && |chains| > 0 && (forall e | 0 <= e < |chains| :: Linked(fat, chains[e]))
    requires 0 < c <= |chains| && |chains[0]| > 0 && 0 < chains[0][0] < |fat| && d < |Grown(chains, c)|
    requires c < |chains| ==> |chains[c]| > 0 && chains[c][|chains[c]| - 1] < |fat|
    ensures Linked(GrownFat(fat, chains, c), Grown(chains, c)[d])
  {
    var b := chains[0][0];
    GrownAt(chains, c, d);
    assert ChainOwned(chains, own, 0);
    var f := fat[b := 0];
    if d < |chains| && d != 0 {
      NotIn(chains, own, 0, d, b);
      LinkedElsewhere(fat, chains[d], b, 0);
    }
    if d == 0 {
      LinkedTail(fat, chains[0]);
      LinkedElsewhere(fat, chains[0][1..], b, 0);
    }
    if d == c {
      if c < |chains| { assert ChainOwned(chains, own, c); }
      LinkedAppend(f, if c == |chains| then [] else chains[c], b);
    } else if c < |chains| {
      var z := chains[c][|chains[c]| - 1];
      if d == 0 { NotIn(chains, own, c, 0, z); assert z !in chains[0][1..]; } else { NotIn(chains, own, c, d, z); }
      LinkedElsewhere(f, Grown(chains, c)[d], z, b);
    }
  }

  /** An entry of 0 marks the last block. */
  lemma EndOfChain(fat: seq<nat>, chain: seq<nat>, i: nat)
    requires Linked(fat, chain) && i < |chain|
    ensures chain[i] < |fat| && (fat[chain[i]] == 0 <==> i == |chain| - 1)
  {
    assert LinkAt(fat, chain, i);
    if i + 1 < |chain| { assert LinkAt(fat, chain, i + 1); }
  }

  // ------------------------------------------------------------------
  // Giving a whole chain back

  /** Chain `c` in front of the free chain. */
  ghost function Freed(chains: seq<seq<nat>>, c: nat): seq<seq<nat>>
    requires 0 < c < |chains|
  {
    chains[0 := chains[c] + chains[0]][c := []]
  }

  ghost function FreedOwn(own: map<nat, nat>, c: nat): map<nat, nat> {
    map b | b in own :: if own[b] == c then 0 else own[b]
  }

  lemma FreedPartition(chains: seq<seq<nat>>, own: map<nat, nat>, c: nat)
    requires Partition(chains, own) && 0 < c < |chains|
    ensures Partition(Freed(chains, c), FreedOwn(own, c))
  {
    var g, w := Freed(chains, c), FreedOwn(own, c);
    assert ChainOwned(chains, own, 0) && ChainOwned(chains, own, c);
    var both := chains[c] + chains[0];
    forall d | 0 <= d < |g| ensures ChainOwned(g, w, d) {
      assert ChainOwned(chains, own, d);
      if d == 0 {
        forall i, j | 0 <= i < j < |both| ensures both[i] != both[j] {
          if i < |chains[c]| <= j { Apart(chains, own, c, i, 0, j - |chains[c]|); }
        }
      }
    }
    forall b | b in w ensures w[b] < |g| && b in g[w[b]] {
      assert b in chains[own[b]];
      if own[b] == c || own[b] == 0 { assert b in both; }
    }
  }

  lemma LinkedJoin(fat: seq<nat>, xs: seq<nat>, ys: seq<nat>)
    requires Linked(fat, xs) && Linked(fat, ys) && |xs| > 0 && Distinct(xs) && (forall x | x in xs :: x !in ys)
    ensures xs[|xs| - 1] < |fat| && Linked(fat[xs[|xs| - 1] := Head(ys)], xs + ys)
  {
    var n := |xs| - 1;
    assert LinkAt(fat, xs, n);
    var f, zs := fat[xs[n] := Head(ys)], xs + ys;
    forall i | 0 <= i < |zs| ensures LinkAt(f, zs, i) {
      if i <= n { assert LinkAt(fat, xs, i); } else { assert LinkAt(fat, ys, i - |xs|) && xs[n] in xs && ys[i - |xs|] in ys; }
    }
  }

  /** addAvailBlk of a whole chain keeps all chains disjoint and covering. */
  lemma FreeKeeps(fat: seq<nat>, avail: nat, chains: seq<seq<nat>>, own: map<nat, nat>, c: nat)
    requires Inv(fat, avail, chains, own) && 0 < c < |chains| && |chains[c]| > 0
    ensures var z := chains[c][|chains[c]| - 1];
      z < |fat| && Inv(fat[z := avail], chains[c][0], Freed(chains, c), FreedOwn(own, c))
  {
    var g, z := Freed(chains, c), chains[c][|chains[c]| - 1];
    assert Linked(fat, chains[c]) && Linked(fat, chains[0]) && LinkAt(fat, chains[c], |chains[c]| - 1);
    assert ChainOwned(chains, own, c);
    FreedPartition(chains, own, c);
    forall x | x in chains[c] ensures x !in chains[0] { NotIn(chains, own, c, 0, x); }
    LinkedJoin(fat, chains[c], chains[0]);
    forall d | 0 <= d < |g| ensures Linked(fat[z := avail], g[d]) {
      if d != 0 && d != c {
        NotIn(chains, own, c, d, z);
        LinkedElsewhere(fat, chains[d], z, avail);
      }
    }
  }

  // ------------------------------------------------------------------
  // The allocator

  class Allocator {
    const fat: array<nat>
    var avail: nat
    ghost var chains: seq<seq<nat>>
    ghost var own: map<nat, nat>

    ghost predicate Valid()
      reads this, fat
    {
      Inv(fat[..], avail, chains, own)
    }

    constructor (table: array<nat>, first: nat, ghost cs: seq<seq<nat>>, ghost w: map<nat, nat>)
      ensures fat == table && avail == first && chains == cs && own == w
    {
      fat, avail := table, first;
      chains, own := cs, w;
    }

    /** Take the first free block; it is a chain of its own then.  0 if there is none. */
    method RemNextAvail() returns (b: nat)
      requires Valid()
      modifies this, fat
      ensures Valid()
      ensures b == 0 <==> old(chains)[0] == []
      ensures b == 0 ==> chains == old(chains) && own == old(own) && fat[..] == old(fat[..])
      ensures b != 0 ==>
        && |old(chains)[0]| > 0 && b == old(chains)[0][0] && 0 < b < fat.Length
        && chains == Grown(old(chains), |old(chains)|) && own == old(own)[b := |old(chains)|]
        && fat[..] == old(fat[..])[b := 0]
    {
      b := avail;
      assert Linked(fat[..], chains[0]);
      if |chains[0]| > 0 { assert LinkAt(fat[..], chains[0], 0); }
      if b == 0 { return; }
      GrowKeeps(fat[..], avail, chains, own, |chains|);
      avail := fat[b];
      fat[b] := 0;
      own := own[b := |chains|];
      chains := Grown(chains, |chains|);
    }

    /** Give back chain `c`, named by its first block; the walk to its end terminates. */
    method AddAvailBlk(first: nat, ghost c: nat)
      requires Valid() && 0 < c < |chains| && |chains[c]| > 0 && chains[c][0] == first
      modifies this, fat
      ensures Valid() && chains == Freed(old(chains), c) && own == FreedOwn(old(own), c)
    {
      var b := first;
      ghost var i, chain := 0, chains[c];
      assert Linked(fat[..], chain) && LinkAt(fat[..], chain, 0);
      while fat[b] != 0
        invariant 0 <= i < |chain| && b == chain[i] && b < fat.Length
        decreases |chain| - i
      {
        assert LinkAt(fat[..], chain, i);
        b := fat[b];
        i := i + 1;
        assert LinkAt(fat[..], chain, i);
      }
      EndOfChain(fat[..], chain, i);
      FreeKeeps(fat[..], avail, chains, own, c);
      fat[b] := avail;
      avail := first;
      own := FreedOwn(own, c);
      chains := Freed(chains, c);
    }
  }
}
