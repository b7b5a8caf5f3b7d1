// The memory of a heap while an operation is under way: one block may be pending,
// used as far as the arena is concerned but with its hole word not yet written.
module HeapFrames {
  import opened Bytes
  import opened BinLists
  import opened ArenaSpec
  import opened AllocatorSpec
  import opened HeapMemory
  import opened BinOps
  import opened HeapLayout

  // Size and footer of b are in memory.
  ghost predicate BlockSized(m: seq<byte>, b: Block) {
    && Fits(m, b)
    && Load(m, b.addr + SIZE_AT, 4) == b.size
    && Load(m, b.addr + NODE_SIZE + b.size, 8) == b.addr
  }

  ghost predicate Holds(m: seq<byte>, heads: seq<int>, st: Arena, lo: int, hi: int) {
    && Inv(st, lo, hi) && Bounds(m, lo, hi)
    && (forall b :: b in st.blocks ==> BlockStored(m, b))
    && BinsLinked(m, heads, st.bins)
  }

  ghost predicate Pending(m: seq<byte>, heads: seq<int>, st: Arena, lo: int, hi: int, i: nat) {
    && Inv(st, lo, hi) && Bounds(m, lo, hi)
    && i < |st.blocks| && !st.blocks[i].hole
    && (forall b :: b in st.blocks && b != st.blocks[i] ==> BlockStored(m, b))
    && BlockSized(m, st.blocks[i])
    && BinsLinked(m, heads, st.bins)
  }

  ghost predicate SameBytes(m: seq<byte>, m': seq<byte>, a: int, e: int) {
    |m'| == |m| && forall t :: 0 <= t < |m| && a <= t < e ==> m'[t] == m[t]
  }

  // No byte of a block in use, other than b, has changed.
  ghost predicate KeepsLive(m: seq<byte>, m': seq<byte>, st: Arena, b: Block) {
    forall c :: c in LiveBlocks(st) && c != b ==> SameBytes(m, m', c.addr, End(c))
  }

  // Only bytes in [a, e) have changed.
  ghost predicate Within(m: seq<byte>, m': seq<byte>, a: int, e: int) {
    |m'| == |m| && forall t :: 0 <= t < |m| && !(a <= t < e) ==> m'[t] == m[t]
  }

  lemma SameTrans(m: seq<byte>, m1: seq<byte>, m2: seq<byte>, a: int, e: int)
    requires SameBytes(m, m1, a, e) && SameBytes(m1, m2, a, e)
    ensures SameBytes(m, m2, a, e)
  {
  }

  // ---------- header and footer under a change elsewhere ----------

  ghost predicate EdgesSame(m: seq<byte>, m': seq<byte>, b: Block) {
    SameBytes(m, m', b.addr, b.addr + NEXT_AT) && SameBytes(m, m', b.addr + NODE_SIZE + b.size, End(b))
  }

  lemma EdgesKeep(m: seq<byte>, m': seq<byte>, b: Block)
    requires EdgesSame(m, m', b)
    ensures BlockStored(m, b) ==> BlockStored(m', b)
    ensures BlockSized(m, b) ==> BlockSized(m', b)
  {
    if Fits(m, b) {
      LoadSame(m, m', b.addr, 4);
      LoadSame(m, m', b.addr + SIZE_AT, 4);
      LoadSame(m, m', b.addr + NODE_SIZE + b.size, 8);
    }
  }

  // Relinking nodes that are b itself or lie clear of it.
  lemma LinksKeepEdges(m: seq<byte>, m': seq<byte>, r: seq<Block>, b: Block)
    requires OnlyLinks(m, m', r)
    requires 0 <= b.size
    requires forall x :: x in r ==> x.addr == b.addr || End(b) <= x.addr || x.addr + NODE_SIZE <= b.addr
    ensures EdgesSame(m, m', b)
  {
  }

  lemma LinksKeepBytes(m: seq<byte>, m': seq<byte>, r: seq<Block>, b: Block)
    requires OnlyLinks(m, m', r)
    requires forall x :: x in r ==> End(b) <= x.addr || x.addr + NODE_SIZE <= b.addr
    ensures SameBytes(m, m', b.addr, End(b))
  {
  }

  // ---------- relinking one bin of a whole arena ----------

  // Some free block of bs starts at a.
  ghost predicate HoleAt(bs: seq<Block>, a: int) {
    exists y :: y in bs && y.hole && y.addr == a
  }

  // Relinking holes touches no header or footer and no block in use.
  lemma RelinkFrame(m: seq<byte>, m': seq<byte>, bs: seq<Block>, lo: int, hi: int, r: seq<Block>)
    requires Tiles(bs, lo, hi)
    requires OnlyLinks(m, m', r)
    requires forall x :: x in r ==> HoleAt(bs, x.addr)
    ensures forall c :: c in bs ==> EdgesSame(m, m', c)
    ensures forall c :: c in bs && !c.hole ==> SameBytes(m, m', c.addr, End(c))
  {
    forall c | c in bs ensures EdgesSame(m, m', c) {
      TilesInside(bs, lo, hi, c);
      forall x | x in r ensures x.addr == c.addr || End(c) <= x.addr || x.addr + NODE_SIZE <= c.addr {
        RelinkApart(bs, lo, hi, c, x);
      }
      LinksKeepEdges(m, m', r, c);
    }
    forall c | c in bs && !c.hole ensures SameBytes(m, m', c.addr, End(c)) {
      forall x | x in r ensures End(c) <= x.addr || x.addr + NODE_SIZE <= c.addr {
        RelinkApart(bs, lo, hi, c, x);
      }
      LinksKeepBytes(m, m', r, c);
    }
  }

  lemma RelinkApart(bs: seq<Block>, lo: int, hi: int, c: Block, x: Block)
    requires Tiles(bs, lo, hi)
    requires c in bs && HoleAt(bs, x.addr)
    ensures (c.hole && c.addr == x.addr) || End(c) <= x.addr || x.addr + NODE_SIZE <= c.addr
  {
    var y :| y in bs && y.hole && y.addr == x.addr;
    if c != y {
      BlocksApart(bs, lo, hi, c, y);
      TilesInside(bs, lo, hi, y);
    }
  }

  // ---------- joining two blocks in memory ----------

  lemma JoinedElsewhere(st: Arena, lo: int, hi: int, i: nat, c: Block)
    requires Inv(st, lo, hi)
    requires i + 1 < |st.blocks|
    requires c in st.blocks && c != st.blocks[i] && c != st.blocks[i + 1]
    ensures End(c) <= st.blocks[i].addr || End(st.blocks[i + 1]) <= c.addr
  {
    var b, d := st.blocks[i], st.blocks[i + 1];
    BlocksApart(st.blocks, lo, hi, c, b);
    BlocksApart(st.blocks, lo, hi, c, d);
    TilesOrdered(st.blocks, lo, hi, i, i + 1);
    TilesInside(st.blocks, lo, hi, c);
  }

  // Writing the size and the footer of the merged block, and whatever lies in
  // between, joins used blocks i and i + 1.
  lemma JoinInMemory(m: seq<byte>, m': seq<byte>, heads: seq<int>, st: Arena, lo: int, hi: int, i: nat)
    requires Inv(st, lo, hi) && Bounds(m, lo, hi)
    requires i + 1 < |st.blocks| && !st.blocks[i].hole && !st.blocks[i + 1].hole
    requires forall c :: c in st.blocks && c != st.blocks[i] && c != st.blocks[i + 1] ==> BlockStored(m, c)
    requires BinsLinked(m, heads, st.bins)
    requires Within(m, m', st.blocks[i].addr, End(st.blocks[i + 1]))
    requires BlockSized(m', Merged(st.blocks[i], st.blocks[i + 1]))
    ensures Pending(m', heads, Join(st, i), lo, hi, i)
    ensures KeepsLiveBut(m, m', st, st.blocks[i], st.blocks[i + 1])
  {
    var b, d := st.blocks[i], st.blocks[i + 1];
    JoinKeepsInv(st, i, lo, hi);
    SpliceMembers(st.blocks, i, 2, [Merged(b, d)], lo, hi);
    forall c | c in st.blocks && c != b && c != d ensures BlockStored(m', c) && SameBytes(m, m', c.addr, End(c)) {
      JoinedElsewhere(st, lo, hi, i, c);
      TilesInside(st.blocks, lo, hi, c);
      EdgesKeep(m, m', c);
    }
    forall x | InBins(st.bins, x) ensures NodeUntouched(m, m', x) {
      InBinsIsHole(st, x);
      JoinedElsewhere(st, lo, hi, i, x);
      TilesInside(st.blocks, lo, hi, x);
    }
    BinsUntouched(m, m', heads, st.bins);
  }

  // ---------- unlinking a hole in memory ----------

  // Everything but blocks i and j is as the arena says.
  ghost predicate StoredBut(m: seq<byte>, st: Arena, i: nat, j: nat)
    requires i < |st.blocks| && j < |st.blocks|
  {
    forall c :: c in st.blocks && c != st.blocks[i] && c != st.blocks[j] ==> BlockStored(m, c)
  }

  lemma StoredButKeeps(m: seq<byte>, m': seq<byte>, st: Arena, i: nat, j: nat)
    requires i < |st.blocks| && j < |st.blocks|
    requires StoredBut(m, st, i, j)
    requires forall c :: c in st.blocks ==> EdgesSame(m, m', c)
    ensures StoredBut(m', st, i, j)
  {
    forall c | c in st.blocks && c != st.blocks[i] && c != st.blocks[j] ensures BlockStored(m', c) {
      EdgesKeep(m, m', c);
    }
  }

  lemma StoredButTake(m: seq<byte>, st: Arena, lo: int, hi: int, h: nat, i: nat)
    requires Inv(st, lo, hi)
    requires h < |st.blocks| && i < |st.blocks|
    requires StoredBut(m, st, h, i)
    ensures StoredBut(m, Take(st, h), h, i)
  {
    var u := st.blocks[h].(hole := false);
    SpliceMembers(st.blocks, h, 1, [u], lo, hi);
    forall c | c in Take(st, h).blocks && c != u && c != Take(st, h).blocks[i] ensures BlockStored(m, c) {
      assert c in st.blocks && c != st.blocks[h];
      assert i != h ==> c != st.blocks[i];
    }
  }

  // What unlinking a hole leaves in memory for everybody else.
  lemma TakeInMemory(m: seq<byte>, m': seq<byte>, st: Arena, lo: int, hi: int, h: nat, i: nat)
    requires Inv(st, lo, hi)
    requires h < |st.blocks| && i < |st.blocks|
    requires forall c :: c in st.blocks ==> EdgesSame(m, m', c)
    requires StoredBut(m, st, h, i)
    requires BlockSized(m, st.blocks[h]) && BlockSized(m, st.blocks[i])
    ensures StoredBut(m', Take(st, h), h, i)
    ensures BlockSized(m', st.blocks[h]) && BlockSized(m', st.blocks[i])
  {
    StoredButKeeps(m, m', st, h, i);
    StoredButTake(m', st, lo, hi, h, i);
    EdgesKeep(m, m', st.blocks[h]);
    EdgesKeep(m, m', st.blocks[i]);
  }

  // Blocks i and j are both pending.
  ghost predicate TwoPending(m: seq<byte>, heads: seq<int>, st: Arena, lo: int, hi: int, i: nat, j: nat) {
    && Inv(st, lo, hi) && Bounds(m, lo, hi)
    && i < |st.blocks| && j < |st.blocks| && !st.blocks[i].hole && !st.blocks[j].hole
    && StoredBut(m, st, i, j)
    && BlockSized(m, st.blocks[i]) && BlockSized(m, st.blocks[j])
    && BinsLinked(m, heads, st.bins)
  }

  lemma TwoPendingSwap(m: seq<byte>, heads: seq<int>, st: Arena, lo: int, hi: int, i: nat, j: nat)
    requires TwoPending(m, heads, st, lo, hi, i, j)
    ensures TwoPending(m, heads, st, lo, hi, j, i)
  {
  }

  // No byte of a block in use, other than b and d, has changed.
  ghost predicate KeepsLiveBut(m: seq<byte>, m': seq<byte>, st: Arena, b: Block, d: Block) {
    forall c :: c in LiveBlocks(st) && c != b && c != d ==> SameBytes(m, m', c.addr, End(c))
  }

  // First hole h is taken, then it is joined with used block b.
  lemma KeepsLiveTrans(m: seq<byte>, m1: seq<byte>, m2: seq<byte>, st: Arena, st1: Arena, u: Block, b: Block)
    requires LiveSame(m, m1, st)
    requires u !in LiveBlocks(st) && LiveBlocks(st1) == LiveBlocks(st) + {u}
    requires KeepsLiveBut(m1, m2, st1, u, b)
    ensures KeepsLive(m, m2, st, b)
  {
    forall c | c in LiveBlocks(st) && c != b ensures SameBytes(m, m2, c.addr, End(c)) {
      SameTrans(m, m1, m2, c.addr, End(c));
    }
  }

  ghost predicate LiveSame(m: seq<byte>, m': seq<byte>, st: Arena) {
    forall c :: c in LiveBlocks(st) ==> SameBytes(m, m', c.addr, End(c))
  }

  // Block i is pending and hole h is stored, all others are stored.
  ghost predicate CanTake(m: seq<byte>, heads: seq<int>, st: Arena, lo: int, hi: int, h: nat, i: nat) {
    && Inv(st, lo, hi) && Bounds(m, lo, hi)
    && h < |st.blocks| && st.blocks[h].hole
    && i < |st.blocks| && !st.blocks[i].hole
    && StoredBut(m, st, h, i)
    && BlockSized(m, st.blocks[h]) && BlockSized(m, st.blocks[i])
    && BinsLinked(m, heads, st.bins)
  }

  lemma TakeTwoPending(m: seq<byte>, m': seq<byte>, heads: seq<int>, heads': seq<int>, st: Arena,
                       lo: int, hi: int, h: nat, i: nat)
    requires CanTake(m, heads, st, lo, hi, h, i)
    requires OnlyLinks(m, m', st.bins[BinIndex(st.blocks[h].size)])
    requires BinsLinked(m', heads', Take(st, h).bins)
    ensures TwoPending(m', heads', Take(st, h), lo, hi, h, i)
    ensures LiveSame(m, m', st)
  {
    hide StoredBut, BinsLinked, SameBytes, Coalesced, Tiles, BinIndex;
    RelinkFrame(m, m', st.blocks, lo, hi, st.bins[BinIndex(st.blocks[h].size)]);
    TakeInMemory(m, m', st, lo, hi, h, i);
    TakeKeepsInv(st, h, lo, hi);
  }

  lemma PendingCanTake(m: seq<byte>, heads: seq<int>, st: Arena, lo: int, hi: int, h: nat, i: nat)
    requires Pending(m, heads, st, lo, hi, i)
    requires h < |st.blocks| && st.blocks[h].hole
    ensures CanTake(m, heads, st, lo, hi, h, i)
  {
    assert st.blocks[h] in st.blocks;
  }

  lemma CanTakeBin(m: seq<byte>, heads: seq<int>, st: Arena, lo: int, hi: int, h: nat, i: nat)
    requires CanTake(m, heads, st, lo, hi, h, i)
    ensures var k := BinIndex(st.blocks[h].size);
            IndexOf(st.bins[k], st.blocks[h].addr) < |st.bins[k]|
    ensures GoodLists(m, st.bins)
  {
    ArenaGoodLists(m, st, lo, hi);
    assert st.blocks[h] in st.bins[BinIndex(st.blocks[h].size)];
  }

  // ---------- giving a block back ----------

  // Everything is stored once the hole word of the pending block has been set.
  lemma HoleWordSet(m: seq<byte>, m': seq<byte>, heads: seq<int>, st: Arena, lo: int, hi: int, i: nat)
    requires Pending(m, heads, st, lo, hi, i)
    requires UsedAt(st.blocks, i - 1) && UsedAt(st.blocks, i + 1)
    requires Wrote(m, m', st.blocks[i].addr, 4, Word(true))
    ensures Inv(Give(st, i), lo, hi)
    ensures forall c :: c in Give(st, i).blocks ==> BlockStored(m', c)
    ensures BinsLinked(m', heads, st.bins)
    ensures forall x :: InBins(st.bins, x) ==> Apart(x, st.blocks[i].(hole := true))
    ensures KeepsLive(m, m', st, st.blocks[i])
  {
    var b := st.blocks[i];
    GiveKeepsInv(st, i, lo, hi);
    SpliceMembers(st.blocks, i, 1, [b.(hole := true)], lo, hi);
    forall c | c in st.blocks && c != b ensures EdgesSame(m, m', c) && Apart(c, b) {
      BlocksApart(st.blocks, lo, hi, c, b);
      TilesInside(st.blocks, lo, hi, c);
      TilesInside(st.blocks, lo, hi, b);
    }
    forall c | c in st.blocks && c != b ensures BlockStored(m', c) {
      EdgesKeep(m, m', c);
    }
    forall c | c in LiveBlocks(st) && c != b ensures SameBytes(m, m', c.addr, End(c)) {
      BlocksApart(st.blocks, lo, hi, c, b);
      TilesInside(st.blocks, lo, hi, b);
    }
    forall x | InBins(st.bins, x) ensures NodeUntouched(m, m', x) && Apart(x, b) {
      InBinsIsHole(st, x);
    }
    BinsUntouched(m, m', heads, st.bins);
  }

  // Linking the block then completes the arena.
  lemma GiveInMemory(m: seq<byte>, m': seq<byte>, heads': seq<int>, st: Arena, lo: int, hi: int, i: nat)
    requires Inv(st, lo, hi) && Bounds(m, lo, hi)
    requires i < |st.blocks| && !st.blocks[i].hole
    requires Inv(Give(st, i), lo, hi)
    requires forall c :: c in Give(st, i).blocks ==> BlockStored(m, c)
    requires OnlyLinks(m, m', st.bins[BinIndex(st.blocks[i].size)] + [st.blocks[i].(hole := true)])
    requires BinsLinked(m', heads', Give(st, i).bins)
    ensures Holds(m', heads', Give(st, i), lo, hi)
    ensures KeepsLive(m, m', st, st.blocks[i])
  {
    var g, b := Give(st, i), st.blocks[i];
    var u := b.(hole := true);
    var r := st.bins[BinIndex(b.size)] + [u];
    SpliceMembers(st.blocks, i, 1, [u], lo, hi);
    RelinkFrame(m, m', g.blocks, lo, hi, r);
    forall c | c in g.blocks ensures BlockStored(m', c) {
      EdgesKeep(m, m', c);
    }
    GiveLive(st, lo, hi, i);
  }

  lemma KeepsLiveChain(m: seq<byte>, m1: seq<byte>, m2: seq<byte>, st: Arena, st1: Arena, b: Block, b1: Block)
    requires KeepsLive(m, m1, st, b)
    requires LiveBlocks(st1) - {b1} == LiveBlocks(st) - {b}
    requires KeepsLive(m1, m2, st1, b1)
    ensures KeepsLive(m, m2, st, b)
  {
    forall c | c in LiveBlocks(st) && c != b ensures SameBytes(m, m2, c.addr, End(c)) {
      assert c in LiveBlocks(st1) - {b1};
      SameTrans(m, m1, m2, c.addr, End(c));
    }
  }
}
