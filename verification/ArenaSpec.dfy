// What the static heap does, as functions on values: the arena is a sequence of
// blocks in address order together with nine sorted bins.
module ArenaSpec {
  import opened BinLists

  const NODE_SIZE := 24
  const FOOT_SIZE := 8
  const OVERHEAD := NODE_SIZE + FOOT_SIZE
  const USER_POINTER_OFFSET := 8
  const MIN_ALLOC_SZ := 4

  datatype Arena = Arena(blocks: seq<Block>, bins: seq<seq<Block>>)

  function End(b: Block): int {
    b.addr + NODE_SIZE + b.size + FOOT_SIZE
  }

  // ---------- the invariant of every reachable arena ----------

  // The blocks tile [lo, hi): each one starts where the one before it ends.
  ghost predicate Tiles(bs: seq<Block>, lo: int, hi: int) {
    if bs == [] then lo == hi
    else
      && bs[0].addr == lo
      && 0 <= bs[0].size
      && Tiles(bs[1..], End(bs[0]), hi)
  }

  // No two neighbours are both free.
  ghost predicate Coalesced(bs: seq<Block>) {
    |bs| >= 2 ==> !(bs[0].hole && bs[1].hole) && Coalesced(bs[1..])
  }

  // Bin k holds, sorted and once each, exactly the holes whose size belongs there.
  ghost predicate BinsAgree(bs: seq<Block>, bins: seq<seq<Block>>) {
    && |bins| == BIN_COUNT
    && (forall k :: 0 <= k < BIN_COUNT ==> Sorted(bins[k]) && DistinctAddrs(bins[k]))
    && (forall k, x :: 0 <= k < BIN_COUNT ==>
          (x in bins[k] <==> x in bs && x.hole && BinIndex(x.size) == k))
  }

  ghost predicate Inv(st: Arena, lo: int, hi: int) {
    && 0 < lo
    && st.blocks != []
    && Tiles(st.blocks, lo, hi)
    && Coalesced(st.blocks)
    && BinsAgree(st.blocks, st.bins)
  }

  // ---------- tiling ----------

  ghost function Reach(bs: seq<Block>, lo: int): int {
    if bs == [] then lo else Reach(bs[1..], End(bs[0]))
  }

  lemma {:induction false} TilesReach(bs: seq<Block>, lo: int, hi: int)
    requires Tiles(bs, lo, hi)
    ensures Reach(bs, lo) == hi
    ensures lo + OVERHEAD * |bs| <= hi
  {
    if bs != [] {
      TilesReach(bs[1..], End(bs[0]), hi);
    }
  }

  lemma {:induction false} TilesConcat(a: seq<Block>, b: seq<Block>, lo: int, hi: int)
    ensures Tiles(a + b, lo, hi) <==> Tiles(a, lo, Reach(a, lo)) && Tiles(b, Reach(a, lo), hi)
  {
    if a == [] {
      assert a + b == b;
    } else {
      assert (a + b)[1..] == a[1..] + b;
      TilesConcat(a[1..], b, End(a[0]), hi);
    }
  }

  lemma {:induction false} CoalescedConcat(a: seq<Block>, b: seq<Block>)
    ensures Coalesced(a + b) <==>
            Coalesced(a) && Coalesced(b) && (a != [] && b != [] ==> !(a[|a| - 1].hole && b[0].hole))
  {
    if a == [] {
      assert a + b == b;
    } else if |a| == 1 {
      assert (a + b)[1..] == b;
    } else {
      assert (a + b)[1..] == a[1..] + b;
      CoalescedConcat(a[1..], b);
    }
  }

  lemma {:induction false} TilesInside(bs: seq<Block>, lo: int, hi: int, x: Block)
    requires Tiles(bs, lo, hi)
    requires x in bs
    ensures lo <= x.addr && End(x) <= hi && 0 <= x.size
  {
    TilesReach(bs, lo, hi);
    if x == bs[0] {
      TilesReach(bs[1..], End(bs[0]), hi);
    } else {
      TilesInside(bs[1..], End(bs[0]), hi, x);
    }
  }

  // Two different blocks of a tiling do not overlap.
  lemma {:induction false} TilesDisjoint(bs: seq<Block>, lo: int, hi: int, x: Block, y: Block)
    requires Tiles(bs, lo, hi)
    requires x in bs && y in bs && x != y
    ensures End(x) <= y.addr || End(y) <= x.addr
  {
    if x == bs[0] {
      TilesInside(bs[1..], End(bs[0]), hi, y);
    } else if y == bs[0] {
      TilesInside(bs[1..], End(bs[0]), hi, x);
    } else {
      TilesDisjoint(bs[1..], End(bs[0]), hi, x, y);
    }
  }

  lemma TilesDistinct(bs: seq<Block>, lo: int, hi: int)
    requires Tiles(bs, lo, hi)
    ensures forall x, y :: x in bs && y in bs && x.addr == y.addr ==> x == y
    ensures forall i, j :: 0 <= i < j < |bs| ==> bs[i] != bs[j]
  {
    forall x, y | x in bs && y in bs && x.addr == y.addr ensures x == y {
      if x != y {
        TilesDisjoint(bs, lo, hi, x, y);
        TilesInside(bs, lo, hi, x);
        TilesInside(bs, lo, hi, y);
      }
    }
    forall i, j | 0 <= i < j < |bs| ensures bs[i] != bs[j] {
      TilesOrdered(bs, lo, hi, i, j);
    }
  }

  lemma {:induction false} TilesOrdered(bs: seq<Block>, lo: int, hi: int, i: nat, j: nat)
    requires Tiles(bs, lo, hi)
    requires i < j < |bs|
    ensures End(bs[i]) <= bs[j].addr
    ensures bs[i].addr < bs[j].addr
    ensures j == i + 1 ==> End(bs[i]) == bs[j].addr
  {
    if i == 0 {
      TilesInside(bs[1..], End(bs[0]), hi, bs[1..][j - 1]);
    } else {
      TilesOrdered(bs[1..], End(bs[0]), hi, i - 1, j - 1);
    }
  }

  // The bytes held by all blocks together: payload plus overhead.
  ghost function Footprint(bs: seq<Block>): int {
    if bs == [] then 0 else bs[0].size + OVERHEAD + Footprint(bs[1..])
  }

  lemma {:induction false} FootprintIsArena(bs: seq<Block>, lo: int, hi: int)
    requires Tiles(bs, lo, hi)
    ensures Footprint(bs) == hi - lo
  {
    if bs != [] {
      FootprintIsArena(bs[1..], End(bs[0]), hi);
    }
  }

  // ---------- the four elementary changes ----------

  function Splice(bs: seq<Block>, i: nat, n: nat, ys: seq<Block>): seq<Block>
    requires i + n <= |bs|
  {
    bs[..i] + ys + bs[i + n..]
  }

  // Unlink hole i from its bin and mark it used.
  function Take(st: Arena, i: nat): (r: Arena)
    requires i < |st.blocks| && |st.bins| == BIN_COUNT
    ensures r.blocks == st.blocks[i := st.blocks[i].(hole := false)]
    ensures |r.bins| == BIN_COUNT
  {
    var b := st.blocks[i];
    var k := BinIndex(b.size);
    Arena(Splice(st.blocks, i, 1, [b.(hole := false)]), st.bins[k := Remove(st.bins[k], b.addr)])
  }

  // Mark used block i free and link it into its bin.
  function Give(st: Arena, i: nat): (r: Arena)
    requires i < |st.blocks| && |st.bins| == BIN_COUNT
    ensures r.blocks == st.blocks[i := st.blocks[i].(hole := true)]
    ensures |r.bins| == BIN_COUNT
  {
    var b := st.blocks[i].(hole := true);
    var k := BinIndex(b.size);
    Arena(Splice(st.blocks, i, 1, [b]), st.bins[k := Insert(st.bins[k], b)])
  }

  function Front(b: Block, size: int): Block {
    Block(b.addr, size, false)
  }

  function Back(b: Block, size: int): Block {
    Block(b.addr + OVERHEAD + size, b.size - size - OVERHEAD, false)
  }

  // Cut used block i into a front part of the given size and the rest.
  function Cut(st: Arena, i: nat, size: int): Arena
    requires i < |st.blocks|
  {
    st.(blocks := Splice(st.blocks, i, 1, [Front(st.blocks[i], size), Back(st.blocks[i], size)]))
  }

  function Merged(b: Block, c: Block): Block {
    Block(b.addr, b.size + OVERHEAD + c.size, false)
  }

  // Merge used blocks i and i + 1.
  function Join(st: Arena, i: nat): Arena
    requires i + 1 < |st.blocks|
  {
    st.(blocks := Splice(st.blocks, i, 2, [Merged(st.blocks[i], st.blocks[i + 1])]))
  }

  lemma SpliceParts(bs: seq<Block>, i: nat, n: nat)
    requires i + n <= |bs|
    ensures bs == bs[..i] + (bs[i..i + n] + bs[i + n..])
  {
  }

  // Replacing a stretch of blocks by others that tile the same range keeps the tiling.
  lemma SpliceTiles(bs: seq<Block>, i: nat, n: nat, ys: seq<Block>, lo: int, hi: int)
    requires Tiles(bs, lo, hi)
    requires 1 <= n <= 2 && i + n <= |bs|
    requires Tiles(ys, bs[i].addr, End(bs[i + n - 1]))
    ensures Tiles(Splice(bs, i, n, ys), lo, hi)
  {
    var pre, mid, post := bs[..i], bs[i..i + n], bs[i + n..];
    SpliceParts(bs, i, n);
    TilesConcat(pre, mid + post, lo, hi);
    var m := Reach(pre, lo);
    TilesConcat(mid, post, m, hi);
    assert mid[0] == bs[i] && mid[|mid| - 1] == bs[i + n - 1];
    if n == 2 {
      assert mid[1..] == [mid[1]];
      assert Reach(mid[1..], End(mid[0])) == End(mid[1]);
    } else {
      assert mid[1..] == [];
    }
    assert Reach(mid, m) == End(bs[i + n - 1]);
    TilesReach(ys, m, Reach(mid, m));
    TilesConcat(ys, post, m, hi);
    TilesConcat(pre, ys + post, lo, hi);
    assert Splice(bs, i, n, ys) == pre + (ys + post);
  }

  ghost predicate UsedAt(bs: seq<Block>, i: int) {
    0 <= i < |bs| ==> !bs[i].hole
  }

  // Coalescing survives a splice as long as the new stretch is coalesced and its
  // ends do not touch a free neighbour.
  lemma SpliceCoalesced(bs: seq<Block>, i: nat, n: nat, ys: seq<Block>)
    requires Coalesced(bs)
    requires i + n <= |bs|
    requires ys != [] && Coalesced(ys)
    requires ys[0].hole ==> UsedAt(bs, i - 1)
    requires ys[|ys| - 1].hole ==> UsedAt(bs, i + n)
    ensures Coalesced(Splice(bs, i, n, ys))
  {
    var pre, mid, post := bs[..i], bs[i..i + n], bs[i + n..];
    SpliceParts(bs, i, n);
    CoalescedConcat(pre, mid + post);
    CoalescedConcat(mid, post);
    SwapMiddle(pre, ys, post);
  }

  lemma SwapMiddle(pre: seq<Block>, ys: seq<Block>, post: seq<Block>)
    requires ys != [] && Coalesced(pre) && Coalesced(ys) && Coalesced(post)
    requires pre != [] ==> !(pre[|pre| - 1].hole && ys[0].hole)
    requires post != [] ==> !(ys[|ys| - 1].hole && post[0].hole)
    ensures Coalesced(pre + ys + post)
  {
    CoalescedConcat(ys, post);
    CoalescedConcat(pre, ys + post);
    assert pre + ys + post == pre + (ys + post);
  }

  lemma CoalescedAt(bs: seq<Block>, i: nat)
    requires Coalesced(bs)
    requires i + 1 < |bs|
    ensures !(bs[i].hole && bs[i + 1].hole)
  {
    SpliceParts(bs, i, 1);
    CoalescedConcat(bs[..i], bs[i..i + 1] + bs[i + 1..]);
    CoalescedConcat(bs[i..i + 1], bs[i + 1..]);
  }

  lemma SpliceMembers(bs: seq<Block>, i: nat, n: nat, ys: seq<Block>, lo: int, hi: int)
    requires Tiles(bs, lo, hi)
    requires 1 <= n <= 2 && i + n <= |bs|
    ensures forall x :: x in Splice(bs, i, n, ys) <==>
              x in ys || (x in bs && x != bs[i] && x != bs[i + n - 1])
  {
    TilesDistinct(bs, lo, hi);
    SpliceParts(bs, i, n);
    var pre, mid, post := bs[..i], bs[i..i + n], bs[i + n..];
    assert forall x :: x in mid <==> x == bs[i] || x == bs[i + n - 1];
  }

  lemma TakeKeepsInv(st: Arena, i: nat, lo: int, hi: int)
    requires Inv(st, lo, hi)
    requires i < |st.blocks| && st.blocks[i].hole
    ensures Inv(Take(st, i), lo, hi)
  {
    var b := st.blocks[i];
    var u := b.(hole := false);
    var k := BinIndex(b.size);
    SplicedTile(st.blocks, i, u, lo, hi);
    SpliceCoalesced(st.blocks, i, 1, [u]);
    SpliceMembers(st.blocks, i, 1, [u], lo, hi);
    RemoveFacts(st.bins[k], b.addr);
    TilesDistinct(st.blocks, lo, hi);
    assert b in st.blocks;
  }

  lemma SplicedTile(bs: seq<Block>, i: nat, u: Block, lo: int, hi: int)
    requires Tiles(bs, lo, hi)
    requires i < |bs|
    requires u.addr == bs[i].addr && u.size == bs[i].size
    ensures Tiles(Splice(bs, i, 1, [u]), lo, hi)
  {
    TilesInside(bs, lo, hi, bs[i]);
    SpliceTiles(bs, i, 1, [u], lo, hi);
  }

  lemma GiveKeepsInv(st: Arena, i: nat, lo: int, hi: int)
    requires Inv(st, lo, hi)
    requires i < |st.blocks| && !st.blocks[i].hole
    requires UsedAt(st.blocks, i - 1) && UsedAt(st.blocks, i + 1)
    ensures Inv(Give(st, i), lo, hi)
  {
    var u := st.blocks[i].(hole := true);
    SplicedTile(st.blocks, i, u, lo, hi);
    SpliceCoalesced(st.blocks, i, 1, [u]);
    SpliceMembers(st.blocks, i, 1, [u], lo, hi);
    TilesDistinct(st.blocks, lo, hi);
    GiveBins(st.blocks, Give(st, i).blocks, st.bins, st.blocks[i]);
  }

  // Marking b free and inserting it keeps the bins in agreement.
  lemma GiveBins(bs: seq<Block>, bs': seq<Block>, bins: seq<seq<Block>>, b: Block)
    requires BinsAgree(bs, bins)
    requires b in bs && !b.hole
    requires forall x :: x in bs && x.addr == b.addr ==> x == b
    requires forall x :: x in bs' <==> x == b.(hole := true) || (x in bs && x != b)
    ensures BinsAgree(bs', bins[BinIndex(b.size) := Insert(bins[BinIndex(b.size)], b.(hole := true))])
  {
    InsertFacts(bins[BinIndex(b.size)], b.(hole := true));
  }

  lemma CutKeepsInv(st: Arena, i: nat, size: int, lo: int, hi: int)
    requires Inv(st, lo, hi)
    requires i < |st.blocks| && !st.blocks[i].hole
    requires 0 <= size && size + OVERHEAD <= st.blocks[i].size
    ensures Inv(Cut(st, i, size), lo, hi)
  {
    var b := st.blocks[i];
    var ys := [Front(b, size), Back(b, size)];
    TilesInside(st.blocks, lo, hi, b);
    assert ys[1..] == [Back(b, size)];
    SpliceTiles(st.blocks, i, 1, ys, lo, hi);
    SpliceCoalesced(st.blocks, i, 1, ys);
    SpliceMembers(st.blocks, i, 1, ys, lo, hi);
  }

  lemma JoinKeepsInv(st: Arena, i: nat, lo: int, hi: int)
    requires Inv(st, lo, hi)
    requires i + 1 < |st.blocks| && !st.blocks[i].hole && !st.blocks[i + 1].hole
    ensures Inv(Join(st, i), lo, hi)
  {
    var b, c := st.blocks[i], st.blocks[i + 1];
    TilesInside(st.blocks, lo, hi, b);
    TilesInside(st.blocks, lo, hi, c);
    TilesOrdered(st.blocks, lo, hi, i, i + 1);
    SpliceTiles(st.blocks, i, 2, [Merged(b, c)], lo, hi);
    SpliceCoalesced(st.blocks, i, 2, [Merged(b, c)]);
    SpliceMembers(st.blocks, i, 2, [Merged(b, c)], lo, hi);
  }
}
