// Handing out a hole: cutting it in two in memory, unlinking the front.
module HeapGrant {
  import opened Bytes
  import opened BinLists
  import opened ArenaSpec
  import opened AllocatorSpec
  import opened HeapMemory
  import opened BinOps
  import opened HeapLayout
  import opened HeapFrames

  // Memory holds the blocks bs and the linked bins lists; hole i is linked in bin k.
  // Between the cut and the unlinking the bins are not those of any arena: two
  // neighbours are free and the front is in the bin of its former size.
  ghost predicate Grantable(m: seq<byte>, heads: seq<int>, bs: seq<Block>, lists: seq<seq<Block>>,
                            lo: int, hi: int, i: nat, k: nat) {
    && 0 < lo && Tiles(bs, lo, hi) && Bounds(m, lo, hi)
    && (forall c :: c in bs ==> BlockStored(m, c))
    && BinsLinked(m, heads, lists) && GoodLists(m, lists)
    && (forall x :: InBins(lists, x) ==> HoleAt(bs, x.addr))
    && i < |bs| && bs[i].hole && k < BIN_COUNT
    && IndexOf(lists[k], bs[i].addr) < |lists[k]|
  }

  function Used(b: Block): Block {
    b.(hole := false)
  }

  lemma HoldsGrantable(m: seq<byte>, heads: seq<int>, st: Arena, lo: int, hi: int, i: nat)
    requires Holds(m, heads, st, lo, hi)
    requires i < |st.blocks| && st.blocks[i].hole
    ensures Grantable(m, heads, st.blocks, st.bins, lo, hi, i, BinIndex(st.blocks[i].size))
  {
    ArenaGoodLists(m, st, lo, hi);
    assert st.blocks[i] in st.bins[BinIndex(st.blocks[i].size)];
    forall x | InBins(st.bins, x) ensures HoleAt(st.blocks, x.addr) {
      InBinsIsHole(st, x);
    }
  }

  // The node of block i is apart from every node that remains when it is unlinked.
  lemma RemainingApart(m: seq<byte>, lists: seq<seq<Block>>, k: nat, b: Block, x: Block)
    requires GoodLists(m, lists) && k < BIN_COUNT
    requires IndexOf(lists[k], b.addr) < |lists[k]|
    requires InBins(lists[k := Remove(lists[k], b.addr)], x)
    ensures Apart(x, b)
    ensures InBins(lists, x)
  {
    var l := lists[k];
    var q := IndexOf(l, b.addr);
    var lists' := lists[k := Remove(l, b.addr)];
    var j :| 0 <= j < |lists'| && x in lists'[j];
    assert l[q] in l;
    if j == k {
      RemoveAtIndex(l, b.addr);
      var t :| 0 <= t < |Remove(l, b.addr)| && Remove(l, b.addr)[t] == x;
      var s := if t < q then t else t + 1;
      assert l[s] == x && x in lists[k];
      assert Apart(l[s], l[q]);
    } else {
      assert x in lists[j];
      assert Apart(x, l[q]);
    }
  }

  // Setting the hole word of block i.
  lemma MarkUsed(m: seq<byte>, m': seq<byte>, heads: seq<int>, bs: seq<Block>, lists: seq<seq<Block>>,
                 lo: int, hi: int, i: nat, k: nat)
    requires Grantable(m, heads, bs, lists, lo, hi, i, k)
    requires Wrote(m, m', bs[i].addr, 4, Word(false))
    ensures forall c :: c in bs && c != bs[i] ==> BlockStored(m', c)
    ensures BlockStored(m', Used(bs[i]))
    ensures BinsLinked(m', heads, lists)
    ensures forall c :: c in bs && !c.hole ==> SameBytes(m, m', c.addr, End(c))
  {
    var b := bs[i];
    assert b in bs && BlockStored(m, b);
    MarkStored(m, m', b);
    hide BlockStored, Wrote, SameBytes, BinsLinked, NodeUntouched, Tiles;
    forall c | c in bs && c != b ensures SameBytes(m, m', c.addr, End(c)) && BlockStored(m', c) {
      MarkElsewhere(m, m', bs, lo, hi, b, c);
    }
    forall x | InBins(lists, x) ensures NodeUntouched(m, m', x) {
      MarkUntouched(m, m', bs, lo, hi, b, x);
    }
    BinsUntouched(m, m', heads, lists);
  }

  lemma MarkStored(m: seq<byte>, m': seq<byte>, b: Block)
    requires BlockStored(m, b) && Wrote(m, m', b.addr, 4, Word(false))
    ensures BlockStored(m', Used(b))
  {
    LoadSame(m, m', b.addr + SIZE_AT, 4);
    LoadSame(m, m', b.addr + NODE_SIZE + b.size, 8);
  }

  lemma MarkElsewhere(m: seq<byte>, m': seq<byte>, bs: seq<Block>, lo: int, hi: int, b: Block, c: Block)
    requires Tiles(bs, lo, hi) && b in bs && c in bs && c != b && Bounds(m, lo, hi)
    requires BlockStored(m, c) && Wrote(m, m', b.addr, 4, Word(false))
    ensures SameBytes(m, m', c.addr, End(c)) && BlockStored(m', c)
  {
    BlocksApart(bs, lo, hi, c, b);
    TilesInside(bs, lo, hi, b);
    TilesInside(bs, lo, hi, c);
    EdgesKeep(m, m', c);
  }

  lemma MarkUntouched(m: seq<byte>, m': seq<byte>, bs: seq<Block>, lo: int, hi: int, b: Block, x: Block)
    requires Tiles(bs, lo, hi) && b in bs && HoleAt(bs, x.addr)
    requires Wrote(m, m', b.addr, 4, Word(false))
    ensures NodeUntouched(m, m', x)
  {
    var y :| y in bs && y.hole && y.addr == x.addr;
    if y != b {
      BlocksApart(bs, lo, hi, y, b);
    }
  }

  // Resetting the links of the unlinked node leaves the remaining bins linked.
  lemma ResetUntouched(m: seq<byte>, m': seq<byte>, heads: seq<int>, lists: seq<seq<Block>>, b: Block)
    requires BinsLinked(m, heads, lists)
    requires Within(m, m', b.addr + NEXT_AT, b.addr + NODE_SIZE)
    requires forall x :: InBins(lists, x) ==> Apart(x, b)
    ensures BinsLinked(m', heads, lists)
  {
    forall x | InBins(lists, x) ensures NodeUntouched(m, m', x) {
      assert Apart(x, b);
    }
    BinsUntouched(m, m', heads, lists);
  }

  // Resetting the links of block i touches no header, no footer and no other block.
  lemma ResetBlocks(m: seq<byte>, m': seq<byte>, bs: seq<Block>, lo: int, hi: int, b: Block)
    requires Tiles(bs, lo, hi) && b in bs
    requires Within(m, m', b.addr + NEXT_AT, b.addr + NODE_SIZE)
    ensures forall c :: c in bs ==> EdgesSame(m, m', c)
    ensures forall c :: c in bs && c != b ==> SameBytes(m, m', c.addr, End(c))
  {
    forall c | c in bs ensures EdgesSame(m, m', c) && (c != b ==> SameBytes(m, m', c.addr, End(c))) {
      TilesInside(bs, lo, hi, b);
      TilesInside(bs, lo, hi, c);
      if c != b {
        BlocksApart(bs, lo, hi, c, b);
      }
    }
  }

  // Unlinking and resetting touch the edges of no block.
  lemma UnlinkedEdges(m1: seq<byte>, m2: seq<byte>, m3: seq<byte>, bs: seq<Block>, lo: int, hi: int,
                      r: seq<Block>, b: Block)
    requires Tiles(bs, lo, hi) && b in bs && b.hole
    requires OnlyLinks(m1, m2, r) && forall x :: x in r ==> HoleAt(bs, x.addr)
    requires Within(m2, m3, b.addr + NEXT_AT, b.addr + NODE_SIZE)
    ensures forall c :: c in bs ==> EdgesSame(m1, m3, c)
    ensures forall c :: c in bs && !c.hole ==> SameBytes(m1, m3, c.addr, End(c))
  {
    RelinkFrame(m1, m2, bs, lo, hi, r);
    ResetBlocks(m2, m3, bs, lo, hi, b);
    forall c | c in bs ensures EdgesSame(m1, m3, c) {
      assert EdgesSame(m1, m2, c) && EdgesSame(m2, m3, c);
    }
    forall c | c in bs && !c.hole ensures SameBytes(m1, m3, c.addr, End(c)) {
      SameTrans(m1, m2, m3, c.addr, End(c));
    }
  }

  // The effect of the four steps together: mark, unlink (links of bin k only), reset.
  lemma GrantedInMemory(m: seq<byte>, m1: seq<byte>, m2: seq<byte>, m3: seq<byte>, heads: seq<int>,
                        bs: seq<Block>, lists: seq<seq<Block>>, lo: int, hi: int, i: nat, k: nat)
    requires Grantable(m, heads, bs, lists, lo, hi, i, k)
    requires Wrote(m, m1, bs[i].addr, 4, Word(false))
    requires OnlyLinks(m1, m2, lists[k])
    requires Within(m2, m3, bs[i].addr + NEXT_AT, bs[i].addr + NODE_SIZE)
    ensures forall c :: c in bs && c != bs[i] ==> BlockStored(m3, c)
    ensures BlockStored(m3, Used(bs[i]))
    ensures forall c :: c in bs && !c.hole ==> SameBytes(m, m3, c.addr, End(c))
  {
    var b := bs[i];
    assert b in bs;
    MarkUsed(m, m1, heads, bs, lists, lo, hi, i, k);
    assert forall x :: x in lists[k] ==> InBins(lists, x);
    UnlinkedEdges(m1, m2, m3, bs, lo, hi, lists[k], b);
    forall c | c in bs && c != b ensures BlockStored(m3, c) {
      EdgesKeep(m1, m3, c);
    }
    assert EdgesSame(m1, m3, Used(b)) by {
      assert EdgesSame(m1, m3, b);
    }
    EdgesKeep(m1, m3, Used(b));
    forall c | c in bs && !c.hole ensures SameBytes(m, m3, c.addr, End(c)) {
      SameTrans(m, m1, m3, c.addr, End(c));
    }
  }

  // ---------- cutting hole i in memory ----------

  function FreeFront(b: Block, size: int): Block {
    Front(b, size).(hole := true)
  }

  function FreeBack(b: Block, size: int): Block {
    Back(b, size).(hole := true)
  }

  // The bin of hole b with b's entry shrunk to the new size.
  function Resized(l: seq<Block>, a: int, size: int): (r: seq<Block>)
    ensures |r| == |l|
    ensures forall j :: 0 <= j < |l| ==> r[j] == if l[j].addr == a then l[j].(size := size) else l[j]
  {
    if l == [] then [] else [if l[0].addr == a then l[0].(size := size) else l[0]] + Resized(l[1..], a, size)
  }

  lemma {:induction false} ResizedIndex(l: seq<Block>, a: int, size: int)
    ensures IndexOf(Resized(l, a, size), a) == IndexOf(l, a)
  {
    if l != [] && l[0].addr != a {
      ResizedIndex(l[1..], a, size);
    }
  }

  lemma {:induction false} ResizedRemove(l: seq<Block>, a: int, size: int)
    requires DistinctAddrs(l)
    ensures Remove(Resized(l, a, size), a) == Remove(l, a)
  {
    if l != [] {
      var t := l[1..];
      ResizedRemove(t, a, size);
      if l[0].addr == a {
        assert Resized(l, a, size)[1..] == Resized(t, a, size);
        assert forall j :: 0 <= j < |t| ==> t[j].addr != a;
        assert Resized(t, a, size) == t;
      }
    }
  }

  // Writing a new header and footer into the tail of hole b.
  lemma CutTail(m: seq<byte>, m1: seq<byte>, m2: seq<byte>, m3: seq<byte>, b: Block, size: int)
    requires BlockStored(m, b) && 0 <= size && size + OVERHEAD <= b.size
    requires Wrote(m, m1, Back(b, size).addr + SIZE_AT, 4, Back(b, size).size)
    requires Wrote(m1, m2, Back(b, size).addr, 4, Word(true))
    requires Wrote(m2, m3, End(b) - FOOT_SIZE, 8, Back(b, size).addr)
    ensures BlockStored(m3, FreeBack(b, size))
    ensures Load(m3, b.addr, 4) == Word(b.hole)
    ensures Within(m, m3, b.addr + NODE_SIZE, End(b))
  {
  }

  // Shrinking the size of hole b and giving it a footer of its own.
  lemma CutHead(m: seq<byte>, m1: seq<byte>, m2: seq<byte>, b: Block, size: int)
    requires Fits(m, b) && 0 <= size && size + OVERHEAD <= b.size
    requires Load(m, b.addr, 4) == Word(true)
    requires BlockStored(m, FreeBack(b, size))
    requires Wrote(m, m1, b.addr + SIZE_AT, 4, size)
    requires Wrote(m1, m2, b.addr + NODE_SIZE + size, 8, b.addr)
    ensures BlockStored(m2, FreeFront(b, size)) && BlockStored(m2, FreeBack(b, size))
    ensures Within(m, m2, b.addr, End(b))
  {
  }
}
