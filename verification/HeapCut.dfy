// The state between cutting a hole in two and unlinking its front.
module HeapCut {
  import opened Bytes
  import opened BinLists
  import opened ArenaSpec
  import opened AllocatorSpec
  import opened HeapMemory
  import opened BinOps
  import opened HeapLayout
  import opened HeapFrames
  import opened HeapGrant

  // ---------- bins whose entries sit on holes of a tiling ----------

  // Every entry of every bin fits, sits on a hole of bs, and is in the bin that
  // owns its address.
  ghost predicate Placed(m: seq<byte>, bs: seq<Block>, lists: seq<seq<Block>>, owner: map<int, int>) {
    && |lists| == BIN_COUNT
    && (forall k :: 0 <= k < BIN_COUNT ==> DistinctAddrs(lists[k]))
    && (forall k, x :: 0 <= k < BIN_COUNT && x in lists[k] ==> EntryPlaced(m, bs, owner, k, x))
  }

  ghost predicate EntryPlaced(m: seq<byte>, bs: seq<Block>, owner: map<int, int>, k: int, x: Block) {
    Fits(m, x) && HoleAt(bs, x.addr) && x.addr in owner && owner[x.addr] == k
  }

  lemma HolesApart(bs: seq<Block>, lo: int, hi: int, x: Block, y: Block)
    requires Tiles(bs, lo, hi)
    requires HoleAt(bs, x.addr) && HoleAt(bs, y.addr) && x.addr != y.addr
    ensures Apart(x, y)
  {
    var p :| p in bs && p.hole && p.addr == x.addr;
    var q :| q in bs && q.hole && q.addr == y.addr;
    BlocksApart(bs, lo, hi, p, q);
  }

  lemma PlacedGood(m: seq<byte>, bs: seq<Block>, lists: seq<seq<Block>>, owner: map<int, int>, lo: int, hi: int)
    requires Tiles(bs, lo, hi) && |m| <= ADDRESS_LIMIT
    requires Placed(m, bs, lists, owner)
    ensures GoodLists(m, lists)
  {
    forall k | 0 <= k < BIN_COUNT ensures GoodNodes(m, lists[k]) {
      var l := lists[k];
      forall x | x in l ensures Fits(m, x) {
        assert EntryPlaced(m, bs, owner, k, x);
      }
      forall i, j | 0 <= i < j < |l| ensures Apart(l[i], l[j]) {
        assert EntryPlaced(m, bs, owner, k, l[i]) && EntryPlaced(m, bs, owner, k, l[j]);
        HolesApart(bs, lo, hi, l[i], l[j]);
      }
    }
    forall i, j, x, y | 0 <= i < BIN_COUNT && 0 <= j < BIN_COUNT && i != j && x in lists[i] && y in lists[j]
      ensures Apart(x, y)
    {
      assert EntryPlaced(m, bs, owner, i, x) && EntryPlaced(m, bs, owner, j, y);
      HolesApart(bs, lo, hi, x, y);
    }
  }

  // The bin that owns each hole of an arena.
  ghost function Owner(st: Arena, lo: int, hi: int): map<int, int>
    requires Inv(st, lo, hi)
  {
    TilesDistinct(st.blocks, lo, hi);
    map b | b in st.blocks && b.hole :: b.addr := BinIndex(b.size)
  }

  lemma ArenaPlaced(m: seq<byte>, st: Arena, lo: int, hi: int)
    requires Inv(st, lo, hi) && Bounds(m, lo, hi)
    ensures Placed(m, st.blocks, st.bins, Owner(st, lo, hi))
  {
    var owner := Owner(st, lo, hi);
    TilesDistinct(st.blocks, lo, hi);
    forall k, x | 0 <= k < BIN_COUNT && x in st.bins[k] ensures EntryPlaced(m, st.blocks, owner, k, x) {
      ArenaFits(m, st, lo, hi, x);
    }
  }

  lemma PlacedInsert(m: seq<byte>, bs: seq<Block>, bs': seq<Block>, lists: seq<seq<Block>>, owner: map<int, int>,
                     k: nat, b: Block)
    requires Placed(m, bs, lists, owner) && k < BIN_COUNT && Sorted(lists[k])
    requires Fits(m, b) && HoleAt(bs', b.addr)
    requires forall x :: InBins(lists, x) ==> x.addr != b.addr
    requires forall a :: HoleAt(bs, a) ==> HoleAt(bs', a)
    ensures Placed(m, bs', lists[k := Insert(lists[k], b)], owner[b.addr := k])
  {
    var r, owner' := lists[k := Insert(lists[k], b)], owner[b.addr := k];
    assert forall x :: x in lists[k] ==> InBins(lists, x);
    InsertFacts(lists[k], b);
    forall i, x | 0 <= i < BIN_COUNT && x in r[i] ensures EntryPlaced(m, bs', owner', i, x) {
      if x in lists[i] {
        assert EntryPlaced(m, bs, owner, i, x) && InBins(lists, x);
      }
    }
  }

  lemma {:induction false} ResizedMember(l: seq<Block>, a: int, size: int, x: Block) returns (y: Block)
    requires x in Resized(l, a, size)
    ensures y in l && y.addr == x.addr && x.size == (if y.addr == a then size else y.size)
  {
    var j :| 0 <= j < |l| && Resized(l, a, size)[j] == x;
    y := l[j];
  }

  lemma PlacedResize(m: seq<byte>, bs: seq<Block>, lists: seq<seq<Block>>, owner: map<int, int>, k: nat, a: int,
      size: int)
    requires Placed(m, bs, lists, owner) && k < BIN_COUNT
    requires 0 <= size
    requires forall x :: x in lists[k] && x.addr == a ==> size <= x.size
    ensures Placed(m, bs, lists[k := Resized(lists[k], a, size)], owner)
  {
    var r := lists[k := Resized(lists[k], a, size)];
    forall i, x | 0 <= i < BIN_COUNT && x in r[i] ensures EntryPlaced(m, bs, owner, i, x) {
      if i == k {
        var y := ResizedMember(lists[k], a, size, x);
        assert EntryPlaced(m, bs, owner, k, y);
      }
    }
  }

  // ---------- shrinking a linked node ----------

  lemma ResizedLinked(m: seq<byte>, m': seq<byte>, head: int, l: seq<Block>, a: int, size: int)
    requires Linked(m, head, l) && 0 <= size
    requires forall x :: x in l && x.addr != a ==> NodeUntouched(m, m', x)
    requires forall x :: x in l && x.addr == a ==>
               size <= x.size && Fits(m', x) && Load(m', a + SIZE_AT, 4) == size
               && SameBytes(m, m', a + NEXT_AT, a + NODE_SIZE)
    ensures Linked(m', head, Resized(l, a, size))
  {
    var r := Resized(l, a, size);
    forall j | 0 <= j < |r| ensures NodeLinked(m', r, j) {
      assert l[j] in l;
      NodeResized(m, m', l, a, size, j);
    }
  }

  lemma NodeResized(m: seq<byte>, m': seq<byte>, l: seq<Block>, a: int, size: int, j: nat)
    requires j < |l| && NodeLinked(m, l, j) && 0 <= size
    requires l[j].addr != a ==> NodeUntouched(m, m', l[j])
    requires l[j].addr == a ==>
               size <= l[j].size && Fits(m', l[j]) && Load(m', a + SIZE_AT, 4) == size
               && SameBytes(m, m', a + NEXT_AT, a + NODE_SIZE)
    ensures j < |Resized(l, a, size)| && NodeLinked(m', Resized(l, a, size), j)
  {
    hide Load;
    var r := Resized(l, a, size);
    assert AddrAt(r, j + 1) == AddrAt(l, j + 1) && AddrAt(r, j - 1) == AddrAt(l, j - 1);
    if l[j].addr != a {
      LoadSame(m, m', l[j].addr + SIZE_AT, 4);
    }
    LoadSame(m, m', l[j].addr + NEXT_AT, 8);
    LoadSame(m, m', l[j].addr + PREV_AT, 8);
  }

  // ---------- the blocks after the cut ----------

  function CutBlocks(bs: seq<Block>, i: nat, size: int): seq<Block>
    requires i < |bs|
  {
    Splice(bs, i, 1, [FreeFront(bs[i], size), FreeBack(bs[i], size)])
  }

  lemma CutBlocksTile(bs: seq<Block>, lo: int, hi: int, i: nat, size: int)
    requires Tiles(bs, lo, hi) && i < |bs|
    requires 0 <= size && size + OVERHEAD <= bs[i].size
    ensures Tiles(CutBlocks(bs, i, size), lo, hi)
    ensures forall x :: x in CutBlocks(bs, i, size) <==>
              x == FreeFront(bs[i], size) || x == FreeBack(bs[i], size) || (x in bs && x != bs[i])
    ensures |CutBlocks(bs, i, size)| == |bs| + 1
    ensures CutBlocks(bs, i, size)[i] == FreeFront(bs[i], size)
  {
    var b := bs[i];
    var ys := [FreeFront(b, size), FreeBack(b, size)];
    TilesInside(bs, lo, hi, b);
    assert ys[1..] == [FreeBack(b, size)];
    SpliceTiles(bs, i, 1, ys, lo, hi);
    SpliceMembers(bs, i, 1, ys, lo, hi);
  }

  // The holes before the cut are where they were.
  lemma CutHoles(bs: seq<Block>, lo: int, hi: int, i: nat, size: int, a: int)
    requires Tiles(bs, lo, hi) && i < |bs|
    requires 0 <= size && size + OVERHEAD <= bs[i].size
    requires HoleAt(bs, a)
    ensures HoleAt(CutBlocks(bs, i, size), a)
  {
    CutBlocksTile(bs, lo, hi, i, size);
    var y :| y in bs && y.hole && y.addr == a;
    assert (if y == bs[i] then FreeFront(y, size) else y) in CutBlocks(bs, i, size);
  }

  // ---------- step by step ----------

  // The tail of hole i has been given a header and a footer.
  lemma AfterTail(m: seq<byte>, m': seq<byte>, heads: seq<int>, st: Arena, lo: int, hi: int, i: nat, size: int)
    requires Holds(m, heads, st, lo, hi) && i < |st.blocks| && st.blocks[i].hole
    requires 0 <= size && size + OVERHEAD <= st.blocks[i].size
    requires Within(m, m', st.blocks[i].addr + NODE_SIZE, End(st.blocks[i]))
    ensures BinsLinked(m', heads, st.bins)
    ensures forall c :: c in st.blocks && c != st.blocks[i] ==> BlockStored(m', c) && SameBytes(m, m', c.addr, End(c))
    ensures forall x :: InBins(st.bins, x) ==>
              (Apart(x, FreeBack(st.blocks[i], size)) && x.addr != FreeBack(st.blocks[i], size).addr)
  {
    var b := st.blocks[i];
    assert b in st.blocks;
    TilesInside(st.blocks, lo, hi, b);
    forall c | c in st.blocks && c != b ensures BlockStored(m', c) && SameBytes(m, m', c.addr, End(c)) {
      BlocksApart(st.blocks, lo, hi, c, b);
      TilesInside(st.blocks, lo, hi, c);
      EdgesKeep(m, m', c);
    }
    forall x | InBins(st.bins, x)
      ensures NodeUntouched(m, m', x) && Apart(x, FreeBack(b, size)) && x.addr != FreeBack(b, size).addr
    {
      InBinsIsHole(st, x);
      if x != b {
        BlocksApart(st.blocks, lo, hi, x, b);
        TilesInside(st.blocks, lo, hi, x);
      }
    }
    BinsUntouched(m, m', heads, st.bins);
  }

  // The tail has been linked.
  lemma AfterLink(m: seq<byte>, m': seq<byte>, st: Arena, lo: int, hi: int, i: nat, size: int, k: nat)
    requires Inv(st, lo, hi) && i < |st.blocks| && st.blocks[i].hole && k < BIN_COUNT
    requires 0 <= size && size + OVERHEAD <= st.blocks[i].size
    requires OnlyLinks(m, m', st.bins[k] + [FreeBack(st.blocks[i], size)])
    requires forall c :: c in st.blocks && c != st.blocks[i] ==> BlockStored(m, c)
    requires BlockStored(m, FreeBack(st.blocks[i], size))
    requires Fits(m, st.blocks[i])
    ensures forall c :: c in st.blocks && c != st.blocks[i] ==> BlockStored(m', c)
    ensures forall c :: c in st.blocks && !c.hole ==> SameBytes(m, m', c.addr, End(c))
    ensures BlockStored(m', FreeBack(st.blocks[i], size))
    ensures Load(m', st.blocks[i].addr, 4) == Load(m, st.blocks[i].addr, 4)
  {
    var b := st.blocks[i];
    var bs := CutBlocks(st.blocks, i, size);
    var r := st.bins[k] + [FreeBack(b, size)];
    CutBlocksTile(st.blocks, lo, hi, i, size);
    forall x | x in r ensures HoleAt(bs, x.addr) {
      if x in st.bins[k] {
        assert x in st.blocks && x.hole;
        assert HoleAt(st.blocks, x.addr);
        CutHoles(st.blocks, lo, hi, i, size, x.addr);
      } else {
        assert FreeBack(b, size) in bs;
      }
    }
    RelinkFrame(m, m', bs, lo, hi, r);
    forall c | c in bs ensures BlockStored(m, c) ==> BlockStored(m', c) {
      EdgesKeep(m, m', c);
    }
    assert FreeFront(b, size) in bs && FreeBack(b, size) in bs;
    LoadSame(m, m', b.addr, 4);
  }

  // The bytes of hole b that change when its front is shrunk to size.
  ghost predicate HeadShrunk(m: seq<byte>, m': seq<byte>, b: Block, size: int) {
    && Within(m, m', b.addr, End(b))
    && SameBytes(m, m', b.addr + NEXT_AT, b.addr + NODE_SIZE)
    && SameBytes(m, m', FreeBack(b, size).addr, FreeBack(b, size).addr + NODE_SIZE)
    && BlockStored(m', FreeFront(b, size))
  }

  lemma AfterHeadList(m: seq<byte>, m': seq<byte>, head: int, l: seq<Block>, b: Block, size: int)
    requires Linked(m, head, l) && DistinctAddrs(l) && b in l
    requires 0 <= size <= b.size && HeadShrunk(m, m', b, size)
    requires forall x :: x in l && x.addr != b.addr ==> NodeUntouched(m, m', x)
    ensures Linked(m', head, Resized(l, b.addr, size))
  {
    forall x | x in l && x.addr == b.addr ensures x == b && Fits(m', x) {
      var p :| 0 <= p < |l| && l[p] == x;
      var q :| 0 <= q < |l| && l[q] == b;
      assert p == q && NodeLinked(m, l, p);
    }
    ResizedLinked(m, m', head, l, b.addr, size);
  }

  // The front has been shrunk.
  lemma AfterHead(m: seq<byte>, m': seq<byte>, heads: seq<int>, st: Arena, lists: seq<seq<Block>>, owner: map<int, int>,
                  lo: int, hi: int, i: nat, size: int, k: nat)
    requires Inv(st, lo, hi) && i < |st.blocks| && st.blocks[i].hole && k < BIN_COUNT
    requires 0 <= size && size + OVERHEAD <= st.blocks[i].size
    requires BinsLinked(m, heads, lists) && Placed(m, CutBlocks(st.blocks, i, size), lists, owner)
    requires st.blocks[i] in lists[k]
    requires HeadShrunk(m, m', st.blocks[i], size)
    ensures BinsLinked(m', heads, lists[k := Resized(lists[k], st.blocks[i].addr, size)])
  {
    var b := st.blocks[i];
    forall j, x | 0 <= j < BIN_COUNT && x in lists[j] && x.addr != b.addr ensures NodeUntouched(m, m', x) {
      assert EntryPlaced(m, CutBlocks(st.blocks, i, size), owner, j, x);
      AfterHeadNode(m, m', st, lo, hi, i, size, x);
    }
    AfterHeadList(m, m', heads[k], lists[k], b, size);
    forall j | 0 <= j < BIN_COUNT && j != k ensures Linked(m', heads[j], lists[j]) {
      forall x | x in lists[j] ensures x.addr != b.addr {
        assert EntryPlaced(m, CutBlocks(st.blocks, i, size), owner, j, x);
        assert EntryPlaced(m, CutBlocks(st.blocks, i, size), owner, k, b);
      }
      LinkedUntouched(m, m', heads[j], lists[j]);
    }
  }

  lemma AfterHeadNode(m: seq<byte>, m': seq<byte>, st: Arena, lo: int, hi: int, i: nat, size: int, x: Block)
    requires Inv(st, lo, hi) && i < |st.blocks| && st.blocks[i].hole
    requires 0 <= size && size + OVERHEAD <= st.blocks[i].size
    requires HoleAt(CutBlocks(st.blocks, i, size), x.addr) && x.addr != st.blocks[i].addr
    requires Within(m, m', st.blocks[i].addr, End(st.blocks[i]))
    requires SameBytes(m, m', FreeBack(st.blocks[i], size).addr, FreeBack(st.blocks[i], size).addr + NODE_SIZE)
    ensures NodeUntouched(m, m', x)
  {
    var b := st.blocks[i];
    CutBlocksTile(st.blocks, lo, hi, i, size);
    var y :| y in CutBlocks(st.blocks, i, size) && y.hole && y.addr == x.addr;
    if y != FreeBack(b, size) {
      assert y in st.blocks && y != b;
      BlocksApart(st.blocks, lo, hi, y, b);
      TilesInside(st.blocks, lo, hi, b);
      TilesInside(st.blocks, lo, hi, y);
    }
  }

  // ---------- the arena after the front has been handed out ----------

  ghost predicate CutReady(m: seq<byte>, heads: seq<int>, st: Arena, lo: int, hi: int, i: nat, size: int) {
    && Holds(m, heads, st, lo, hi) && i < |st.blocks| && st.blocks[i].hole
    && 0 <= size && size + OVERHEAD <= st.blocks[i].size
  }

  // The bins after the tail of hole i has been linked and its front shrunk.
  function LinkedTail(st: Arena, i: nat, size: int): (r: seq<seq<Block>>)
    requires |st.bins| == BIN_COUNT && i < |st.blocks|
    ensures |r| == BIN_COUNT
  {
    var t := FreeBack(st.blocks[i], size);
    st.bins[BinIndex(t.size) := Insert(st.bins[BinIndex(t.size)], t)]
  }

  function CutBins(st: Arena, i: nat, size: int): (r: seq<seq<Block>>)
    requires |st.bins| == BIN_COUNT && i < |st.blocks|
    ensures |r| == BIN_COUNT
  {
    var k := BinIndex(st.blocks[i].size);
    LinkedTail(st, i, size)[k := Resized(LinkedTail(st, i, size)[k], st.blocks[i].addr, size)]
  }

  // Unlinking the front then gives exactly the specified arena.
  lemma CutThenRemove(st: Arena, lo: int, hi: int, i: nat, size: int)
    requires Inv(st, lo, hi) && i < |st.blocks| && st.blocks[i].hole
    requires 0 <= size && size + OVERHEAD <= st.blocks[i].size && Splits(st.blocks[i], size)
    ensures var b, k := st.blocks[i], BinIndex(st.blocks[i].size);
            && IndexOf(CutBins(st, i, size)[k], b.addr) < |CutBins(st, i, size)[k]|
            && AllocAt(st, i, size).bins == CutBins(st, i, size)[k := Remove(CutBins(st, i, size)[k], b.addr)]
  {
    var b, t := st.blocks[i], FreeBack(st.blocks[i], size);
    TailInsert(st, lo, hi, i, size);
    CutTakeBins(st, i, size);
    CutRemoveBins(st.bins, BinIndex(t.size), BinIndex(b.size), t, b, size);
  }

  lemma CutRemoveBins(bins: seq<seq<Block>>, kt: nat, k: nat, t: Block, b: Block, size: int)
    requires |bins| == BIN_COUNT && kt < BIN_COUNT && k < BIN_COUNT && t.addr != b.addr
    requires Sorted(bins[kt])
    requires var tail := bins[kt := Insert(bins[kt], t)]; DistinctAddrs(tail[k]) && b in tail[k]
    ensures var tail := bins[kt := Insert(bins[kt], t)];
            var cut := tail[k := Resized(tail[k], b.addr, size)];
            var taken := bins[k := Remove(bins[k], b.addr)];
            && IndexOf(cut[k], b.addr) < |cut[k]|
            && taken[kt := Insert(taken[kt], t)] == cut[k := Remove(cut[k], b.addr)]
  {
    var l := bins[kt := Insert(bins[kt], t)][k];
    ResizedRemove(l, b.addr, size);
    ResizedIndex(l, b.addr, size);
    if kt == k {
      InsertRemoveCommute(bins[kt], t, b.addr);
    }
  }

  lemma TailInsert(st: Arena, lo: int, hi: int, i: nat, size: int)
    requires Inv(st, lo, hi) && i < |st.blocks| && st.blocks[i].hole
    requires 0 <= size && size + OVERHEAD <= st.blocks[i].size
    ensures var b, t := st.blocks[i], FreeBack(st.blocks[i], size);
            && (forall x :: x in st.bins[BinIndex(t.size)] ==> x.addr != t.addr)
            && (forall j :: 0 <= j < BIN_COUNT ==> DistinctAddrs(LinkedTail(st, i, size)[j]))
            && b in LinkedTail(st, i, size)[BinIndex(b.size)]
  {
    var b, t := st.blocks[i], FreeBack(st.blocks[i], size);
    var kt := BinIndex(t.size);
    assert b in st.blocks;
    forall x | x in st.bins[kt] ensures x.addr != t.addr {
      TilesInside(st.blocks, lo, hi, x);
      if x != b {
        BlocksApart(st.blocks, lo, hi, x, b);
      }
    }
    InsertFacts(st.bins[kt], t);
  }

  lemma CutTakeBins(st: Arena, i: nat, size: int)
    requires |st.bins| == BIN_COUNT && i < |st.blocks| && Splits(st.blocks[i], size)
    ensures var b, t := st.blocks[i], FreeBack(st.blocks[i], size);
            var taken := st.bins[BinIndex(b.size) := Remove(st.bins[BinIndex(b.size)], b.addr)];
            AllocAt(st, i, size).bins == taken[BinIndex(t.size) := Insert(taken[BinIndex(t.size)], t)]
    ensures AllocAt(st, i, size).blocks == CutBlocks(st.blocks, i, size)[i := Front(st.blocks[i], size)]
  {
    var b := st.blocks[i];
    var st1 := Take(st, i);
    assert st1.blocks[i] == b.(hole := false);
    var st2 := Cut(st1, i, size);
    assert st2.blocks[i + 1] == Back(b, size);
  }

  // ---------- the state between the three parts of the cut ----------

  // The tail of hole i is stored; the hole itself is still linked with its old size.
  ghost predicate TailReady(m: seq<byte>, heads: seq<int>, st: Arena, lists: seq<seq<Block>>,
                            lo: int, hi: int, i: nat, size: int) {
    && Inv(st, lo, hi) && Bounds(m, lo, hi) && i < |st.blocks| && st.blocks[i].hole
    && 0 <= size && size + OVERHEAD <= st.blocks[i].size
    && (forall c :: c in st.blocks && c != st.blocks[i] ==> BlockStored(m, c))
    && BlockStored(m, FreeBack(st.blocks[i], size))
    && Fits(m, st.blocks[i]) && Load(m, st.blocks[i].addr, 4) == Word(true)
    && BinsLinked(m, heads, lists)
  }

  lemma TailWritten(m: seq<byte>, m': seq<byte>, heads: seq<int>, st: Arena, lo: int, hi: int, i: nat, size: int)
    requires CutReady(m, heads, st, lo, hi, i, size)
    requires Within(m, m', st.blocks[i].addr + NODE_SIZE, End(st.blocks[i]))
    requires BlockStored(m', FreeBack(st.blocks[i], size))
    requires Fits(m', st.blocks[i]) && Load(m', st.blocks[i].addr, 4) == Word(true)
    ensures TailReady(m', heads, st, st.bins, lo, hi, i, size)
    ensures LiveSame(m, m', st)
    ensures forall x :: InBins(st.bins, x) ==> Apart(x, FreeBack(st.blocks[i], size))
    ensures GoodLists(m', st.bins)
  {
    AfterTail(m, m', heads, st, lo, hi, i, size);
    ArenaGoodLists(m', st, lo, hi);
    assert st.blocks[i] in st.blocks;
  }

  lemma TailLinked(m: seq<byte>, m': seq<byte>, heads: seq<int>, heads': seq<int>, st: Arena,
                   lo: int, hi: int, i: nat, size: int)
    requires TailReady(m, heads, st, st.bins, lo, hi, i, size)
    requires var t := FreeBack(st.blocks[i], size); OnlyLinks(m, m', st.bins[BinIndex(t.size)] + [t])
    requires BinsLinked(m', heads', LinkedTail(st, i, size))
    ensures TailReady(m', heads', st, LinkedTail(st, i, size), lo, hi, i, size)
    ensures LiveSame(m, m', st)
  {
    var t := FreeBack(st.blocks[i], size);
    AfterLink(m, m', st, lo, hi, i, size, BinIndex(t.size));
  }

  // The owner of each address after the tail has been linked.
  ghost function TailOwner(st: Arena, lo: int, hi: int, i: nat, size: int): map<int, int>
    requires Inv(st, lo, hi) && i < |st.blocks|
  {
    var t := FreeBack(st.blocks[i], size);
    Owner(st, lo, hi)[t.addr := BinIndex(t.size)]
  }

  lemma TailPlaced(m: seq<byte>, heads: seq<int>, st: Arena, lo: int, hi: int, i: nat, size: int)
    requires Inv(st, lo, hi) && i < |st.blocks|
    requires TailReady(m, heads, st, LinkedTail(st, i, size), lo, hi, i, size)
    ensures Placed(m, CutBlocks(st.blocks, i, size), LinkedTail(st, i, size), TailOwner(st, lo, hi, i, size))
    ensures Placed(m, CutBlocks(st.blocks, i, size), CutBins(st, i, size), TailOwner(st, lo, hi, i, size))
    ensures st.blocks[i] in LinkedTail(st, i, size)[BinIndex(st.blocks[i].size)]
  {
    var b, t := st.blocks[i], FreeBack(st.blocks[i], size);
    var bs := CutBlocks(st.blocks, i, size);
    CutBlocksTile(st.blocks, lo, hi, i, size);
    ArenaPlaced(m, st, lo, hi);
    forall x | InBins(st.bins, x) ensures x.addr != t.addr {
      InBinsIsHole(st, x);
      assert b in st.blocks;
      TilesInside(st.blocks, lo, hi, x);
      if x != b {
        BlocksApart(st.blocks, lo, hi, x, b);
      }
    }
    forall a | HoleAt(st.blocks, a) ensures HoleAt(bs, a) {
      CutHoles(st.blocks, lo, hi, i, size, a);
    }
    assert HoleAt(bs, t.addr) by { assert t in bs; }
    PlacedInsert(m, st.blocks, bs, st.bins, Owner(st, lo, hi), BinIndex(t.size), t);
    TailInsert(st, lo, hi, i, size);
    TailResize(m, st, lo, hi, i, size);
  }

  lemma TailResize(m: seq<byte>, st: Arena, lo: int, hi: int, i: nat, size: int)
    requires Inv(st, lo, hi) && i < |st.blocks| && 0 <= size <= st.blocks[i].size
    requires Placed(m, CutBlocks(st.blocks, i, size), LinkedTail(st, i, size), TailOwner(st, lo, hi, i, size))
    requires st.blocks[i] in LinkedTail(st, i, size)[BinIndex(st.blocks[i].size)]
    ensures Placed(m, CutBlocks(st.blocks, i, size), CutBins(st, i, size), TailOwner(st, lo, hi, i, size))
  {
    var b, k := st.blocks[i], BinIndex(st.blocks[i].size);
    var l := LinkedTail(st, i, size)[k];
    forall x | x in l && x.addr == b.addr ensures x == b {
      var p :| 0 <= p < |l| && l[p] == x;
      var q :| 0 <= q < |l| && l[q] == b;
      assert p == q;
    }
    PlacedResize(m, CutBlocks(st.blocks, i, size), LinkedTail(st, i, size), TailOwner(st, lo, hi, i, size), k, b.addr,
        size);
  }

  lemma HeadDone(m: seq<byte>, m': seq<byte>, heads: seq<int>, st: Arena, lo: int, hi: int, i: nat, size: int)
    requires Inv(st, lo, hi) && i < |st.blocks|
    requires TailReady(m, heads, st, LinkedTail(st, i, size), lo, hi, i, size) && Splits(st.blocks[i], size)
    requires HeadShrunk(m, m', st.blocks[i], size)
    requires BlockStored(m', FreeBack(st.blocks[i], size))
    ensures Grantable(m', heads, CutBlocks(st.blocks, i, size), CutBins(st, i, size), lo, hi, i,
            BinIndex(st.blocks[i].size))
    ensures LiveSame(m, m', st)
  {
    HeadStored(m, m', heads, st, lo, hi, i, size);
    HeadBins(m, m', heads, st, lo, hi, i, size);
    CutIndex(st, lo, hi, i, size);
  }

  lemma CutIndex(st: Arena, lo: int, hi: int, i: nat, size: int)
    requires Inv(st, lo, hi) && i < |st.blocks| && st.blocks[i].hole
    requires 0 <= size && Splits(st.blocks[i], size)
    ensures var l := CutBins(st, i, size)[BinIndex(st.blocks[i].size)]; IndexOf(l, st.blocks[i].addr) < |l|
  {
    CutThenRemove(st, lo, hi, i, size);
  }

  lemma HeadStored(m: seq<byte>, m': seq<byte>, heads: seq<int>, st: Arena, lo: int, hi: int, i: nat, size: int)
    requires Inv(st, lo, hi) && i < |st.blocks|
    requires TailReady(m, heads, st, LinkedTail(st, i, size), lo, hi, i, size)
    requires HeadShrunk(m, m', st.blocks[i], size)
    requires BlockStored(m', FreeBack(st.blocks[i], size))
    ensures var bs := CutBlocks(st.blocks, i, size);
            && Tiles(bs, lo, hi) && i < |bs| && bs[i] == FreeFront(st.blocks[i], size)
            && (forall c :: c in bs ==> BlockStored(m', c))
    ensures LiveSame(m, m', st)
  {
    HeadElsewhere(m, m', st, lo, hi, i, size);
    CutBlocksTile(st.blocks, lo, hi, i, size);
  }

  lemma HeadBins(m: seq<byte>, m': seq<byte>, heads: seq<int>, st: Arena, lo: int, hi: int, i: nat, size: int)
    requires Inv(st, lo, hi) && i < |st.blocks|
    requires TailReady(m, heads, st, LinkedTail(st, i, size), lo, hi, i, size)
    requires HeadShrunk(m, m', st.blocks[i], size)
    ensures BinsLinked(m', heads, CutBins(st, i, size)) && GoodLists(m', CutBins(st, i, size))
    ensures forall x :: InBins(CutBins(st, i, size), x) ==> HoleAt(CutBlocks(st.blocks, i, size), x.addr)
  {
    var bs, lists := CutBlocks(st.blocks, i, size), CutBins(st, i, size);
    var owner := TailOwner(st, lo, hi, i, size);
    TailPlaced(m, heads, st, lo, hi, i, size);
    AfterHead(m, m', heads, st, LinkedTail(st, i, size), owner, lo, hi, i, size, BinIndex(st.blocks[i].size));
    CutBlocksTile(st.blocks, lo, hi, i, size);
    PlacedGood(m, bs, lists, owner, lo, hi);
    forall x | InBins(lists, x) ensures HoleAt(bs, x.addr) {
      var k :| 0 <= k < |lists| && x in lists[k];
      assert EntryPlaced(m, bs, owner, k, x);
    }
  }

  lemma HeadElsewhere(m: seq<byte>, m': seq<byte>, st: Arena, lo: int, hi: int, i: nat, size: int)
    requires Inv(st, lo, hi) && i < |st.blocks| && st.blocks[i].hole
    requires forall c :: c in st.blocks && c != st.blocks[i] ==> BlockStored(m, c)
    requires Within(m, m', st.blocks[i].addr, End(st.blocks[i]))
    ensures forall c :: c in st.blocks && c != st.blocks[i] ==> BlockStored(m', c)
    ensures LiveSame(m, m', st)
  {
    var b := st.blocks[i];
    forall c | c in st.blocks && c != b ensures BlockStored(m', c) && SameBytes(m, m', c.addr, End(c)) {
      BlocksApart(st.blocks, lo, hi, c, b);
      TilesInside(st.blocks, lo, hi, c);
      EdgesKeep(m, m', c);
    }
  }

  lemma LiveSameTrans(m: seq<byte>, m1: seq<byte>, m2: seq<byte>, st: Arena)
    requires LiveSame(m, m1, st) && LiveSame(m1, m2, st)
    ensures LiveSame(m, m2, st)
  {
    forall c | c in LiveBlocks(st) ensures SameBytes(m, m2, c.addr, End(c)) {
      SameTrans(m, m1, m2, c.addr, End(c));
    }
  }

  // ---------- the arena once the front has been unlinked ----------

  lemma CutGranted(m: seq<byte>, heads: seq<int>, st: Arena, lo: int, hi: int, i: nat, size: int)
    requires Inv(st, lo, hi) && Bounds(m, lo, hi) && i < |st.blocks| && st.blocks[i].hole
    requires 0 <= size && Splits(st.blocks[i], size)
    requires forall c ::
               c in CutBlocks(st.blocks, i, size) && c != CutBlocks(st.blocks, i, size)[i] ==> BlockStored(m, c)
    requires BlockStored(m, Front(st.blocks[i], size))
    requires var lists, k, a := CutBins(st, i, size), BinIndex(st.blocks[i].size), st.blocks[i].addr;
             BinsLinked(m, heads, lists[k := Remove(lists[k], a)])
    ensures Holds(m, heads, AllocAt(st, i, size), lo, hi)
  {
    AllocAtKeepsInv(st, lo, hi, i, size);
    CutThenRemove(st, lo, hi, i, size);
    FrontUsed(st, lo, hi, i, size);
  }

  lemma UpdatedMembers(bs: seq<Block>, i: nat, f: Block)
    requires i < |bs| && forall j, k :: 0 <= j < k < |bs| ==> bs[j] != bs[k]
    ensures forall c :: c in bs[i := f] ==> c == f || (c in bs && c != bs[i])
  {
    forall c | c in bs[i := f] ensures c == f || (c in bs && c != bs[i]) {
      var j :| 0 <= j < |bs| && bs[i := f][j] == c;
    }
  }

  lemma FrontUsed(st: Arena, lo: int, hi: int, i: nat, size: int)
    requires Inv(st, lo, hi) && i < |st.blocks|
    requires 0 <= size && Splits(st.blocks[i], size)
    ensures forall c :: c in AllocAt(st, i, size).blocks ==>
              c == Front(st.blocks[i], size)
              || (c in CutBlocks(st.blocks, i, size) && c != CutBlocks(st.blocks, i, size)[i])
  {
    CutTakeBins(st, i, size);
    CutBlocksTile(st.blocks, lo, hi, i, size);
    TilesDistinct(CutBlocks(st.blocks, i, size), lo, hi);
    UpdatedMembers(CutBlocks(st.blocks, i, size), i, Front(st.blocks[i], size));
  }

  lemma WholeGranted(m: seq<byte>, heads: seq<int>, st: Arena, lo: int, hi: int, i: nat)
    requires Inv(st, lo, hi) && Bounds(m, lo, hi) && i < |st.blocks| && st.blocks[i].hole
    requires forall c :: c in st.blocks && c != st.blocks[i] ==> BlockStored(m, c)
    requires BlockStored(m, Used(st.blocks[i]))
    requires var k, a := BinIndex(st.blocks[i].size), st.blocks[i].addr;
             BinsLinked(m, heads, st.bins[k := Remove(st.bins[k], a)])
    ensures Holds(m, heads, Take(st, i), lo, hi)
  {
    TakeKeepsInv(st, i, lo, hi);
    SpliceMembers(st.blocks, i, 1, [Used(st.blocks[i])], lo, hi);
  }
}
