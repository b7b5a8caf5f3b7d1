// When a memory holds an arena, and which writes keep it so.
module HeapLayout {
  import opened Bytes
  import opened BinLists
  import opened ArenaSpec
  import opened HeapMemory
  import opened BinOps

  ghost predicate Bounds(m: seq<byte>, lo: int, hi: int) {
    0 < lo <= hi <= |m| <= ADDRESS_LIMIT && hi - lo < 0x8000_0000
  }

  // ---------- all bins together ----------

  ghost predicate BinsLinked(m: seq<byte>, heads: seq<int>, lists: seq<seq<Block>>) {
    && |heads| == |lists| == BIN_COUNT
    && forall k :: 0 <= k < BIN_COUNT ==> Linked(m, heads[k], lists[k])
  }

  // x is a node of some bin.
  ghost predicate InBins(lists: seq<seq<Block>>, x: Block) {
    exists k :: 0 <= k < |lists| && x in lists[k]
  }

  // All nodes are well placed, and nodes of different bins do not overlap.
  ghost predicate GoodLists(m: seq<byte>, lists: seq<seq<Block>>) {
    && |lists| == BIN_COUNT
    && (forall k :: 0 <= k < BIN_COUNT ==> GoodNodes(m, lists[k]))
    && (forall i, j, x, y :: 0 <= i < BIN_COUNT && 0 <= j < BIN_COUNT && i != j && x in lists[i] && y in lists[j] ==>
          Apart(x, y))
  }

  lemma ArenaFits(m: seq<byte>, st: Arena, lo: int, hi: int, b: Block)
    requires Inv(st, lo, hi) && Bounds(m, lo, hi)
    requires b in st.blocks
    ensures Fits(m, b) && lo <= b.addr && End(b) <= hi && b.size < 0x8000_0000
  {
    TilesInside(st.blocks, lo, hi, b);
  }

  lemma BlocksApart(bs: seq<Block>, lo: int, hi: int, x: Block, y: Block)
    requires Tiles(bs, lo, hi)
    requires x in bs && y in bs && x != y
    ensures Apart(x, y)
    ensures End(x) <= y.addr || End(y) <= x.addr
  {
    TilesInside(bs, lo, hi, x);
    TilesInside(bs, lo, hi, y);
    TilesDisjoint(bs, lo, hi, x, y);
  }

  lemma ArenaGoodLists(m: seq<byte>, st: Arena, lo: int, hi: int)
    requires Inv(st, lo, hi) && Bounds(m, lo, hi)
    ensures GoodLists(m, st.bins)
  {
    forall k | 0 <= k < BIN_COUNT ensures GoodNodes(m, st.bins[k]) {
      var l := st.bins[k];
      forall x | x in l ensures Fits(m, x) {
        ArenaFits(m, st, lo, hi, x);
      }
      forall i, j | 0 <= i < j < |l| ensures Apart(l[i], l[j]) {
        assert l[i] in l && l[j] in l && l[i].addr != l[j].addr;
        BlocksApart(st.blocks, lo, hi, l[i], l[j]);
      }
    }
    forall i, j, x, y | 0 <= i < BIN_COUNT && 0 <= j < BIN_COUNT && i != j && x in st.bins[i] && y in st.bins[j]
      ensures Apart(x, y)
    {
      BlocksApart(st.blocks, lo, hi, x, y);
    }
  }

  lemma InBinsIsHole(st: Arena, x: Block)
    requires BinsAgree(st.blocks, st.bins)
    ensures InBins(st.bins, x) <==> x in st.blocks && x.hole
  {
    if x in st.blocks && x.hole {
      assert x in st.bins[BinIndex(x.size)];
    }
  }

  // The bytes of a node that its bin relies on: size, next and prev.
  ghost predicate NodeUntouched(m: seq<byte>, m': seq<byte>, x: Block) {
    |m'| == |m| && forall t :: 0 <= t < |m| && x.addr + SIZE_AT <= t < x.addr + NODE_SIZE ==> m'[t] == m[t]
  }

  lemma LinkedUntouched(m: seq<byte>, m': seq<byte>, head: int, l: seq<Block>)
    requires Linked(m, head, l)
    requires forall x :: x in l ==> NodeUntouched(m, m', x)
    ensures Linked(m', head, l)
  {
    forall j | 0 <= j < |l| ensures NodeLinked(m', l, j) {
      assert l[j] in l && NodeLinked(m, l, j);
      LoadSame(m, m', l[j].addr + SIZE_AT, 4);
      LoadSame(m, m', l[j].addr + NEXT_AT, 8);
      LoadSame(m, m', l[j].addr + PREV_AT, 8);
    }
  }

  lemma BinsUntouched(m: seq<byte>, m': seq<byte>, heads: seq<int>, lists: seq<seq<Block>>)
    requires BinsLinked(m, heads, lists)
    requires forall x :: InBins(lists, x) ==> NodeUntouched(m, m', x)
    ensures BinsLinked(m', heads, lists)
  {
    forall k | 0 <= k < BIN_COUNT ensures Linked(m', heads[k], lists[k]) {
      assert forall x :: x in lists[k] ==> InBins(lists, x);
      LinkedUntouched(m, m', heads[k], lists[k]);
    }
  }

  lemma ApartUntouched(m: seq<byte>, m': seq<byte>, r: seq<Block>, x: Block)
    requires OnlyLinks(m, m', r)
    requires forall y :: y in r ==> Apart(x, y)
    ensures NodeUntouched(m, m', x)
  {
  }

  // Relinking one bin leaves the others linked.
  lemma OneBinChanged(m: seq<byte>, m': seq<byte>, heads: seq<int>, heads': seq<int>,
                      lists: seq<seq<Block>>, k: nat, r: seq<Block>, l': seq<Block>)
    requires BinsLinked(m, heads, lists) && k < BIN_COUNT
    requires |heads'| == BIN_COUNT && forall i :: 0 <= i < BIN_COUNT && i != k ==> heads'[i] == heads[i]
    requires OnlyLinks(m, m', r)
    requires forall i, x, y :: 0 <= i < BIN_COUNT && i != k && x in lists[i] && y in r ==> Apart(x, y)
    requires Linked(m', heads'[k], l')
    ensures BinsLinked(m', heads', lists[k := l'])
  {
    forall i | 0 <= i < BIN_COUNT && i != k ensures Linked(m', heads'[i], lists[i]) {
      forall x | x in lists[i] ensures NodeUntouched(m, m', x) {
        ApartUntouched(m, m', r, x);
      }
      LinkedUntouched(m, m', heads[i], lists[i]);
    }
  }

  // add_node on one of the nine bins.
  method Link(mem: array<byte>, bins: array<int>, k: nat, node: int, ghost lists: seq<seq<Block>>, ghost b: Block)
    requires bins.Length == BIN_COUNT && k < BIN_COUNT
    requires BinsLinked(mem[..], bins[..], lists) && GoodLists(mem[..], lists)
    requires Fits(mem[..], b) && b.addr == node && GetSize(mem, node) == b.size
    requires forall x :: InBins(lists, x) ==> Apart(x, b)
    modifies mem, bins
    ensures BinsLinked(mem[..], bins[..], lists[k := Insert(lists[k], b)])
    ensures OnlyLinks(old(mem[..]), mem[..], lists[k] + [b])
  {
    ghost var m, heads := mem[..], bins[..];
    assert forall i, x :: 0 <= i < BIN_COUNT && x in lists[i] ==> InBins(lists, x);
    assert Linked(m, heads[k], lists[k]);
    AddNode(mem, bins, k, node, lists[k], b);
    OneBinChanged(m, mem[..], heads, bins[..], lists, k, lists[k] + [b], Insert(lists[k], b));
  }

  // remove_node on one of the nine bins.
  method Unlink(mem: array<byte>, bins: array<int>, k: nat, node: int, ghost lists: seq<seq<Block>>)
    requires bins.Length == BIN_COUNT && k < BIN_COUNT
    requires BinsLinked(mem[..], bins[..], lists) && GoodLists(mem[..], lists)
    requires IndexOf(lists[k], node) < |lists[k]|
    modifies mem, bins
    ensures BinsLinked(mem[..], bins[..], lists[k := Remove(lists[k], node)])
    ensures OnlyLinks(old(mem[..]), mem[..], lists[k])
  {
    ghost var m, heads := mem[..], bins[..];
    assert Linked(m, heads[k], lists[k]);
    RemoveNode(mem, bins, k, node, lists[k]);
    OneBinChanged(m, mem[..], heads, bins[..], lists, k, lists[k], Remove(lists[k], node));
  }
}
