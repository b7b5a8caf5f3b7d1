// heap.c: the boundary-tag allocator on a byte memory.
module Heap {
  import opened Options
  import opened Bytes
  import opened BinLists
  import opened ArenaSpec
  import opened AllocatorSpec
  import opened HeapMemory
  import opened BinOps
  import opened HeapLayout
  import opened HeapFrames
  import opened HeapGrant
  import opened HeapCut

  class Heap {
    const mem: array<byte>
    const bins: array<int>
    var start: int
    var end: int
    ghost var arena: Arena

    ghost predicate Valid()
      reads this, mem, bins
    {
      bins.Length == BIN_COUNT && Holds(mem[..], bins[..], arena, start, end)
    }

    // Empty bins and one hole that spans the arena.
    constructor (memory: array<byte>, lo: int, size: int)
      requires Bounds(memory[..], lo, lo + size) && ArenaBounds(lo, lo + size)
      modifies memory
      ensures Valid() && fresh(bins) && mem == memory && start == lo && end == lo + size
      ensures arena == Init(lo, lo + size)
      ensures Within(old(memory[..]), memory[..], lo, lo + size)
    {
      mem := memory;
      bins := new int[BIN_COUNT](_ => 0);
      start := lo;
      end := lo + size;
      arena := Init(lo, lo + size);
      new;
      InitHeap(lo, size);
    }

    // init_heap on empty bins.
    method InitHeap(lo: int, size: int)
      requires bins.Length == BIN_COUNT && forall k :: 0 <= k < BIN_COUNT ==> bins[k] == 0
      requires Bounds(mem[..], lo, lo + size) && ArenaBounds(lo, lo + size)
      modifies mem, bins
      ensures Holds(mem[..], bins[..], Init(lo, lo + size), lo, lo + size)
      ensures Within(old(mem[..]), mem[..], lo, lo + size)
    {
      hide Holds, BinsLinked, GoodLists, BlockStored, Within, Init;
      ghost var b := InitialHole(lo, lo + size);
      ghost var m := mem[..];
      SetHole(lo, true, b);
      ghost var m1 := mem[..];
      SetSize(lo, size - OVERHEAD, b);
      ghost var m2 := mem[..];
      SetFoot(GetFoot(lo), lo);
      ghost var m3 := mem[..];
      InitialStored(m, m1, m2, m3, bins[..], lo, lo + size);
      var k := GetBinIndex(GetSize(mem, lo));
      Link(mem, bins, k, lo, EmptyBins(), b);
      InitialHolds(m, m3, mem[..], bins[..], lo, lo + size);
    }

    // The owner of a block writes one byte of its payload.
    method UserWrite(p: int, k: nat, v: byte, ghost b: Block)
      requires Valid()
      requires b in LiveBlocks(arena) && UserPointer(b) == p && k < b.size
      modifies mem
      ensures Valid()
      ensures mem[..] == old(mem[..])[p + k := v]
    {
      ArenaFits(mem[..], arena, start, end, b);
      ghost var m := mem[..];
      mem[p + k] := v;
      assert mem[..] == m[p + k := v];
      PayloadWrite(m, mem[..], bins[..], arena, start, end, b);
    }

    method SetSize(node: int, size: int, ghost b: Block)
      requires Fits(mem[..], b) && b.addr == node
      requires 0 <= size < 0x1_0000_0000
      modifies mem
      ensures Wrote(old(mem[..]), mem[..], node + SIZE_AT, 4, size)
    {
      Pow256Values();
      Store(mem, node + SIZE_AT, 4, size);
    }

    method SetHole(node: int, hole: bool, ghost b: Block)
      requires Fits(mem[..], b) && b.addr == node
      modifies mem
      ensures Wrote(old(mem[..]), mem[..], node, 4, Word(hole))
    {
      Pow256Values();
      Store(mem, node, 4, if hole then 1 else 0);
    }

    // The footer behind the payload of a node of the given size.
    function GetFoot(node: int): int
      requires 0 <= node && node + NODE_SIZE <= mem.Length
      reads mem
    {
      node + NODE_SIZE + GetSize(mem, node)
    }

    method SetFoot(foot: int, header: int)
      requires 0 <= foot && foot + FOOT_SIZE <= mem.Length
      requires 0 <= header < ADDRESS_LIMIT
      modifies mem
      ensures Wrote(old(mem[..]), mem[..], foot, 8, header)
    {
      Pow256Values();
      Store(mem, foot, 8, header);
    }

    // Unlink hole h of the arena st from its bin, while block i is pending.
    method TakeHole(node: int, ghost st: Arena, ghost h: nat, ghost i: nat)
      requires bins.Length == BIN_COUNT
      requires CanTake(mem[..], bins[..], st, start, end, h, i)
      requires st.blocks[h].addr == node
      modifies mem, bins
      ensures TwoPending(mem[..], bins[..], Take(st, h), start, end, h, i)
      ensures LiveSame(old(mem[..]), mem[..], st)
    {
      ghost var m, heads := mem[..], bins[..];
      CanTakeBin(m, heads, st, start, end, h, i);
      var k := GetBinIndex(GetSize(mem, node));
      Unlink(mem, bins, k, node, st.bins);
      TakeTwoPending(m, mem[..], heads, bins[..], st, start, end, h, i);
    }

    // Write the size and the footer of the block that blocks i and i + 1 are to become.
    method JoinFields(first: int, second: int, ghost st: Arena, ghost i: nat)
      requires bins.Length == BIN_COUNT
      requires TwoPending(mem[..], bins[..], st, start, end, i, i + 1)
      requires first == st.blocks[i].addr && second == st.blocks[i + 1].addr
      modifies mem
      ensures Pending(mem[..], bins[..], Join(st, i), start, end, i)
      ensures KeepsLiveBut(old(mem[..]), mem[..], st, st.blocks[i], st.blocks[i + 1])
    {
      hide TwoPending, Pending, KeepsLiveBut, Join, BlockSized, Within;
      ghost var m := mem[..];
      TwoMeet(m, bins[..], st, start, end, i);
      WriteMerged(first, second, st.blocks[i], st.blocks[i + 1]);
      TwoJoined(m, mem[..], bins[..], st, start, end, i);
    }

    method WriteMerged(first: int, second: int, ghost b: Block, ghost c: Block)
      requires Mergeable(mem[..], b, c) && first == b.addr && second == c.addr
      modifies mem
      ensures BlockSized(mem[..], Merged(b, c)) && Within(old(mem[..]), mem[..], b.addr, End(c))
    {
      ghost var m1 := mem[..];
      SetSize(first, GetSize(mem, first) + OVERHEAD + GetSize(mem, second), b);
      ghost var m2 := mem[..];
      SetFoot(GetFoot(second), first);
      MergedSized(m1, m2, mem[..], b, c);
    }

    // Absorb pending block i into the hole before it.
    method MergePrev(prev: int, head: int, ghost st: Arena, ghost i: nat)
      requires bins.Length == BIN_COUNT
      requires Pending(mem[..], bins[..], st, start, end, i)
      requires 0 < i && st.blocks[i - 1].hole
      requires prev == st.blocks[i - 1].addr && head == st.blocks[i].addr
      modifies mem, bins
      ensures Pending(mem[..], bins[..], Join(Take(st, i - 1), i - 1), start, end, i - 1)
      ensures KeepsLive(old(mem[..]), mem[..], st, st.blocks[i])
    {
      hide BlockStored, BinsLinked, GoodLists, KeepsLive, KeepsLiveBut, LiveSame;
      ghost var m, t := mem[..], Take(st, i - 1);
      PendingCanTake(m, bins[..], st, start, end, i - 1, i);
      TakeHole(prev, st, i - 1, i);
      ghost var m1 := mem[..];
      JoinFields(prev, head, t, i - 1);
      MergeKeepsLive(m, m1, mem[..], st, start, end, i - 1, i);
    }

    // Absorb the hole after pending block i.
    method MergeNext(head: int, next: int, ghost st: Arena, ghost i: nat)
      requires bins.Length == BIN_COUNT
      requires Pending(mem[..], bins[..], st, start, end, i)
      requires i + 1 < |st.blocks| && st.blocks[i + 1].hole
      requires head == st.blocks[i].addr && next == st.blocks[i + 1].addr
      modifies mem, bins
      ensures Pending(mem[..], bins[..], Join(Take(st, i + 1), i), start, end, i)
      ensures KeepsLive(old(mem[..]), mem[..], st, st.blocks[i])
    {
      hide BlockStored, BinsLinked, GoodLists, KeepsLive, KeepsLiveBut, LiveSame;
      ghost var m, t := mem[..], Take(st, i + 1);
      PendingCanTake(m, bins[..], st, start, end, i + 1, i);
      TakeHole(next, st, i + 1, i);
      ghost var m1 := mem[..];
      AbsorbFields(head, next, t, i);
      MergeKeepsLive(m, m1, mem[..], st, start, end, i + 1, i);
    }

    // As JoinFields, wiping the header and footer of the second block on the way.
    method AbsorbFields(head: int, next: int, ghost st: Arena, ghost i: nat)
      requires bins.Length == BIN_COUNT
      requires TwoPending(mem[..], bins[..], st, start, end, i + 1, i)
      requires head == st.blocks[i].addr && next == st.blocks[i + 1].addr
      modifies mem
      ensures Pending(mem[..], bins[..], Join(st, i), start, end, i)
      ensures KeepsLiveBut(old(mem[..]), mem[..], st, st.blocks[i + 1], st.blocks[i])
    {
      hide TwoPending, Pending, Join, BlockSized, Within, BlockStored, LiveBlocks;
      ghost var m := mem[..];
      TwoPendingSwap(m, bins[..], st, start, end, i + 1, i);
      TwoMeet(m, bins[..], st, start, end, i);
      WriteAbsorbed(head, next, st.blocks[i], st.blocks[i + 1]);
      TwoJoined(m, mem[..], bins[..], st, start, end, i);
    }

    method WriteAbsorbed(head: int, next: int, ghost b: Block, ghost c: Block)
      requires Mergeable(mem[..], b, c) && head == b.addr && next == c.addr
      modifies mem
      ensures BlockSized(mem[..], Merged(b, c)) && Within(old(mem[..]), mem[..], b.addr, End(c))
    {
      ghost var m1 := mem[..];
      SetSize(head, GetSize(mem, head) + OVERHEAD + GetSize(mem, next), b);
      ghost var m2 := mem[..];
      WipeBlock(next, c);
      ghost var m3 := mem[..];
      LoadSame(m2, m3, head + SIZE_AT, 4);
      SetFoot(GetFoot(head), head);
      AbsorbedSized(m1, m2, m3, mem[..], b, c);
    }

    // Clear the footer, the size and the hole word of a block that is being absorbed.
    method WipeBlock(next: int, ghost c: Block)
      requires BlockSized(mem[..], c) && c.addr == next
      modifies mem
      ensures Within(old(mem[..]), mem[..], c.addr, End(c))
    {
      SetFoot(GetFoot(next), 0);
      SetSize(next, 0, c);
      SetHole(next, false, c);
    }

    // Mark pending block i free and link it into its bin.
    method GiveBlock(head: int, ghost st: Arena, ghost i: nat)
      requires bins.Length == BIN_COUNT
      requires Pending(mem[..], bins[..], st, start, end, i)
      requires UsedAt(st.blocks, i - 1) && UsedAt(st.blocks, i + 1)
      requires head == st.blocks[i].addr
      modifies mem, bins
      ensures Holds(mem[..], bins[..], Give(st, i), start, end)
      ensures KeepsLive(old(mem[..]), mem[..], st, st.blocks[i])
    {
      ghost var m, u := mem[..], st.blocks[i].(hole := true);
      SetHole(head, true, st.blocks[i]);
      ghost var m1 := mem[..];
      HoleWordSet(m, m1, bins[..], st, start, end, i);
      ArenaGoodLists(m1, st, start, end);
      assert u in Give(st, i).blocks;
      var k := GetBinIndex(GetSize(mem, head));
      Link(mem, bins, k, head, st.bins, u);
      GiveInMemory(m1, mem[..], bins[..], st, start, end, i);
      KeepsLiveChain(m, m1, mem[..], st, st, st.blocks[i], st.blocks[i]);
    }

    // Mark hole i used, unlink it from bin k and reset its links.
    method Grant(found: int, k: nat, ghost bs: seq<Block>, ghost lists: seq<seq<Block>>, ghost i: nat)
      requires bins.Length == BIN_COUNT
      requires Grantable(mem[..], bins[..], bs, lists, start, end, i, k) && bs[i].addr == found
      modifies mem, bins
      ensures forall c :: c in bs && c != bs[i] ==> BlockStored(mem[..], c)
      ensures BlockStored(mem[..], Used(bs[i]))
      ensures forall c :: c in bs && !c.hole ==> SameBytes(old(mem[..]), mem[..], c.addr, End(c))
      ensures BinsLinked(mem[..], bins[..], lists[k := Remove(lists[k], found)])
    {
      ghost var m, heads, b := mem[..], bins[..], bs[i];
      assert b in bs;
      SetHole(found, false, b);
      ghost var m1 := mem[..];
      MarkUsed(m, m1, heads, bs, lists, start, end, i, k);
      Unlink(mem, bins, k, found, lists);
      ghost var m2 := mem[..];
      ResetFound(found, b);
      GrantedInMemory(m, m1, m2, mem[..], heads, bs, lists, start, end, i, k);
      forall x | InBins(lists[k := Remove(lists[k], found)], x) ensures Apart(x, b) {
        RemainingApart(m, lists, k, b, x);
      }
      ResetUntouched(m2, mem[..], bins[..], lists[k := Remove(lists[k], found)], b);
    }

    method ResetFound(found: int, ghost b: Block)
      requires Fits(mem[..], b) && b.addr == found
      modifies mem
      ensures Within(old(mem[..]), mem[..], b.addr + NEXT_AT, b.addr + NODE_SIZE)
    {
      SetPrev(mem, found, 0, b);
      SetNext(mem, found, 0, b);
    }

    // Cut hole i in two, with a front of the given size, and link the tail.
    method SplitFound(found: int, size: int, ghost st: Arena, ghost i: nat)
      requires bins.Length == BIN_COUNT
      requires CutReady(mem[..], bins[..], st, start, end, i, size) && Splits(st.blocks[i], size)
      requires st.blocks[i].addr == found
      modifies mem, bins
      ensures Grantable(mem[..], bins[..], CutBlocks(st.blocks, i, size), CutBins(st, i, size), start, end, i,
                        BinIndex(st.blocks[i].size))
      ensures LiveSame(old(mem[..]), mem[..], st)
    {
      ghost var m := mem[..];
      var split := found + OVERHEAD + size;
      WriteTail(found, split, size, st, i);
      ghost var m1 := mem[..];
      LinkTail(split, st, i, size);
      ghost var m2 := mem[..];
      ShrinkHead(found, size, st, i);
      LiveSameTrans(m, m1, m2, st);
      LiveSameTrans(m, m2, mem[..], st);
    }

    method WriteTail(found: int, split: int, size: int, ghost st: Arena, ghost i: nat)
      requires CutReady(mem[..], bins[..], st, start, end, i, size)
      requires st.blocks[i].addr == found && split == found + OVERHEAD + size
      modifies mem
      ensures TailReady(mem[..], bins[..], st, st.bins, start, end, i, size)
      ensures LiveSame(old(mem[..]), mem[..], st)
      ensures forall x :: InBins(st.bins, x) ==> Apart(x, FreeBack(st.blocks[i], size))
      ensures GoodLists(mem[..], st.bins)
    {
      ghost var m, b, t := mem[..], st.blocks[i], FreeBack(st.blocks[i], size);
      assert b in st.blocks;
      ArenaFits(m, st, start, end, b);
      SetSize(split, GetSize(mem, found) - size - OVERHEAD, t);
      ghost var m1 := mem[..];
      SetHole(split, true, t);
      ghost var m2 := mem[..];
      SetFoot(GetFoot(split), split);
      CutTail(m, m1, m2, mem[..], b, size);
      TailWritten(m, mem[..], bins[..], st, start, end, i, size);
    }

    method LinkTail(split: int, ghost st: Arena, ghost i: nat, ghost size: int)
      requires bins.Length == BIN_COUNT
      requires TailReady(mem[..], bins[..], st, st.bins, start, end, i, size)
      requires forall x :: InBins(st.bins, x) ==> Apart(x, FreeBack(st.blocks[i], size))
      requires GoodLists(mem[..], st.bins)
      requires split == FreeBack(st.blocks[i], size).addr
      modifies mem, bins
      ensures TailReady(mem[..], bins[..], st, LinkedTail(st, i, size), start, end, i, size)
      ensures LiveSame(old(mem[..]), mem[..], st)
    {
      ghost var m, heads := mem[..], bins[..];
      var k := GetBinIndex(GetSize(mem, split));
      Link(mem, bins, k, split, st.bins, FreeBack(st.blocks[i], size));
      TailLinked(m, mem[..], heads, bins[..], st, start, end, i, size);
    }

    method ShrinkHead(found: int, size: int, ghost st: Arena, ghost i: nat)
      requires bins.Length == BIN_COUNT
      requires Inv(st, start, end) && i < |st.blocks|
      requires TailReady(mem[..], bins[..], st, LinkedTail(st, i, size), start, end, i, size)
      requires Splits(st.blocks[i], size) && st.blocks[i].addr == found
      modifies mem
      ensures Grantable(mem[..], bins[..], CutBlocks(st.blocks, i, size), CutBins(st, i, size), start, end, i,
                        BinIndex(st.blocks[i].size))
      ensures LiveSame(old(mem[..]), mem[..], st)
    {
      hide Tiles, Coalesced, BinsAgree, BinsLinked, CutBlocks, CutBins, LinkedTail, Grantable, LiveSame, BlockStored,
          Splice, Decode;
      ghost var m, b := mem[..], st.blocks[i];
      ArenaFits(m, st, start, end, b);
      SetSize(found, size, b);
      ghost var m1 := mem[..];
      SetFoot(GetFoot(found), found);
      CutHead(m, m1, mem[..], b, size);
      HeadDone(m, mem[..], bins[..], st, start, end, i, size);
    }

    // Hand out hole i for a rounded request.
    method AllocFound(found: int, k: nat, size: int, ghost st: Arena, ghost i: nat)
      requires bins.Length == BIN_COUNT
      requires Holds(mem[..], bins[..], st, start, end)
      requires i < |st.blocks| && st.blocks[i].hole && st.blocks[i].addr == found && k == BinIndex(st.blocks[i].size)
      requires 0 <= size <= st.blocks[i].size
      modifies mem, bins
      ensures Holds(mem[..], bins[..], AllocAt(st, i, size), start, end)
      ensures LiveSame(old(mem[..]), mem[..], st)
    {
      ghost var m, b := mem[..], st.blocks[i];
      assert b in st.blocks;
      if GetSize(mem, found) - size > OVERHEAD + MIN_ALLOC_SZ {
        SplitFound(found, size, st, i);
        ghost var m1 := mem[..];
        CutBlocksTile(st.blocks, start, end, i, size);
        Grant(found, k, CutBlocks(st.blocks, i, size), CutBins(st, i, size), i);
        CutGranted(mem[..], bins[..], st, start, end, i, size);
        LiveSameTrans(m, m1, mem[..], st);
      } else {
        HoldsGrantable(m, bins[..], st, start, end, i);
        Grant(found, k, st.blocks, st.bins, i);
        WholeGranted(mem[..], bins[..], st, start, end, i);
      }
    }

    // heap_alloc: best fit from the first bin that can serve the request upwards.
    method HeapAlloc(n: nat) returns (p: int)
      requires Valid()
      requires n + 3 < 0x1_0000_0000_0000_0000
      modifies this, mem, bins
      ensures Valid() && start == old(start) && end == old(end)
      ensures arena == Alloc(old(arena), n).0
      ensures p == (match Alloc(old(arena), n).1 case None => 0 case Some(q) => q)
      ensures LiveSame(old(mem[..]), mem[..], old(arena))
      ensures p != 0 ==> Usable(old(arena), arena, p, n)
      ensures p == 0 <==> NoHoleFor(old(arena), n)
    {
      AllocAnswers(arena, start, end, n);
      var size := (n + 3) / 4 * 4;
      var index := GetBinIndex(size);
      ghost var st := arena;
      var found := FindFit(index, size);
      index := found.1;
      if found.0 == 0 {
        return 0;
      }
      ChosenPlace(st, start, end, n);
      ghost var i: nat := IndexOf(st.blocks, Chosen(st, n).value.addr);
      AllocFound(found.0, index, size, st, i);
      arena := AllocAt(st, i, size);
      p := found.0 + USER_POINTER_OFFSET;
    }

    // Search the bins from k0 upwards.
    method FindFit(k0: nat, size: int) returns (r: (int, nat))
      requires Valid() && k0 <= BIN_MAX_IDX
      ensures FindBin(arena.bins, k0, size).None? ==> r.0 == 0
      ensures FindBin(arena.bins, k0, size).Some? ==>
                var k := FindBin(arena.bins, k0, size).value;
                r == (arena.bins[k][FirstFit(arena.bins[k], size)].addr, k) && r.0 != 0
    {
      var index := k0;
      assert Linked(mem[..], bins[index], arena.bins[index]);
      var found := GetBestFit(mem, bins, index, size, arena.bins[index]);
      while found == 0 && index < BIN_MAX_IDX
        invariant k0 <= index <= BIN_MAX_IDX
        invariant found == AddrAt(arena.bins[index], FirstFit(arena.bins[index], size))
        invariant found == 0 <==> FirstFit(arena.bins[index], size) == |arena.bins[index]|
        invariant forall j :: k0 <= j < index ==> FirstFit(arena.bins[j], size) == |arena.bins[j]|
        invariant FindBin(arena.bins, k0, size) == FindBin(arena.bins, index, size)
      {
        index := index + 1;
        assert Linked(mem[..], bins[index], arena.bins[index]);
        found := GetBestFit(mem, bins, index, size, arena.bins[index]);
      }
      r := (found, index);
    }

    // heap_free: coalesce with both neighbours, then mark and link.
    method HeapFree(p: int)
      requires Valid()
      requires p == 0 || IsLive(arena, p)
      modifies this, mem, bins
      ensures Valid() && start == old(start) && end == old(end)
      ensures arena == Free(old(arena), p)
      ensures forall b :: b in LiveBlocks(old(arena)) && UserPointer(b) != p ==>
                SameBytes(old(mem[..]), mem[..], b.addr, End(b))
    {
      hide FreeAt, Tiles, Coalesced, Pending, BlockStored, BinsLinked, IndexOf;
      if p == 0 {
        return;
      }
      LiveIndex(arena, start, end, p);
      var head := p - USER_POINTER_OFFSET;
      ghost var i: nat := IndexOf(arena.blocks, head);
      HoldsPending(mem[..], bins[..], arena, start, end, i);
      FreeBlock(head, arena, i);
      arena := FreeAt(arena, i);
      LiveDistinct(old(arena), start, end, i);
    }

    // heap_free on the block at head.
    method FreeBlock(block: int, ghost st: Arena, ghost i: nat)
      requires bins.Length == BIN_COUNT
      requires Pending(mem[..], bins[..], st, start, end, i) && block == st.blocks[i].addr
      modifies mem, bins
      ensures Holds(mem[..], bins[..], FreeAt(st, i), start, end)
      ensures KeepsLive(old(mem[..]), mem[..], st, st.blocks[i])
    {
      hide Tiles, Coalesced, Sorted, DistinctAddrs, BlockStored, BinsLinked, Take, Give, Join, KeepsLive;
      ghost var m := mem[..];
      var hasPrev, prev, hasNext, next := ReadNeighbours(block, st, i);
      ghost var (st1, j) := JoinPrev(st, i);
      JoinPrevKeepsInv(st, start, end, i);
      var head := CoalescePrev(block, hasPrev, prev, st, i);
      ghost var m1 := mem[..];
      CoalesceNext(head, hasNext, next, st1, j);
      ghost var m2, st2 := mem[..], JoinNext(st1, j);
      JoinNextKeepsInv(st1, start, end, j);
      GiveBlock(head, st2, j);
      FreeKeepsLive(m, m1, m2, mem[..], st, start, end, i);
    }

    // The first block has no previous block and the last block has no next one.
    method ReadNeighbours(block: int, ghost st: Arena, ghost i: nat)
      returns (hasPrev: bool, prev: int, hasNext: bool, next: int)
      requires Pending(mem[..], bins[..], st, start, end, i) && block == st.blocks[i].addr
      ensures hasPrev <==> i > 0
      ensures hasPrev ==> prev == st.blocks[i - 1].addr
      ensures hasNext <==> i + 1 < |st.blocks|
      ensures hasNext ==> next == st.blocks[i + 1].addr
    {
      Neighbours(mem[..], bins[..], st, start, end, i);
      hasPrev := block != start;
      prev := if hasPrev then GetPtr(mem, block - FOOT_SIZE) else 0;
      next := GetFoot(block) + FOOT_SIZE;
      hasNext := next != end;
    }

    method CoalescePrev(block: int, hasPrev: bool, prev: int, ghost st: Arena, ghost i: nat) returns (head: int)
      requires bins.Length == BIN_COUNT
      requires Pending(mem[..], bins[..], st, start, end, i) && block == st.blocks[i].addr
      requires hasPrev <==> i > 0
      requires hasPrev ==> prev == st.blocks[i - 1].addr
      modifies mem, bins
      ensures var (st1, j) := JoinPrev(st, i);
              Pending(mem[..], bins[..], st1, start, end, j) && head == st1.blocks[j].addr
      ensures KeepsLive(old(mem[..]), mem[..], st, st.blocks[i])
    {
      hide BlockStored, BlockSized, BinsLinked, Inv;
      Neighbours(mem[..], bins[..], st, start, end, i);
      head := block;
      if hasPrev && Load(mem[..], prev, 4) != 0 {
        MergePrev(prev, head, st, i);
        head := prev;
      }
    }

    method CoalesceNext(head: int, hasNext: bool, next: int, ghost st: Arena, ghost i: nat)
      requires bins.Length == BIN_COUNT
      requires Pending(mem[..], bins[..], st, start, end, i) && head == st.blocks[i].addr
      requires hasNext <==> i + 1 < |st.blocks|
      requires hasNext ==> next == st.blocks[i + 1].addr
      modifies mem, bins
      ensures Pending(mem[..], bins[..], JoinNext(st, i), start, end, i) && head == JoinNext(st, i).blocks[i].addr
      ensures KeepsLive(old(mem[..]), mem[..], st, st.blocks[i])
    {
      Neighbours(mem[..], bins[..], st, start, end, i);
      if hasNext && Load(mem[..], next, 4) != 0 {
        MergeNext(head, next, st, i);
      }
    }
  }

  lemma FreeKeepsLive(m: seq<byte>, m1: seq<byte>, m2: seq<byte>, m3: seq<byte>, st: Arena, lo: int, hi: int, i: nat)
    requires Inv(st, lo, hi) && i < |st.blocks| && !st.blocks[i].hole
    requires var (st1, j) := JoinPrev(st, i);
      && KeepsLive(m, m1, st, st.blocks[i])
      && KeepsLive(m1, m2, st1, st1.blocks[j])
      && KeepsLive(m2, m3, JoinNext(st1, j), JoinNext(st1, j).blocks[j])
    ensures KeepsLive(m, m3, st, st.blocks[i])
  {
    var (st1, j) := JoinPrev(st, i);
    var st2 := JoinNext(st1, j);
    JoinPrevKeepsInv(st, lo, hi, i);
    JoinPrevLive(st, lo, hi, i);
    JoinNextLive(st1, lo, hi, j);
    KeepsLiveChain(m, m1, m2, st, st1, st.blocks[i], st1.blocks[j]);
    KeepsLiveChain(m, m2, m3, st, st2, st.blocks[i], st2.blocks[j]);
  }

  // The block b is in use after an allocation and was not before; its payload starts at p and
  // takes n bytes in front of its footer.
  ghost predicate UsableBlock(st: Arena, st1: Arena, p: int, n: nat, b: Block) {
    && b in LiveBlocks(st1) && b !in LiveBlocks(st) && UserPointer(b) == p
    && forall t :: p <= t < p + n ==> InPayload(b, t) && t < End(b) - FOOT_SIZE
  }

  ghost predicate Usable(st: Arena, st1: Arena, p: int, n: nat) {
    exists b :: UsableBlock(st, st1, p, n, b)
  }

  // No hole has as many bytes as the least multiple of four that is not below n: rounded down
  // to a multiple of four, its size does not cover n.
  ghost predicate NoHoleFor(st: Arena, n: nat) {
    forall h :: h in st.blocks && h.hole ==> h.size - h.size % 4 < n
  }

  lemma AllocAnswers(st: Arena, lo: int, hi: int, n: nat)
    requires Inv(st, lo, hi)
    ensures var (st1, p) := Alloc(st, n);
            && (p.None? <==> NoHoleFor(st, n))
            && (p.Some? ==> p.value != 0 && Usable(st, st1, p.value, n))
  {
    var m := n + (4 - n % 4) % 4;
    hide Alloc, LiveBlocks, Round4, Inv, Usable;
    AllocIsCompleteBestFit(st, lo, hi, n, m);
    forall h | h in st.blocks ensures h.size < m <==> h.size - h.size % 4 < n {
      Multiples(h.size, n, m);
    }
    if Alloc(st, n).1.Some? {
      AllocUsable(st, lo, hi, n, m);
    }
  }

  lemma AllocUsable(st: Arena, lo: int, hi: int, n: nat, m: nat)
    requires Inv(st, lo, hi) && m % 4 == 0 && n <= m < n + 4 && Alloc(st, n).1.Some?
    ensures Alloc(st, n).1.value != 0 && Usable(st, Alloc(st, n).0, Alloc(st, n).1.value, n)
  {
    hide Alloc, LiveBlocks, Round4, Coalesced, Sorted, DistinctAddrs;
    var b, h := AllocAddsOneBlock(st, lo, hi, n, m);
    TilesInside(st.blocks, lo, hi, h);
    var st1 := Alloc(st, n).0;
    assert LiveBlocks(st1) == LiveBlocks(st) + {b};
    assert b in LiveBlocks(st1);
    forall t | UserPointer(b) <= t < UserPointer(b) + n ensures InPayload(b, t) && t < End(b) - FOOT_SIZE {
    }
    assert UsableBlock(st, st1, UserPointer(b), n, b);
  }

  lemma Multiples(k: int, n: nat, m: nat)
    requires m % 4 == 0 && n <= m < n + 4
    ensures k < m <==> k - k % 4 < n
  {
  }

  // Where heap_alloc finds the block it hands out.
  lemma ChosenPlace(st: Arena, lo: int, hi: int, n: nat)
    requires Inv(st, lo, hi)
    requires FindBin(st.bins, BinIndex(Round4(n)), Round4(n)).Some?
    ensures Chosen(st, n).Some?
    ensures var k, b := FindBin(st.bins, BinIndex(Round4(n)), Round4(n)).value, Chosen(st, n).value;
            var i := IndexOf(st.blocks, b.addr);
            && i < |st.blocks| && st.blocks[i] == b && b.hole && k == BinIndex(b.size)
            && 0 <= Round4(n) <= b.size
            && b.addr == st.bins[k][FirstFit(st.bins[k], Round4(n))].addr
            && Alloc(st, n) == (AllocAt(st, i, Round4(n)), Some(UserPointer(b)))
  {
    hide AllocAt, Tiles, Coalesced, Sorted, DistinctAddrs, BinIndex, FirstFit, IndexOf;
    ChosenIsHole(st, lo, hi, n);
    var k := FindBin(st.bins, BinIndex(Round4(n)), Round4(n)).value;
    assert Chosen(st, n).value in st.bins[k];
  }

  lemma MergeKeepsLive(m: seq<byte>, m1: seq<byte>, m2: seq<byte>, st: Arena, lo: int, hi: int, h: nat, i: nat)
    requires Inv(st, lo, hi)
    requires h < |st.blocks| && i < |st.blocks| && st.blocks[h].hole && !st.blocks[i].hole
    requires LiveSame(m, m1, st)
    requires KeepsLiveBut(m1, m2, Take(st, h), Take(st, h).blocks[h], Take(st, h).blocks[i])
    ensures KeepsLive(m, m2, st, st.blocks[i])
  {
    TakeLive(st, lo, hi, h);
    KeepsLiveTrans(m, m1, m2, st, Take(st, h), Take(st, h).blocks[h], st.blocks[i]);
  }

  // Neighbours b and c carry their sizes, and their sizes add up to one that can be written.
  ghost predicate Mergeable(m: seq<byte>, b: Block, c: Block) {
    && BlockSized(m, b) && BlockSized(m, c) && End(b) == c.addr && b.addr < ADDRESS_LIMIT
    && b.size + OVERHEAD + c.size < 0x1_0000_0000
  }

  lemma TwoMeet(m: seq<byte>, heads: seq<int>, st: Arena, lo: int, hi: int, i: nat)
    requires TwoPending(m, heads, st, lo, hi, i, i + 1)
    ensures i + 1 < |st.blocks| && Mergeable(m, st.blocks[i], st.blocks[i + 1])
  {
    ArenaFits(m, st, lo, hi, st.blocks[i]);
    ArenaFits(m, st, lo, hi, st.blocks[i + 1]);
    TilesOrdered(st.blocks, lo, hi, i, i + 1);
  }

  lemma TwoJoined(m: seq<byte>, m': seq<byte>, heads: seq<int>, st: Arena, lo: int, hi: int, i: nat)
    requires TwoPending(m, heads, st, lo, hi, i, i + 1)
    requires Within(m, m', st.blocks[i].addr, End(st.blocks[i + 1]))
    requires BlockSized(m', Merged(st.blocks[i], st.blocks[i + 1]))
    ensures Pending(m', heads, Join(st, i), lo, hi, i)
    ensures KeepsLiveBut(m, m', st, st.blocks[i], st.blocks[i + 1])
    ensures KeepsLiveBut(m, m', st, st.blocks[i + 1], st.blocks[i])
  {
    hide BlockSized, Within, BinsLinked, Inv, BlockStored;
    JoinInMemory(m, m', heads, st, lo, hi, i);
  }

  // The two writes that merge neighbours b and c.
  lemma MergedSized(m1: seq<byte>, m2: seq<byte>, m3: seq<byte>, b: Block, c: Block)
    requires BlockSized(m1, b) && BlockSized(m1, c) && End(b) == c.addr
    requires Wrote(m1, m2, b.addr + SIZE_AT, 4, b.size + OVERHEAD + c.size)
    requires Wrote(m2, m3, c.addr + NODE_SIZE + c.size, 8, b.addr)
    ensures BlockSized(m3, Merged(b, c))
    ensures Within(m1, m3, b.addr, End(c))
  {
  }

  lemma AbsorbedSized(m1: seq<byte>, m2: seq<byte>, m3: seq<byte>, m4: seq<byte>, b: Block, c: Block)
    requires BlockSized(m1, b) && BlockSized(m1, c) && End(b) == c.addr
    requires Wrote(m1, m2, b.addr + SIZE_AT, 4, b.size + OVERHEAD + c.size)
    requires Within(m2, m3, c.addr, End(c))
    requires Wrote(m3, m4, c.addr + NODE_SIZE + c.size, 8, b.addr)
    ensures BlockSized(m4, Merged(b, c))
    ensures Within(m1, m4, b.addr, End(c))
  {
    LoadSame(m2, m3, b.addr + SIZE_AT, 4);
  }

  lemma HoldsPending(m: seq<byte>, heads: seq<int>, st: Arena, lo: int, hi: int, i: nat)
    requires Holds(m, heads, st, lo, hi)
    requires i < |st.blocks| && !st.blocks[i].hole
    ensures Pending(m, heads, st, lo, hi, i)
  {
    assert st.blocks[i] in st.blocks;
  }

  // Only block i has its pointer.
  lemma LiveDistinct(st: Arena, lo: int, hi: int, i: nat)
    requires Inv(st, lo, hi)
    requires i < |st.blocks|
    ensures forall b :: b in LiveBlocks(st) && UserPointer(b) != UserPointer(st.blocks[i]) ==> b != st.blocks[i]
  {
  }

  // What heap_free reads from memory about the neighbours of block i.
  lemma Neighbours(m: seq<byte>, heads: seq<int>, st: Arena, lo: int, hi: int, i: nat)
    requires Pending(m, heads, st, lo, hi, i)
    ensures Fits(m, st.blocks[i]) && Load(m, st.blocks[i].addr + SIZE_AT, 4) == st.blocks[i].size
    ensures st.blocks[i].addr == lo <==> i == 0
    ensures End(st.blocks[i]) == hi <==> i + 1 == |st.blocks|
    ensures i > 0 ==>
              && st.blocks[i].addr >= FOOT_SIZE && Fits(m, st.blocks[i - 1])
              && Load(m, st.blocks[i].addr - FOOT_SIZE, 8) == st.blocks[i - 1].addr
              && Load(m, st.blocks[i - 1].addr, 4) == Word(st.blocks[i - 1].hole)
    ensures i + 1 < |st.blocks| ==>
              && Fits(m, st.blocks[i + 1]) && End(st.blocks[i]) == st.blocks[i + 1].addr
              && Load(m, st.blocks[i + 1].addr, 4) == Word(st.blocks[i + 1].hole)
  {
    hide Coalesced, BinsAgree, BinsLinked, Decode;
    TilesDistinct(st.blocks, lo, hi);
    if i > 0 {
      assert st.blocks[i - 1] in st.blocks && st.blocks[0] in st.blocks;
      TilesOrdered(st.blocks, lo, hi, i - 1, i);
      TilesOrdered(st.blocks, lo, hi, 0, i);
    }
    if i + 1 < |st.blocks| {
      assert st.blocks[i + 1] in st.blocks;
      TilesOrdered(st.blocks, lo, hi, i, i + 1);
      TilesInside(st.blocks, lo, hi, st.blocks[i + 1]);
    } else {
      LastReaches(st.blocks, lo, hi);
    }
  }

  lemma {:induction false} LastReaches(bs: seq<Block>, lo: int, hi: int)
    requires Tiles(bs, lo, hi) && bs != []
    ensures End(bs[|bs| - 1]) == hi
  {
    if |bs| > 1 {
      LastReaches(bs[1..], End(bs[0]), hi);
    } else {
      assert bs[1..] == [];
    }
  }

  // ---------- initialisation ----------

  lemma InitialStored(m: seq<byte>, m1: seq<byte>, m2: seq<byte>, m3: seq<byte>, heads: seq<int>, lo: int, hi: int)
    requires ArenaBounds(lo, hi) && hi <= |m| <= ADDRESS_LIMIT
    requires |heads| == BIN_COUNT && forall k :: 0 <= k < BIN_COUNT ==> heads[k] == 0
    requires Wrote(m, m1, lo, 4, Word(true))
    requires Wrote(m1, m2, lo + SIZE_AT, 4, hi - lo - OVERHEAD)
    requires Wrote(m2, m3, hi - FOOT_SIZE, 8, lo)
    ensures BlockStored(m3, InitialHole(lo, hi))
    ensures Within(m, m3, lo, hi)
    ensures BinsLinked(m3, heads, EmptyBins())
    ensures GoodLists(m3, EmptyBins())
  {
  }

  lemma InitialHolds(m: seq<byte>, m3: seq<byte>, m4: seq<byte>, heads: seq<int>, lo: int, hi: int)
    requires ArenaBounds(lo, hi) && Bounds(m, lo, hi)
    requires BlockStored(m3, InitialHole(lo, hi)) && Within(m, m3, lo, hi)
    requires OnlyLinks(m3, m4, [] + [InitialHole(lo, hi)])
    requires var b := InitialHole(lo, hi); var k := BinIndex(b.size);
             BinsLinked(m4, heads, EmptyBins()[k := Insert(EmptyBins()[k], b)])
    ensures Holds(m4, heads, Init(lo, hi), lo, hi)
    ensures Within(m, m4, lo, hi)
  {
    var b := InitialHole(lo, hi);
    InitInv(lo, hi);
    assert Insert([], b) == [b];
    LinksKeepEdges(m3, m4, [b], b);
    EdgesKeep(m3, m4, b);
    forall t | 0 <= t < |m| && !(lo <= t < hi) ensures m4[t] == m[t] {
      assert !LinkByte([b], t);
    }
  }

  // ---------- payloads ----------

  // The bytes a caller may use: they start at the next field and span the size.
  ghost predicate InPayload(b: Block, t: int) {
    UserPointer(b) <= t < UserPointer(b) + b.size
  }

  // Payloads of different blocks in use do not overlap, and a payload is clear of the
  // hole and size words and the footer of every block and of the whole header of
  // every hole.
  lemma PayloadClear(st: Arena, lo: int, hi: int, b: Block, c: Block, t: int)
    requires Inv(st, lo, hi)
    requires b in LiveBlocks(st) && c in st.blocks && InPayload(b, t)
    ensures lo <= t < hi
    ensures c in LiveBlocks(st) && InPayload(c, t) ==> c == b
    ensures !(c.addr <= t < c.addr + NEXT_AT) && !(c.addr + NODE_SIZE + c.size <= t < End(c))
    ensures c.hole ==> !(c.addr <= t < End(c))
  {
    TilesInside(st.blocks, lo, hi, b);
    TilesInside(st.blocks, lo, hi, c);
    if c != b {
      BlocksApart(st.blocks, lo, hi, b, c);
    }
  }

  // So writing into it disturbs nothing.
  lemma PayloadWrite(m: seq<byte>, m': seq<byte>, heads: seq<int>, st: Arena, lo: int, hi: int, b: Block)
    requires Holds(m, heads, st, lo, hi)
    requires b in LiveBlocks(st)
    requires |m'| == |m| && forall t :: 0 <= t < |m| && !InPayload(b, t) ==> m'[t] == m[t]
    ensures Holds(m', heads, st, lo, hi)
  {
    forall c | c in st.blocks ensures BlockStored(m', c) {
      forall t | InPayload(b, t)
        ensures !(c.addr <= t < c.addr + NEXT_AT) && !(c.addr + NODE_SIZE + c.size <= t < End(c))
      {
        PayloadClear(st, lo, hi, b, c, t);
      }
      EdgesKeep(m, m', c);
    }
    forall x | InBins(st.bins, x) ensures NodeUntouched(m, m', x) {
      InBinsIsHole(st, x);
      BlocksApart(st.blocks, lo, hi, x, b);
      TilesInside(st.blocks, lo, hi, x);
    }
    BinsUntouched(m, m', heads, st.bins);
  }
}
