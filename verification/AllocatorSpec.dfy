// init_heap, heap_alloc and heap_free as functions from arena to arena, and what
// holds of every run of them.
module AllocatorSpec {
  import opened Options
  import opened BinLists
  import opened ArenaSpec

  // ---------- the operations ----------

  function InitialHole(lo: int, hi: int): Block {
    Block(lo, hi - lo - OVERHEAD, true)
  }

  function EmptyBins(): (e: seq<seq<Block>>)
    ensures |e| == BIN_COUNT
  {
    seq(BIN_COUNT, (k: nat) => [])
  }

  function Init(lo: int, hi: int): Arena {
    var b := InitialHole(lo, hi);
    Arena([b], EmptyBins()[BinIndex(b.size) := [b]])
  }

  function Round4(n: int): int {
    (n + 3) / 4 * 4
  }

  // The first bin, from k upwards, with an entry that covers size.
  function FindBin(bins: seq<seq<Block>>, k: nat, size: int): (r: Option<nat>)
    requires |bins| == BIN_COUNT && k <= BIN_MAX_IDX
    ensures r.Some? ==> k <= r.value <= BIN_MAX_IDX && FirstFit(bins[r.value], size) < |bins[r.value]|
    ensures forall j :: k <= j <= BIN_MAX_IDX && (r.Some? ==> j < r.value) ==> FirstFit(bins[j], size) == |bins[j]|
    decreases BIN_MAX_IDX - k
  {
    if FirstFit(bins[k], size) < |bins[k]| then Some(k)
    else if k >= BIN_MAX_IDX then None
    else FindBin(bins, k + 1, size)
  }

  // The hole heap_alloc settles on for a request of n bytes.
  function Chosen(st: Arena, n: nat): (r: Option<Block>)
    requires |st.bins| == BIN_COUNT
  {
    match FindBin(st.bins, BinIndex(Round4(n)), Round4(n))
    case None => None
    case Some(k) => Some(st.bins[k][FirstFit(st.bins[k], Round4(n))])
  }

  predicate Splits(b: Block, size: int) {
    b.size - size > OVERHEAD + MIN_ALLOC_SZ
  }

  function UserPointer(b: Block): int {
    b.addr + USER_POINTER_OFFSET
  }

  // Hand out hole i for a rounded request, giving back the rest if it is worth a block.
  function AllocAt(st: Arena, i: nat, size: int): Arena
    requires i < |st.blocks| && |st.bins| == BIN_COUNT
  {
    var st1 := Take(st, i);
    if Splits(st.blocks[i], size) then Give(Cut(st1, i, size), i + 1) else st1
  }

  function Alloc(st: Arena, n: nat): (r: (Arena, Option<int>))
    requires |st.bins| == BIN_COUNT
  {
    match Chosen(st, n)
    case None => (st, None)
    case Some(b) =>
      var i := IndexOf(st.blocks, b.addr);
      if i == |st.blocks| then (st, None) // never: a bin entry is a block of the arena
      else (AllocAt(st, i, Round4(n)), Some(UserPointer(b)))
  }

  ghost predicate IsLive(st: Arena, p: int) {
    exists b :: b in st.blocks && !b.hole && UserPointer(b) == p
  }

  // Merge used block i with the block before it, if that is a hole.
  function JoinPrev(st: Arena, i: nat): (r: (Arena, nat))
    requires i < |st.blocks| && |st.bins| == BIN_COUNT
    ensures r.1 < |r.0.blocks| && |r.0.bins| == BIN_COUNT
  {
    if i > 0 && st.blocks[i - 1].hole then (Join(Take(st, i - 1), i - 1), i - 1) else (st, i)
  }

  // Merge used block i with the block after it, if that is a hole.
  function JoinNext(st: Arena, i: nat): (r: Arena)
    requires i < |st.blocks| && |st.bins| == BIN_COUNT
    ensures i < |r.blocks| && |r.bins| == BIN_COUNT
  {
    if i + 1 < |st.blocks| && st.blocks[i + 1].hole then Join(Take(st, i + 1), i) else st
  }

  function FreeAt(st: Arena, i: nat): Arena
    requires i < |st.blocks| && |st.bins| == BIN_COUNT
  {
    var (st1, j) := JoinPrev(st, i);
    Give(JoinNext(st1, j), j)
  }

  // Freeing NULL does nothing; otherwise p must be a live pointer.
  function Free(st: Arena, p: int): Arena
    requires |st.bins| == BIN_COUNT
  {
    var i := IndexOf(st.blocks, p - USER_POINTER_OFFSET);
    if p == 0 || i == |st.blocks| then st else FreeAt(st, i)
  }

  // ---------- every operation keeps the invariant ----------

  ghost predicate ArenaBounds(lo: int, hi: int) {
    0 < lo && lo + OVERHEAD <= hi
  }

  lemma InitInv(lo: int, hi: int)
    requires ArenaBounds(lo, hi)
    ensures Inv(Init(lo, hi), lo, hi)
  {
    var b := InitialHole(lo, hi);
    assert [b][1..] == [];
  }

  // The index of a block is found by its address.
  lemma IndexOfMember(bs: seq<Block>, lo: int, hi: int, b: Block)
    requires Tiles(bs, lo, hi) && b in bs
    ensures IndexOf(bs, b.addr) < |bs| && bs[IndexOf(bs, b.addr)] == b
  {
    TilesDistinct(bs, lo, hi);
  }

  lemma ChosenIsHole(st: Arena, lo: int, hi: int, n: nat)
    requires Inv(st, lo, hi)
    requires Chosen(st, n).Some?
    ensures var b := Chosen(st, n).value;
            && b in st.blocks && b.hole && Round4(n) <= b.size
            && b == st.bins[BinIndex(b.size)][FirstFit(st.bins[BinIndex(b.size)], Round4(n))]
            && IndexOf(st.blocks, b.addr) < |st.blocks|
            && st.blocks[IndexOf(st.blocks, b.addr)] == b
  {
    var k := FindBin(st.bins, BinIndex(Round4(n)), Round4(n)).value;
    var b := Chosen(st, n).value;
    assert b in st.bins[k];
    IndexOfMember(st.blocks, lo, hi, b);
  }

  lemma AllocAtKeepsInv(st: Arena, lo: int, hi: int, i: nat, size: int)
    requires Inv(st, lo, hi)
    requires i < |st.blocks| && st.blocks[i].hole
    requires 0 <= size <= st.blocks[i].size
    ensures Inv(AllocAt(st, i, size), lo, hi)
  {
    TakeKeepsInv(st, i, lo, hi);
    var st1 := Take(st, i);
    if Splits(st.blocks[i], size) {
      CutKeepsInv(st1, i, size, lo, hi);
      if i + 1 < |st.blocks| {
        CoalescedAt(st.blocks, i);
      }
      GiveKeepsInv(Cut(st1, i, size), i + 1, lo, hi);
    }
  }

  lemma AllocKeepsInv(st: Arena, lo: int, hi: int, n: nat)
    requires Inv(st, lo, hi)
    ensures Inv(Alloc(st, n).0, lo, hi)
  {
    hide AllocAt, Tiles, Coalesced, FindBin, Sorted, DistinctAddrs, BinIndex, FirstFit, IndexOf;
    if Chosen(st, n).Some? {
      ChosenIsHole(st, lo, hi, n);
      AllocAtKeepsInv(st, lo, hi, IndexOf(st.blocks, Chosen(st, n).value.addr), Round4(n));
    }
  }

  lemma JoinPrevKeepsInv(st: Arena, lo: int, hi: int, i: nat)
    requires Inv(st, lo, hi)
    requires i < |st.blocks| && !st.blocks[i].hole
    ensures var (st1, j) := JoinPrev(st, i);
            && Inv(st1, lo, hi)
            && !st1.blocks[j].hole && UsedAt(st1.blocks, j - 1)
            && End(st1.blocks[j]) == End(st.blocks[i])
            && |st1.blocks| - j == |st.blocks| - i
            && (i + 1 < |st.blocks| ==> st1.blocks[j + 1] == st.blocks[i + 1])
  {
    if i > 0 && st.blocks[i - 1].hole {
      TakeKeepsInv(st, i - 1, lo, hi);
      JoinKeepsInv(Take(st, i - 1), i - 1, lo, hi);
      TilesOrdered(st.blocks, lo, hi, i - 1, i);
      if i > 1 {
        CoalescedAt(st.blocks, i - 2);
      }
    }
  }

  lemma JoinNextKeepsInv(st: Arena, lo: int, hi: int, i: nat)
    requires Inv(st, lo, hi)
    requires i < |st.blocks| && !st.blocks[i].hole && UsedAt(st.blocks, i - 1)
    ensures var st1 := JoinNext(st, i);
            Inv(st1, lo, hi) && !st1.blocks[i].hole && UsedAt(st1.blocks, i - 1) && UsedAt(st1.blocks, i + 1)
  {
    if i + 1 < |st.blocks| && st.blocks[i + 1].hole {
      TakeKeepsInv(st, i + 1, lo, hi);
      JoinKeepsInv(Take(st, i + 1), i, lo, hi);
      if i + 2 < |st.blocks| {
        CoalescedAt(st.blocks, i + 1);
      }
    }
  }

  lemma FreeAtKeepsInv(st: Arena, lo: int, hi: int, i: nat)
    requires Inv(st, lo, hi)
    requires i < |st.blocks| && !st.blocks[i].hole
    ensures Inv(FreeAt(st, i), lo, hi)
  {
    JoinPrevKeepsInv(st, lo, hi, i);
    var (st1, j) := JoinPrev(st, i);
    JoinNextKeepsInv(st1, lo, hi, j);
    GiveKeepsInv(JoinNext(st1, j), j, lo, hi);
  }

  lemma LiveIndex(st: Arena, lo: int, hi: int, p: int)
    requires Inv(st, lo, hi) && IsLive(st, p)
    ensures var i := IndexOf(st.blocks, p - USER_POINTER_OFFSET);
            i < |st.blocks| && !st.blocks[i].hole && UserPointer(st.blocks[i]) == p
    ensures lo + USER_POINTER_OFFSET <= p
  {
    var b :| b in st.blocks && !b.hole && UserPointer(b) == p;
    IndexOfMember(st.blocks, lo, hi, b);
    TilesInside(st.blocks, lo, hi, b);
  }

  lemma FreeKeepsInv(st: Arena, lo: int, hi: int, p: int)
    requires Inv(st, lo, hi)
    requires p == 0 || IsLive(st, p)
    ensures Inv(Free(st, p), lo, hi)
  {
    if p != 0 {
      LiveIndex(st, lo, hi, p);
      FreeAtKeepsInv(st, lo, hi, IndexOf(st.blocks, p - USER_POINTER_OFFSET));
    }
  }

  // ---------- best fit over the whole arena ----------

  lemma ChosenCovers(st: Arena, lo: int, hi: int, n: nat, h: Block)
    requires Inv(st, lo, hi)
    requires h in st.blocks && h.hole && Round4(n) <= h.size
    ensures Chosen(st, n).Some? && Chosen(st, n).value.size <= h.size
  {
    var size := Round4(n);
    var j := BinIndex(h.size);
    BinIndexMonotone(size, h.size);
    FirstFitIsBestFit(st.bins[j], size, h);
    var k := FindBin(st.bins, BinIndex(size), size).value;
    var b := Chosen(st, n).value;
    assert b in st.bins[k];
    if h.size < b.size {
      BinIndexMonotone(h.size, b.size);
    }
  }

  // A request for n bytes is one for m, the least multiple of four that is not below n:
  // heap_alloc fails exactly when no hole of the whole arena has m bytes, and otherwise
  // takes a smallest hole that has.
  lemma AllocIsCompleteBestFit(st: Arena, lo: int, hi: int, n: nat, m: nat)
    requires Inv(st, lo, hi)
    requires m % 4 == 0 && n <= m < n + 4
    ensures Alloc(st, n).1.None? <==> (forall h :: h in st.blocks && h.hole ==> h.size < m)
    ensures Alloc(st, n).1.Some? ==>
              exists b :: b in st.blocks && b.hole && UserPointer(b) == Alloc(st, n).1.value && m <= b.size
                          && forall h :: h in st.blocks && h.hole && m <= h.size ==> b.size <= h.size
  {
    RoundIs(n, m);
    if Chosen(st, n).Some? {
      ChosenIsHole(st, lo, hi, n);
    }
    forall h | h in st.blocks && h.hole && m <= h.size
      ensures Chosen(st, n).Some? && Chosen(st, n).value.size <= h.size
    {
      ChosenCovers(st, lo, hi, n, h);
    }
  }

  // ---------- what one operation does to the live blocks ----------

  // The blocks in use.
  ghost function LiveBlocks(st: Arena): set<Block> {
    set b | b in st.blocks && !b.hole
  }

  lemma TakeLive(st: Arena, lo: int, hi: int, i: nat)
    requires Inv(st, lo, hi)
    requires i < |st.blocks| && st.blocks[i].hole
    ensures st.blocks[i].(hole := false) !in LiveBlocks(st)
    ensures LiveBlocks(Take(st, i)) == LiveBlocks(st) + {st.blocks[i].(hole := false)}
  {
    TilesDistinct(st.blocks, lo, hi);
    SpliceMembers(st.blocks, i, 1, [st.blocks[i].(hole := false)], lo, hi);
  }

  lemma GiveLive(st: Arena, lo: int, hi: int, i: nat)
    requires Inv(st, lo, hi)
    requires i < |st.blocks| && !st.blocks[i].hole
    ensures LiveBlocks(Give(st, i)) == LiveBlocks(st) - {st.blocks[i]}
  {
    SpliceMembers(st.blocks, i, 1, [st.blocks[i].(hole := true)], lo, hi);
  }

  lemma CutLive(st: Arena, lo: int, hi: int, i: nat, size: int)
    requires Inv(st, lo, hi)
    requires i < |st.blocks| && !st.blocks[i].hole
    ensures LiveBlocks(Cut(st, i, size)) ==
            LiveBlocks(st) - {st.blocks[i]} + {Front(st.blocks[i], size), Back(st.blocks[i], size)}
  {
    SpliceMembers(st.blocks, i, 1, [Front(st.blocks[i], size), Back(st.blocks[i], size)], lo, hi);
  }

  lemma JoinLive(st: Arena, lo: int, hi: int, i: nat)
    requires Inv(st, lo, hi)
    requires i + 1 < |st.blocks| && !st.blocks[i].hole && !st.blocks[i + 1].hole
    ensures LiveBlocks(Join(st, i)) ==
            LiveBlocks(st) - {st.blocks[i], st.blocks[i + 1]} + {Merged(st.blocks[i], st.blocks[i + 1])}
  {
    SpliceMembers(st.blocks, i, 2, [Merged(st.blocks[i], st.blocks[i + 1])], lo, hi);
  }

  // The block handed out for hole i.
  function Granted(h: Block, size: int): Block {
    if Splits(h, size) then Front(h, size) else h.(hole := false)
  }

  lemma NotLiveInsideHole(st: Arena, lo: int, hi: int, h: Block, c: Block)
    requires Inv(st, lo, hi)
    requires h in st.blocks && h.hole
    requires h.addr <= c.addr < End(h)
    ensures c !in LiveBlocks(st)
  {
    if c in LiveBlocks(st) {
      TilesInside(st.blocks, lo, hi, c);
      TilesDisjoint(st.blocks, lo, hi, h, c);
    }
  }

  lemma AllocAtLive(st: Arena, lo: int, hi: int, i: nat, size: int)
    requires Inv(st, lo, hi)
    requires i < |st.blocks| && st.blocks[i].hole
    requires 0 <= size <= st.blocks[i].size
    ensures Granted(st.blocks[i], size) !in LiveBlocks(st)
    ensures LiveBlocks(AllocAt(st, i, size)) == LiveBlocks(st) + {Granted(st.blocks[i], size)}
  {
    hide Coalesced, Sorted, DistinctAddrs, BinIndex, LiveBlocks;
    var h := st.blocks[i];
    TakeLive(st, lo, hi, i);
    TakeKeepsInv(st, i, lo, hi);
    TilesInside(st.blocks, lo, hi, h);
    NotLiveInsideHole(st, lo, hi, h, Granted(h, size));
    if Splits(h, size) {
      var st1 := Take(st, i);
      var L, u, f, r := LiveBlocks(st), h.(hole := false), Front(h, size), Back(h, size);
      NotLiveInsideHole(st, lo, hi, h, r);
      assert st1.blocks[i] == u;
      CutLive(st1, lo, hi, i, size);
      CutKeepsInv(st1, i, size, lo, hi);
      var st2 := Cut(st1, i, size);
      assert st2.blocks[i + 1] == r;
      GiveLive(st2, lo, hi, i + 1);
      assert L + {u} - {u} + {f, r} - {r} == L + {f};
    }
  }

  // The block b that a request for n bytes is given of hole h, of which m bytes are asked
  // for: it starts where the hole does, and ends there too unless the rest is worth a block.
  ghost predicate Serves(b: Block, h: Block, n: nat, m: nat) {
    && !b.hole && b.addr == h.addr && n <= m <= h.size
    && b.size == if h.size - m > 24 + 8 + 4 then m else h.size
  }

  // heap_alloc leaves every block in use as it was and adds exactly one, given of a hole;
  // from the returned pointer on it has n bytes for the caller in front of its footer.
  lemma AllocAddsOneBlock(st: Arena, lo: int, hi: int, n: nat, m: nat) returns (b: Block, h: Block)
    requires Inv(st, lo, hi)
    requires m % 4 == 0 && n <= m < n + 4
    requires Alloc(st, n).1.Some?
    ensures h in st.blocks && h.hole && Serves(b, h, n, m)
    ensures b !in LiveBlocks(st) && LiveBlocks(Alloc(st, n).0) == LiveBlocks(st) + {b}
    ensures UserPointer(b) == Alloc(st, n).1.value
    ensures n <= b.size && UserPointer(b) + n <= b.addr + NODE_SIZE + b.size
  {
    RoundIs(n, m);
    hide Tiles, Coalesced, FindBin, Sorted, DistinctAddrs, BinIndex, FirstFit, LiveBlocks, AllocAt;
    hide Round4, Chosen, IndexOf;
    ChosenIsHole(st, lo, hi, n);
    h := Chosen(st, n).value;
    var i := IndexOf(st.blocks, h.addr);
    AllocAtLive(st, lo, hi, i, m);
    b := Granted(h, m);
  }

  lemma RoundIs(n: nat, m: nat)
    requires m % 4 == 0 && n <= m < n + 4
    ensures m == Round4(n)
  {
  }

  lemma JoinPrevLive(st: Arena, lo: int, hi: int, i: nat)
    requires Inv(st, lo, hi)
    requires i < |st.blocks| && !st.blocks[i].hole
    ensures var (st1, j) := JoinPrev(st, i);
            LiveBlocks(st1) - {st1.blocks[j]} == LiveBlocks(st) - {st.blocks[i]}
  {
    if i > 0 && st.blocks[i - 1].hole {
      TakeLive(st, lo, hi, i - 1);
      TakeKeepsInv(st, i - 1, lo, hi);
      JoinLive(Take(st, i - 1), lo, hi, i - 1);
      TilesDistinct(st.blocks, lo, hi);
    }
  }

  lemma JoinNextLive(st: Arena, lo: int, hi: int, i: nat)
    requires Inv(st, lo, hi)
    requires i < |st.blocks| && !st.blocks[i].hole
    ensures LiveBlocks(JoinNext(st, i)) - {JoinNext(st, i).blocks[i]} == LiveBlocks(st) - {st.blocks[i]}
  {
    if i + 1 < |st.blocks| && st.blocks[i + 1].hole {
      TakeLive(st, lo, hi, i + 1);
      TakeKeepsInv(st, i + 1, lo, hi);
      JoinLive(Take(st, i + 1), lo, hi, i);
      TilesDistinct(st.blocks, lo, hi);
    }
  }

  lemma FreeAtLive(st: Arena, lo: int, hi: int, i: nat)
    requires Inv(st, lo, hi)
    requires i < |st.blocks| && !st.blocks[i].hole
    ensures LiveBlocks(FreeAt(st, i)) == LiveBlocks(st) - {st.blocks[i]}
  {
    JoinPrevKeepsInv(st, lo, hi, i);
    JoinPrevLive(st, lo, hi, i);
    var (st1, j) := JoinPrev(st, i);
    JoinNextKeepsInv(st1, lo, hi, j);
    JoinNextLive(st1, lo, hi, j);
    GiveLive(JoinNext(st1, j), lo, hi, j);
  }

  // heap_free ends exactly one block and leaves every other block in use as it was.
  lemma FreeDropsOneBlock(st: Arena, lo: int, hi: int, p: int)
    requires Inv(st, lo, hi)
    requires IsLive(st, p)
    ensures exists b :: b in LiveBlocks(st) && UserPointer(b) == p
                        && LiveBlocks(Free(st, p)) == LiveBlocks(st) - {b}
  {
    LiveIndex(st, lo, hi, p);
    var i := IndexOf(st.blocks, p - USER_POINTER_OFFSET);
    FreeAtLive(st, lo, hi, i);
    var b := st.blocks[i];
    assert b in LiveBlocks(st) && UserPointer(b) == p;
  }

  // ---------- whole runs ----------

  datatype Op = AllocOp(n: nat) | FreeOp(p: int)

  function Step(st: Arena, op: Op): Arena
    requires |st.bins| == BIN_COUNT
  {
    match op
    case AllocOp(n) => Alloc(st, n).0
    case FreeOp(p) => Free(st, p)
  }

  lemma StepKeepsBins(st: Arena, op: Op)
    requires |st.bins| == BIN_COUNT
    ensures |Step(st, op).bins| == BIN_COUNT
  {
  }

  // Callers free NULL or pointers they hold.
  ghost predicate LegalOp(st: Arena, op: Op) {
    op.FreeOp? ==> op.p == 0 || IsLive(st, op.p)
  }

  ghost predicate Legal(st: Arena, ops: seq<Op>)
    requires |st.bins| == BIN_COUNT
    decreases |ops|
  {
    ops != [] ==> LegalOp(st, ops[0]) && (StepKeepsBins(st, ops[0]); Legal(Step(st, ops[0]), ops[1..]))
  }

  function Run(st: Arena, ops: seq<Op>): Arena
    requires |st.bins| == BIN_COUNT
    decreases |ops|
  {
    if ops == [] then st else StepKeepsBins(st, ops[0]); Run(Step(st, ops[0]), ops[1..])
  }

  lemma {:induction false} RunKeepsInv(st: Arena, lo: int, hi: int, ops: seq<Op>)
    requires Inv(st, lo, hi)
    requires Legal(st, ops)
    ensures Inv(Run(st, ops), lo, hi)
    decreases |ops|
  {
    if ops != [] {
      match ops[0] {
        case AllocOp(n) => AllocKeepsInv(st, lo, hi, n);
        case FreeOp(p) => FreeKeepsInv(st, lo, hi, p);
      }
      RunKeepsInv(Step(st, ops[0]), lo, hi, ops[1..]);
    }
  }

  // With nothing in use the arena is exactly the initial one: one hole of the
  // initial size, linked alone in its bin.
  lemma NoLiveMeansInitial(st: Arena, lo: int, hi: int)
    requires Inv(st, lo, hi)
    requires LiveBlocks(st) == {}
    ensures st == Init(lo, hi)
  {
    forall i | 0 <= i < |st.blocks| ensures st.blocks[i].hole {
      assert st.blocks[i] in st.blocks && st.blocks[i] !in LiveBlocks(st);
    }
    var b := InitialHole(lo, hi);
    assert Tiles(st.blocks[1..], End(st.blocks[0]), hi);
    assert st.blocks == [b];
    var k := BinIndex(b.size);
    forall j | 0 <= j < BIN_COUNT ensures st.bins[j] == Init(lo, hi).bins[j] {
      SingletonBin(st.bins[j], b, j == k);
    }
    assert st.bins == Init(lo, hi).bins;
  }

  lemma SingletonBin(l: seq<Block>, b: Block, present: bool)
    requires DistinctAddrs(l)
    requires forall x :: x in l <==> x == b && present
    ensures l == if present then [b] else []
  {
    forall i | 0 <= i < |l| ensures l[i] == b && present {
      assert l[i] in l;
    }
    assert |l| > 0 ==> l[0] == b && present;
    assert |l| < 2 || l[0].addr != l[1].addr;
    if present {
      assert b in l;
      assert l == [b];
    }
  }

  // Every run that ends with nothing in use ends in the initial arena.
  lemma RunBackToInitial(lo: int, hi: int, ops: seq<Op>)
    requires ArenaBounds(lo, hi)
    requires Legal(Init(lo, hi), ops)
    requires LiveBlocks(Run(Init(lo, hi), ops)) == {}
    ensures Run(Init(lo, hi), ops) == Init(lo, hi)
  {
    InitInv(lo, hi);
    RunKeepsInv(Init(lo, hi), lo, hi, ops);
    NoLiveMeansInitial(Run(Init(lo, hi), ops), lo, hi);
  }

  ghost function Frees(ps: seq<int>): (ops: seq<Op>)
    ensures |ops| == |ps|
    ensures forall k :: 0 <= k < |ps| ==> ops[k] == FreeOp(ps[k])
  {
    seq(|ps|, (k: nat) requires k < |ps| => FreeOp(ps[k]))
  }

  ghost predicate Distinct(ps: seq<int>) {
    forall i, j :: 0 <= i < j < |ps| ==> ps[i] != ps[j]
  }

  // Freeing p takes exactly p from the pointers in use.
  lemma FreeDropsPointer(st: Arena, lo: int, hi: int, p: int)
    requires Inv(st, lo, hi) && IsLive(st, p)
    ensures forall q :: IsLive(Free(st, p), q) <==> IsLive(st, q) && q != p
  {
    FreeDropsOneBlock(st, lo, hi, p);
    var st1 := Free(st, p);
    var b :| b in LiveBlocks(st) && UserPointer(b) == p && LiveBlocks(st1) == LiveBlocks(st) - {b};
    TilesDistinct(st.blocks, lo, hi);
    forall q ensures IsLive(st1, q) <==> IsLive(st, q) && q != p {
      LivePointers(st, q);
      LivePointers(st1, q);
    }
  }

  lemma LivePointers(st: Arena, p: int)
    ensures IsLive(st, p) <==> exists b :: b in LiveBlocks(st) && UserPointer(b) == p
  {
  }

  lemma FreeFirst(st: Arena, lo: int, hi: int, ps: seq<int>)
    requires Inv(st, lo, hi) && Distinct(ps) && ps != []
    requires forall p :: p in ps <==> IsLive(st, p)
    ensures Inv(Free(st, ps[0]), lo, hi)
    ensures forall p :: p in ps[1..] <==> IsLive(Free(st, ps[0]), p)
  {
    var p, rest := ps[0], ps[1..];
    assert p in ps;
    FreeDropsPointer(st, lo, hi, p);
    FreeKeepsInv(st, lo, hi, p);
    assert forall q :: q in ps <==> q == p || q in rest by { assert ps == [p] + rest; }
    assert p !in rest;
  }

  // Freeing all pointers in use, once each and in whatever order, is legal and
  // restores the initial arena.
  lemma {:induction false} FreeAllInAnyOrder(st: Arena, lo: int, hi: int, ps: seq<int>)
    requires Inv(st, lo, hi)
    requires Distinct(ps)
    requires forall p :: p in ps <==> IsLive(st, p)
    ensures Legal(st, Frees(ps))
    ensures Run(st, Frees(ps)) == Init(lo, hi)
    decreases |ps|
  {
    hide Tiles, Coalesced, Sorted, DistinctAddrs, FreeAt, IndexOf;
    if ps == [] {
      forall b ensures b !in LiveBlocks(st) {
        assert b in LiveBlocks(st) ==> IsLive(st, UserPointer(b));
      }
      NoLiveMeansInitial(st, lo, hi);
    } else {
      FreeFirst(st, lo, hi, ps);
      FreeAllInAnyOrder(Free(st, ps[0]), lo, hi, ps[1..]);
      assert Frees(ps)[1..] == Frees(ps[1..]);
    }
  }
}
