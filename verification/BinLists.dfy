// The size-segregated free lists of the static heap, seen as sequences:
// which bin a size belongs to, ordered insertion, first fit and removal.
module BinLists {

  // One block of the arena: the address of its header, its payload size, and
  // whether it is free.
  datatype Block = Block(addr: int, size: int, hole: bool)

  const BIN_COUNT := 9
  const BIN_MAX_IDX := BIN_COUNT - 1

  // ---------- bin index ----------

  function Log2(n: int): (k: nat)
    requires 1 <= n
  {
    if n < 2 then 0 else 1 + Log2(n / 2)
  }

  function BinIndex(size: int): (k: nat)
    ensures k <= BIN_MAX_IDX
  {
    var s := if size < 4 then 4 else size;
    var l := Log2(s) - 2;
    assert Log2(s) == 2 + Log2(s / 2 / 2);
    if l > BIN_MAX_IDX then BIN_MAX_IDX else l
  }

  lemma {:induction false} Log2Monotone(a: int, b: int)
    requires 1 <= a <= b
    ensures Log2(a) <= Log2(b)
    decreases a
  {
    if a >= 2 {
      Log2Monotone(a / 2, b / 2);
    }
  }

  function Pow2(k: nat): (p: nat)
    ensures p >= 1
  {
    if k == 0 then 1 else 2 * Pow2(k - 1)
  }

  lemma {:induction false} Log2Range(n: int, k: nat)
    requires 1 <= n
    ensures Log2(n) == k <==> Pow2(k) <= n < 2 * Pow2(k)
    decreases n
  {
    if n >= 2 {
      if k == 0 {
        assert Log2(n) > 0;
      } else {
        Log2Range(n / 2, k - 1);
      }
    } else {
      assert k > 0 ==> Pow2(k) >= 2;
    }
  }

  // Bin k holds the sizes from 2^(k + 2) to the next power of two, the first bin all smaller
  // ones as well and the ninth all larger ones.
  lemma BinRange(size: int, k: nat)
    requires k <= 8
    ensures BinIndex(size) == k <==>
            (k == 0 || 4 * Pow2(k) <= size) && (k == 8 || size < 8 * Pow2(k))
  {
    var s := if size < 4 then 4 else size;
    Log2Range(s, k + 2);
    assert Pow2(k + 2) == 4 * Pow2(k);
    if k == 8 {
      Log2AtLeast(s, 10);
      assert Pow2(8) == 256 && Pow2(10) == 1024;
    }
  }

  lemma {:induction false} Log2AtLeast(n: int, k: nat)
    requires 1 <= n
    ensures Log2(n) >= k <==> Pow2(k) <= n
    decreases k
  {
    if k > 0 {
      if n >= 2 {
        Log2AtLeast(n / 2, k - 1);
      } else {
        assert Pow2(k) >= 2;
      }
    }
  }

  // A larger request never maps to a smaller bin.
  lemma BinIndexMonotone(a: int, b: int)
    requires a <= b
    ensures BinIndex(a) <= BinIndex(b)
  {
    Log2Monotone(if a < 4 then 4 else a, if b < 4 then 4 else b);
  }

  // ---------- one bin ----------

  ghost predicate Sorted(l: seq<Block>) {
    forall i, j :: 0 <= i < j < |l| ==> l[i].size <= l[j].size
  }

  ghost predicate DistinctAddrs(l: seq<Block>) {
    forall i, j :: 0 <= i < j < |l| ==> l[i].addr != l[j].addr
  }

  // The number of leading entries that are no larger than size.
  function InsertPos(l: seq<Block>, size: int): (p: nat)
    ensures p <= |l|
    ensures forall j :: 0 <= j < p ==> l[j].size <= size
    ensures p < |l| ==> size < l[p].size
  {
    if l == [] || size < l[0].size then 0 else 1 + InsertPos(l[1..], size)
  }

  // Ordered insertion, behind every entry of the same size.
  function Insert(l: seq<Block>, b: Block): (r: seq<Block>)
    ensures |r| == |l| + 1
  {
    if l == [] || b.size < l[0].size then [b] + l else [l[0]] + Insert(l[1..], b)
  }

  // The position of the entry for address a, or |l|.
  function IndexOf(l: seq<Block>, a: int): (p: nat)
    ensures p <= |l|
    ensures forall j :: 0 <= j < p ==> l[j].addr != a
    ensures p < |l| ==> l[p].addr == a
  {
    if l == [] || l[0].addr == a then 0 else 1 + IndexOf(l[1..], a)
  }

  function Remove(l: seq<Block>, a: int): (r: seq<Block>)
    ensures |r| <= |l|
  {
    if l == [] then []
    else if l[0].addr == a then l[1..]
    else [l[0]] + Remove(l[1..], a)
  }

  // The position of the first entry that covers size, or |l|.
  function FirstFit(l: seq<Block>, size: int): (p: nat)
    ensures p <= |l|
    ensures forall j :: 0 <= j < p ==> l[j].size < size
    ensures p < |l| ==> size <= l[p].size
  {
    if l == [] || size <= l[0].size then 0 else 1 + FirstFit(l[1..], size)
  }

  lemma {:induction false} InsertAtPos(l: seq<Block>, b: Block)
    ensures Insert(l, b) == l[..InsertPos(l, b.size)] + [b] + l[InsertPos(l, b.size)..]
  {
    if l != [] && l[0].size <= b.size {
      InsertAtPos(l[1..], b);
      var p := InsertPos(l[1..], b.size);
      assert l[..p + 1] == [l[0]] + l[1..][..p];
      assert l[p + 1..] == l[1..][p..];
    }
  }

  lemma {:induction false} RemoveAtIndex(l: seq<Block>, a: int)
    ensures IndexOf(l, a) == |l| ==> Remove(l, a) == l
    ensures IndexOf(l, a) < |l| ==> Remove(l, a) == l[..IndexOf(l, a)] + l[IndexOf(l, a) + 1..]
  {
    if l != [] && l[0].addr != a {
      RemoveAtIndex(l[1..], a);
      var p := IndexOf(l[1..], a);
      if p < |l| - 1 {
        assert l[..p + 1] == [l[0]] + l[1..][..p];
        assert l[p + 2..] == l[1..][p + 1..];
      }
    }
  }

  lemma SplitHead(l: seq<Block>)
    requires l != []
    ensures forall x :: x in l <==> x == l[0] || x in l[1..]
  {
    assert l == [l[0]] + l[1..];
  }

  // Inserting keeps a bin sorted and free of duplicates and adds exactly b.
  lemma {:induction false} InsertFacts(l: seq<Block>, b: Block)
    requires Sorted(l)
    requires DistinctAddrs(l)
    requires forall x :: x in l ==> x.addr != b.addr
    ensures Sorted(Insert(l, b))
    ensures DistinctAddrs(Insert(l, b))
    ensures forall x :: x in Insert(l, b) <==> x == b || x in l
  {
    if l == [] || b.size < l[0].size {
    } else {
      SplitHead(l);
      InsertFacts(l[1..], b);
      var t := Insert(l[1..], b);
      forall k | 0 <= k < |t| ensures l[0].size <= t[k].size && l[0].addr != t[k].addr {
        assert t[k] in t;
        assert l[0] in l;
      }
    }
  }

  // Removing keeps a bin sorted and free of duplicates and drops exactly the
  // entry with that address.
  lemma {:induction false} RemoveFacts(l: seq<Block>, a: int)
    requires Sorted(l)
    requires DistinctAddrs(l)
    ensures Sorted(Remove(l, a))
    ensures DistinctAddrs(Remove(l, a))
    ensures forall x :: x in Remove(l, a) <==> x in l && x.addr != a
  {
    if l != [] {
      SplitHead(l);
      if l[0].addr != a {
        RemoveFacts(l[1..], a);
        var t := Remove(l[1..], a);
        forall k | 0 <= k < |t| ensures l[0].size <= t[k].size && l[0].addr != t[k].addr {
          assert t[k] in t;
        }
      }
    }
  }

  // In a sorted bin it does not matter whether a new entry is linked before or
  // after another one is unlinked.
  lemma {:induction false} InsertRemoveCommute(l: seq<Block>, b: Block, a: int)
    requires Sorted(l)
    requires b.addr != a
    ensures Remove(Insert(l, b), a) == Insert(Remove(l, a), b)
  {
    if l != [] {
      InsertRemoveCommute(l[1..], b, a);
      if b.size < l[0].size {
        assert ([b] + l)[1..] == l;
      } else if l[0].addr == a {
        assert ([l[0]] + Insert(l[1..], b))[1..] == Insert(l[1..], b);
      } else {
        assert ([l[0]] + Insert(l[1..], b))[1..] == Insert(l[1..], b);
        assert ([l[0]] + Remove(l[1..], a))[1..] == Remove(l[1..], a);
      }
    }
  }

  // In a sorted bin the first fit is a best fit.
  lemma FirstFitIsBestFit(l: seq<Block>, size: int, b: Block)
    requires Sorted(l)
    requires b in l && size <= b.size
    ensures FirstFit(l, size) < |l|
    ensures l[FirstFit(l, size)].size <= b.size
  {
  }
}
