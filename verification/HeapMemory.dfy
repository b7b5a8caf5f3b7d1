// How blocks and bins are laid out in memory.
module HeapMemory {
  import opened Bytes
  import opened BinLists
  import opened ArenaSpec

  // struct node_t: hole at 0, size at 4, next at 8, prev at 16; the footer follows
  // the payload and points back to the header.
  const SIZE_AT := 4
  const NEXT_AT := 8
  const PREV_AT := 16

  ghost predicate Fits(m: seq<byte>, b: Block) {
    0 < b.addr && 0 <= b.size && End(b) <= |m|
  }

  function Word(flag: bool): nat {
    if flag then 1 else 0
  }

  // Header and footer of b are in memory.
  ghost predicate BlockStored(m: seq<byte>, b: Block) {
    && Fits(m, b)
    && Load(m, b.addr, 4) == Word(b.hole)
    && Load(m, b.addr + SIZE_AT, 4) == b.size
    && Load(m, b.addr + NODE_SIZE + b.size, 8) == b.addr
  }

  // The address of entry i of a bin; NULL behind the last one.
  ghost function AddrAt(l: seq<Block>, i: int): int {
    if 0 <= i < |l| then l[i].addr else 0
  }

  ghost function NextOf(m: seq<byte>, b: Block): int
    requires Fits(m, b)
  {
    Load(m, b.addr + NEXT_AT, 8)
  }

  ghost function PrevOf(m: seq<byte>, b: Block): int
    requires Fits(m, b)
  {
    Load(m, b.addr + PREV_AT, 8)
  }

  // Node j of the list l carries its size and is linked to its neighbours. The prev
  // field of the first node is not constrained: removing a head leaves it stale.
  ghost predicate NodeLinked(m: seq<byte>, l: seq<Block>, j: int)
    requires 0 <= j < |l|
  {
    && Fits(m, l[j])
    && Load(m, l[j].addr + SIZE_AT, 4) == l[j].size
    && NextOf(m, l[j]) == AddrAt(l, j + 1)
    && (j > 0 ==> PrevOf(m, l[j]) == AddrAt(l, j - 1))
  }

  // The bin with this head pointer is the doubly linked list l.
  ghost predicate Linked(m: seq<byte>, head: int, l: seq<Block>) {
    && head == AddrAt(l, 0)
    && (forall j :: 0 <= j < |l| ==> NodeLinked(m, l, j))
  }

  ghost predicate Apart(x: Block, y: Block) {
    x.addr + NODE_SIZE <= y.addr || y.addr + NODE_SIZE <= x.addr
  }

  ghost predicate AllApart(l: seq<Block>) {
    forall i, j :: 0 <= i < j < |l| ==> Apart(l[i], l[j])
  }

  // t is a byte of the next or prev field of a node of l.
  ghost predicate LinkByte(l: seq<Block>, t: int) {
    exists x :: x in l && x.addr + NEXT_AT <= t < x.addr + NODE_SIZE
  }

  // Nothing but link fields of l differs.
  ghost predicate OnlyLinks(m: seq<byte>, m': seq<byte>, l: seq<Block>) {
    |m'| == |m| && forall t :: 0 <= t < |m| && !LinkByte(l, t) ==> m'[t] == m[t]
  }

  // Entry j of l has kept its size, and its links but for the given new ones.
  ghost predicate Relinked(m: seq<byte>, m': seq<byte>, x: Block, next: int, prev: int) {
    && Fits(m, x) && Fits(m', x)
    && Load(m', x.addr + SIZE_AT, 4) == Load(m, x.addr + SIZE_AT, 4)
    && NextOf(m', x) == next
    && PrevOf(m', x) == prev
  }

  lemma InsertedAt(l: seq<Block>, b: Block, j: nat)
    requires j <= |l|
    ensures var p := InsertPos(l, b.size);
            Insert(l, b)[j] == if j < p then l[j] else if j == p then b else l[j - 1]
  {
    InsertAtPos(l, b);
  }

  lemma InsertedAddr(l: seq<Block>, b: Block, j: int)
    ensures var p := InsertPos(l, b.size);
            AddrAt(Insert(l, b), j) == if j < p then AddrAt(l, j) else if j == p then b.addr else AddrAt(l, j - 1)
  {
    if 0 <= j <= |l| {
      InsertedAt(l, b, j);
    }
  }

  lemma RemovedAt(l: seq<Block>, a: int, j: nat)
    requires IndexOf(l, a) < |l|
    ensures |Remove(l, a)| == |l| - 1
    ensures j < |l| - 1 ==> Remove(l, a)[j] == l[if j < IndexOf(l, a) then j else j + 1]
  {
    RemoveAtIndex(l, a);
  }

  lemma RemovedAddr(l: seq<Block>, a: int, j: int)
    requires IndexOf(l, a) < |l|
    ensures AddrAt(Remove(l, a), j) == AddrAt(l, if j < IndexOf(l, a) then j else j + 1)
            || (j == -1 && IndexOf(l, a) == 0)
  {
    if 0 <= j {
      RemovedAt(l, a, j);
    } else {
      RemovedAt(l, a, 0);
    }
  }

  // What entry j of l looks like once b has been spliced in at position p.
  ghost predicate LinksForInsert(m: seq<byte>, m': seq<byte>, l: seq<Block>, b: Block, p: nat, j: nat)
    requires j < |l| && Fits(m, l[j])
  {
    Relinked(m, m', l[j],
             if j == p - 1 then b.addr else NextOf(m, l[j]),
             if j == p then b.addr else PrevOf(m, l[j]))
  }

  lemma NodeAfterInsert(m: seq<byte>, m': seq<byte>, l: seq<Block>, b: Block, j: nat)
    requires j < |l| && NodeLinked(m, l, j)
    requires LinksForInsert(m, m', l, b, InsertPos(l, b.size), j)
    ensures NodeLinked(m', Insert(l, b), if j < InsertPos(l, b.size) then j else j + 1)
  {
    hide Insert, InsertPos, Load;
    var i := if j < InsertPos(l, b.size) then j else j + 1;
    InsertedAt(l, b, i);
    InsertedAddr(l, b, i + 1);
    InsertedAddr(l, b, i - 1);
  }

  lemma LinkedAfterInsert(m: seq<byte>, m': seq<byte>, head: int, l: seq<Block>, b: Block, p: nat)
    requires p == InsertPos(l, b.size)
    requires Linked(m, head, l)
    requires forall j :: 0 <= j < |l| ==> NodeLinked(m, l, j) && LinksForInsert(m, m', l, b, p, j)
    requires Fits(m', b) && Load(m', b.addr + SIZE_AT, 4) == b.size
    requires NextOf(m', b) == AddrAt(l, p)
    requires p > 0 ==> PrevOf(m', b) == AddrAt(l, p - 1)
    ensures Linked(m', AddrAt(Insert(l, b), 0), Insert(l, b))
  {
    hide Insert, InsertPos, LinksForInsert, NodeLinked;
    var r := Insert(l, b);
    InsertedLinked(m', l, b);
    forall j | 0 <= j < |r| ensures NodeLinked(m', r, j) {
      if j != p {
        NodeAfterInsert(m, m', l, b, if j < p then j else j - 1);
      }
    }
  }

  lemma InsertedLinked(m: seq<byte>, l: seq<Block>, b: Block)
    requires Fits(m, b) && Load(m, b.addr + SIZE_AT, 4) == b.size
    requires NextOf(m, b) == AddrAt(l, InsertPos(l, b.size))
    requires InsertPos(l, b.size) > 0 ==> PrevOf(m, b) == AddrAt(l, InsertPos(l, b.size) - 1)
    ensures InsertPos(l, b.size) < |Insert(l, b)| && NodeLinked(m, Insert(l, b), InsertPos(l, b.size))
  {
    hide Insert, InsertPos, NextOf, PrevOf;
    var p: int := InsertPos(l, b.size);
    InsertedAt(l, b, p);
    InsertedAddr(l, b, p + 1);
    InsertedAddr(l, b, p - 1);
  }

  // What entry j of l looks like once entry q has been unlinked: only the links of
  // its neighbours change, and if q is the head not even those do.
  ghost predicate LinksForRemove(m: seq<byte>, m': seq<byte>, l: seq<Block>, q: nat, j: nat)
    requires j < |l| && Fits(m, l[j])
  {
    Relinked(m, m', l[j],
             if j == q - 1 then AddrAt(l, q + 1) else NextOf(m, l[j]),
             if j == q + 1 && 0 < q then AddrAt(l, q - 1) else PrevOf(m, l[j]))
  }

  lemma NodeAfterRemove(m: seq<byte>, m': seq<byte>, l: seq<Block>, a: int, j: nat)
    requires IndexOf(l, a) < |l|
    requires j < |l| && j != IndexOf(l, a) && NodeLinked(m, l, j)
    requires LinksForRemove(m, m', l, IndexOf(l, a), j)
    ensures |Remove(l, a)| == |l| - 1
    ensures NodeLinked(m', Remove(l, a), if j < IndexOf(l, a) then j else j - 1)
  {
    var i := if j < IndexOf(l, a) then j else j - 1;
    RemovedAt(l, a, i);
    RemovedAddr(l, a, i + 1);
    RemovedAddr(l, a, i - 1);
  }

  lemma LinkedAfterRemove(m: seq<byte>, m': seq<byte>, head: int, l: seq<Block>, a: int, q: nat)
    requires q == IndexOf(l, a) < |l|
    requires Linked(m, head, l)
    requires forall j :: 0 <= j < |l| && j != q ==> NodeLinked(m, l, j) && LinksForRemove(m, m', l, q, j)
    ensures Linked(m', AddrAt(Remove(l, a), 0), Remove(l, a))
  {
    var r := Remove(l, a);
    RemovedAt(l, a, 0);
    forall j | 0 <= j < |r| ensures NodeLinked(m', r, j) {
      NodeAfterRemove(m, m', l, a, if j < q then j else j + 1);
    }
  }
}
