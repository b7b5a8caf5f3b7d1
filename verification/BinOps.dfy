// llist.c: the doubly linked bins, relinked in place inside the arena.
module BinOps {
  import opened Bytes
  import opened BinLists
  import opened ArenaSpec
  import opened HeapMemory

  const ADDRESS_LIMIT := 0x8000_0000_0000_0000

  // Nodes of a bin whose headers do not overlap, at addresses a pointer can hold.
  ghost predicate GoodNodes(m: seq<byte>, l: seq<Block>) {
    && AllApart(l)
    && |m| <= ADDRESS_LIMIT
    && (forall x :: x in l ==> Fits(m, x))
  }

  function GetPtr(mem: array<byte>, a: int): int
    requires 0 <= a && a + 8 <= mem.Length
    reads mem
  {
    Load(mem[..], a, 8)
  }

  function GetSize(mem: array<byte>, node: int): int
    requires 0 <= node && node + NODE_SIZE <= mem.Length
    reads mem
  {
    Load(mem[..], node + SIZE_AT, 4)
  }

  // ---------- writing one link field ----------

  // m' is m with the next field (or the prev field) of y set to v.
  ghost predicate LinkSet(m: seq<byte>, m': seq<byte>, y: Block, isNext: bool, v: int) {
    Fits(m, y) && 0 <= v && Wrote(m, m', y.addr + (if isNext then NEXT_AT else PREV_AT), 8, v)
  }

  method SetNext(mem: array<byte>, node: int, p: int, ghost b: Block)
    requires Fits(mem[..], b) && b.addr == node
    requires 0 <= p < ADDRESS_LIMIT
    modifies mem
    ensures LinkSet(old(mem[..]), mem[..], b, true, p)
  {
    Pow256Values();
    Store(mem, node + NEXT_AT, 8, p);
  }

  method SetPrev(mem: array<byte>, node: int, p: int, ghost b: Block)
    requires Fits(mem[..], b) && b.addr == node
    requires 0 <= p < ADDRESS_LIMIT
    modifies mem
    ensures LinkSet(old(mem[..]), mem[..], b, false, p)
  {
    Pow256Values();
    Store(mem, node + PREV_AT, 8, p);
  }

  // The same write seen from a node x that is y or apart from it.
  lemma LinkStep(m: seq<byte>, m': seq<byte>, x: Block, y: Block, isNext: bool, v: int)
    requires Fits(m, x) && (x == y || Apart(x, y))
    requires LinkSet(m, m', y, isNext, v)
    ensures Relinked(m, m', x,
                     if x == y && isNext then v else NextOf(m, x),
                     if x == y && !isNext then v else PrevOf(m, x))
  {
  }

  lemma LinkSetOnlyLinks(m: seq<byte>, m': seq<byte>, l: seq<Block>, y: Block, isNext: bool, v: int)
    requires LinkSet(m, m', y, isNext, v)
    requires y in l
    ensures OnlyLinks(m, m', l)
  {
  }

  lemma LinkedNodeElsewhere(m: seq<byte>, m': seq<byte>, l: seq<Block>, j: nat, b: Block, isNext: bool, v: int)
    requires j < |l| && NodeLinked(m, l, j)
    requires LinkSet(m, m', b, isNext, v) && Apart(l[j], b)
    ensures NodeLinked(m', l, j)
  {
    LinkStep(m, m', l[j], b, isNext, v);
  }

  // A write to a link field of b leaves a list apart from b linked.
  lemma LinkedElsewhere(m: seq<byte>, m': seq<byte>, head: int, l: seq<Block>, b: Block, isNext: bool, v: int)
    requires Linked(m, head, l)
    requires LinkSet(m, m', b, isNext, v)
    requires forall x :: x in l ==> Apart(x, b)
    ensures Linked(m', head, l)
  {
    forall j | 0 <= j < |l| ensures NodeLinked(m', l, j) {
      assert l[j] in l && NodeLinked(m, l, j);
      LinkedNodeElsewhere(m, m', l, j, b, isNext, v);
    }
  }

  // ---------- add_node ----------

  // A list of well-placed nodes and a new node apart from all of them.
  ghost predicate CanInsert(m: seq<byte>, head: int, l: seq<Block>, b: Block) {
    && Linked(m, head, l)
    && GoodNodes(m, l)
    && Fits(m, b) && Load(m, b.addr + SIZE_AT, 4) == b.size
    && forall x :: x in l ==> Apart(x, b)
  }

  // The new node becomes the head.
  lemma FrontNode(m: seq<byte>, m1: seq<byte>, m2: seq<byte>, l: seq<Block>, b: Block, j: nat)
    requires j < |l| && NodeLinked(m, l, j)
    requires LinkSet(m, m1, b, true, l[0].addr)
    requires LinkSet(m1, m2, l[0], false, b.addr)
    requires Apart(l[j], b) && (j == 0 || Apart(l[j], l[0]))
    ensures LinksForInsert(m, m2, l, b, 0, j)
  {
    LinkStep(m, m1, l[j], b, true, l[0].addr);
    LinkStep(m1, m2, l[j], l[0], false, b.addr);
  }

  lemma InsertAtFront(m: seq<byte>, m1: seq<byte>, m2: seq<byte>, head: int, l: seq<Block>, b: Block)
    requires CanInsert(m, head, l, b)
    requires |l| > 0 && InsertPos(l, b.size) == 0
    requires LinkSet(m, m1, b, true, l[0].addr)
    requires LinkSet(m1, m2, l[0], false, b.addr)
    ensures Linked(m2, AddrAt(Insert(l, b), 0), Insert(l, b))
  {
    forall j | 0 <= j < |l| ensures NodeLinked(m, l, j) && LinksForInsert(m, m2, l, b, 0, j) {
      assert l[j] in l;
      FrontNode(m, m1, m2, l, b, j);
    }
    assert l[0] in l;
    LinkStep(m, m1, b, b, true, l[0].addr);
    LinkStep(m1, m2, b, l[0], false, b.addr);
    LinkedAfterInsert(m, m2, head, l, b, 0);
  }

  // The new node goes behind the last one.
  lemma EndNode(m: seq<byte>, m1: seq<byte>, m2: seq<byte>, l: seq<Block>, b: Block, j: nat)
    requires j < |l| && NodeLinked(m, l, j)
    requires LinkSet(m, m1, l[|l| - 1], true, b.addr)
    requires LinkSet(m1, m2, b, false, l[|l| - 1].addr)
    requires Apart(l[j], b) && (j == |l| - 1 || Apart(l[j], l[|l| - 1]))
    ensures LinksForInsert(m, m2, l, b, |l|, j)
  {
    LinkStep(m, m1, l[j], l[|l| - 1], true, b.addr);
    LinkStep(m1, m2, l[j], b, false, l[|l| - 1].addr);
  }

  lemma InsertAtEnd(m: seq<byte>, m1: seq<byte>, m2: seq<byte>, head: int, l: seq<Block>, b: Block)
    requires CanInsert(m, head, l, b)
    requires |l| > 0 && InsertPos(l, b.size) == |l|
    requires NextOf(m, b) == 0
    requires LinkSet(m, m1, l[|l| - 1], true, b.addr)
    requires LinkSet(m1, m2, b, false, l[|l| - 1].addr)
    ensures Linked(m2, AddrAt(Insert(l, b), 0), Insert(l, b))
  {
    var y := l[|l| - 1];
    assert y in l;
    forall j | 0 <= j < |l| ensures NodeLinked(m, l, j) && LinksForInsert(m, m2, l, b, |l|, j) {
      assert l[j] in l;
      EndNode(m, m1, m2, l, b, j);
    }
    LinkStep(m, m1, b, y, true, b.addr);
    LinkStep(m1, m2, b, b, false, y.addr);
    LinkedAfterInsert(m, m2, head, l, b, |l|);
  }

  // The four writes that put b between entries p - 1 and p.
  ghost predicate MiddleWrites(m: seq<byte>, m1: seq<byte>, m2: seq<byte>, m3: seq<byte>, m4: seq<byte>,
                               l: seq<Block>, b: Block, p: nat)
    requires 0 < p < |l|
  {
    && LinkSet(m, m1, b, true, l[p].addr)
    && LinkSet(m1, m2, l[p - 1], true, b.addr)
    && LinkSet(m2, m3, b, false, l[p - 1].addr)
    && LinkSet(m3, m4, l[p], false, b.addr)
  }

  lemma MiddleNode(m: seq<byte>, m1: seq<byte>, m2: seq<byte>, m3: seq<byte>, m4: seq<byte>,
                   l: seq<Block>, b: Block, p: nat, j: nat)
    requires j < |l| && NodeLinked(m, l, j)
    requires 0 < p < |l| && MiddleWrites(m, m1, m2, m3, m4, l, b, p)
    requires Apart(l[j], b) && (j == p || Apart(l[j], l[p])) && (j == p - 1 || Apart(l[j], l[p - 1]))
    ensures LinksForInsert(m, m4, l, b, p, j)
  {
    LinkStep(m, m1, l[j], b, true, l[p].addr);
    LinkStep(m1, m2, l[j], l[p - 1], true, b.addr);
    LinkStep(m2, m3, l[j], b, false, l[p - 1].addr);
    LinkStep(m3, m4, l[j], l[p], false, b.addr);
  }

  lemma InsertInMiddle(m: seq<byte>, m1: seq<byte>, m2: seq<byte>, m3: seq<byte>, m4: seq<byte>,
                       head: int, l: seq<Block>, b: Block, p: nat)
    requires CanInsert(m, head, l, b)
    requires 0 < p < |l| && InsertPos(l, b.size) == p
    requires MiddleWrites(m, m1, m2, m3, m4, l, b, p)
    ensures Linked(m4, AddrAt(Insert(l, b), 0), Insert(l, b))
  {
    forall j | 0 <= j < |l| ensures NodeLinked(m, l, j) && LinksForInsert(m, m4, l, b, p, j) {
      assert l[j] in l;
      MiddleNode(m, m1, m2, m3, m4, l, b, p, j);
    }
    assert l[p - 1] in l && l[p] in l;
    LinkStep(m, m1, b, b, true, l[p].addr);
    LinkStep(m1, m2, b, l[p - 1], true, b.addr);
    LinkStep(m2, m3, b, b, false, l[p - 1].addr);
    LinkStep(m3, m4, b, l[p], false, b.addr);
    LinkedAfterInsert(m, m4, head, l, b, p);
  }

  // Reset both links of a node that is not in the list.
  method ResetLinks(mem: array<byte>, node: int, ghost head: int, ghost l: seq<Block>, ghost b: Block)
    requires CanInsert(mem[..], head, l, b) && b.addr == node
    modifies mem
    ensures CanInsert(mem[..], head, l, b) && NextOf(mem[..], b) == 0 && PrevOf(mem[..], b) == 0
    ensures OnlyLinks(old(mem[..]), mem[..], l + [b])
  {
    ghost var m := mem[..];
    SetNext(mem, node, 0, b);
    ghost var m1 := mem[..];
    SetPrev(mem, node, 0, b);
    ghost var m2 := mem[..];
    LinkedElsewhere(m, m1, head, l, b, true, 0);
    LinkedElsewhere(m1, m2, head, l, b, false, 0);
    LinkStep(m, m1, b, b, true, 0);
    LinkStep(m1, m2, b, b, false, 0);
    LinkSetOnlyLinks(m, m1, l + [b], b, true, 0);
    LinkSetOnlyLinks(m1, m2, l + [b], b, false, 0);
  }

  // Find the place behind every node that is no larger.
  method FindPlace(mem: array<byte>, head: int, node: int, ghost l: seq<Block>, ghost b: Block)
    returns (previous: int, current: int)
    requires CanInsert(mem[..], head, l, b) && b.addr == node
    ensures previous == AddrAt(l, InsertPos(l, b.size) - 1)
    ensures current == AddrAt(l, InsertPos(l, b.size))
  {
    hide Load, Sorted, Apart;
    previous, current := 0, head;
    ghost var m := mem[..];
    ghost var p := 0;
    while current != 0 && GetSize(mem, current) <= GetSize(mem, node)
      invariant 0 <= p <= |l|
      invariant current == AddrAt(l, p) && previous == AddrAt(l, p - 1)
      invariant forall j :: 0 <= j < p ==> l[j].size <= b.size
      invariant p < |l| ==> NodeLinked(m, l, p)
      decreases |l| - p
    {
      assert NodeLinked(m, l, p);
      previous := current;
      current := GetPtr(mem, current + NEXT_AT);
      p := p + 1;
    }
    assert p == InsertPos(l, b.size);
  }

  lemma AddrAtNull(m: seq<byte>, head: int, l: seq<Block>, j: int)
    requires Linked(m, head, l)
    ensures AddrAt(l, j) == 0 <==> !(0 <= j < |l|)
  {
    if 0 <= j < |l| {
      assert NodeLinked(m, l, j);
    }
  }

  // Link b into the list l of bin k.
  method AddNode(mem: array<byte>, bins: array<int>, k: nat, node: int, ghost l: seq<Block>, ghost b: Block)
    requires k < bins.Length
    requires CanInsert(mem[..], bins[k], l, b) && b.addr == node
    modifies mem, bins
    ensures Linked(mem[..], bins[k], Insert(l, b))
    ensures OnlyLinks(old(mem[..]), mem[..], l + [b])
    ensures forall i :: 0 <= i < bins.Length && i != k ==> bins[i] == old(bins[i])
  {
    ResetLinks(mem, node, bins[k], l, b);
    ghost var m := mem[..];
    InsertedAddr(l, b, 0);
    if bins[k] == 0 {
      AddrAtNull(m, bins[k], l, 0);
      bins[k] := node;
      LinkedAfterInsert(m, m, 0, l, b, 0);
      return;
    }
    var previous, current := FindPlace(mem, bins[k], node, l, b);
    ghost var p: int := InsertPos(l, b.size);
    AddrAtNull(m, bins[k], l, 0);
    AddrAtNull(m, bins[k], l, p);
    AddrAtNull(m, bins[k], l, p - 1);
    if current == 0 {
      LinkEnd(mem, bins[k], node, previous, l, b);
    } else if previous != 0 {
      LinkMiddle(mem, bins[k], node, previous, current, l, b, p);
    } else {
      LinkFront(mem, node, bins[k], l, b);
      bins[k] := node;
    }
  }

  // The end of the list.
  method LinkEnd(mem: array<byte>, ghost head: int, node: int, previous: int, ghost l: seq<Block>, ghost b: Block)
    requires CanInsert(mem[..], head, l, b) && b.addr == node && NextOf(mem[..], b) == 0
    requires |l| > 0 && InsertPos(l, b.size) == |l| && previous == l[|l| - 1].addr
    modifies mem
    ensures Linked(mem[..], AddrAt(Insert(l, b), 0), Insert(l, b))
    ensures OnlyLinks(old(mem[..]), mem[..], l + [b])
  {
    ghost var m := mem[..];
    ghost var y := l[|l| - 1];
    assert y in l;
    SetNext(mem, previous, node, y);
    ghost var m1 := mem[..];
    SetPrev(mem, node, previous, b);
    InsertAtEnd(m, m1, mem[..], head, l, b);
    LinkSetOnlyLinks(m, m1, l + [b], y, true, node);
    LinkSetOnlyLinks(m1, mem[..], l + [b], b, false, previous);
  }

  // The front of the list.
  method LinkFront(mem: array<byte>, node: int, head: int, ghost l: seq<Block>, ghost b: Block)
    requires CanInsert(mem[..], head, l, b) && b.addr == node
    requires |l| > 0 && InsertPos(l, b.size) == 0
    modifies mem
    ensures Linked(mem[..], AddrAt(Insert(l, b), 0), Insert(l, b))
    ensures OnlyLinks(old(mem[..]), mem[..], l + [b])
  {
    ghost var m := mem[..];
    assert l[0] in l;
    SetNext(mem, node, head, b);
    ghost var m1 := mem[..];
    SetPrev(mem, head, node, l[0]);
    InsertAtFront(m, m1, mem[..], head, l, b);
    LinkSetOnlyLinks(m, m1, l + [b], b, true, head);
    LinkSetOnlyLinks(m1, mem[..], l + [b], l[0], false, node);
  }

  // The middle of the list: connect all four links.
  method LinkMiddle(mem: array<byte>, ghost head: int, node: int, previous: int, current: int,
                    ghost l: seq<Block>, ghost b: Block, ghost p: nat)
    requires CanInsert(mem[..], head, l, b) && b.addr == node
    requires 0 < p < |l| && InsertPos(l, b.size) == p
    requires previous == l[p - 1].addr && current == l[p].addr
    modifies mem
    ensures Linked(mem[..], AddrAt(Insert(l, b), 0), Insert(l, b))
    ensures OnlyLinks(old(mem[..]), mem[..], l + [b])
  {
    ghost var m := mem[..];
    ghost var r := l + [b];
    assert l[p - 1] in l && l[p] in l;
    SetNext(mem, node, current, b);
    ghost var m1 := mem[..];
    SetNext(mem, previous, node, l[p - 1]);
    ghost var m2 := mem[..];
    SetPrev(mem, node, previous, b);
    ghost var m3 := mem[..];
    SetPrev(mem, current, node, l[p]);
    ghost var m4 := mem[..];
    InsertInMiddle(m, m1, m2, m3, m4, head, l, b, p);
    LinkSetOnlyLinks(m, m1, r, b, true, current);
    LinkSetOnlyLinks(m1, m2, r, l[p - 1], true, node);
    LinkSetOnlyLinks(m2, m3, r, b, false, previous);
    LinkSetOnlyLinks(m3, m4, r, l[p], false, node);
  }

  // ---------- remove_node ----------

  lemma RemoveNodeStep(m: seq<byte>, m1: seq<byte>, m2: seq<byte>, l: seq<Block>, q: nat, j: nat)
    requires j < |l| && j != q && NodeLinked(m, l, j)
    requires 0 < q < |l| && LinkSet(m, m1, l[q - 1], true, AddrAt(l, q + 1))
    requires if q + 1 < |l| then LinkSet(m1, m2, l[q + 1], false, l[q - 1].addr) else m2 == m1
    requires j == q - 1 || Apart(l[j], l[q - 1])
    requires q + 1 < |l| ==> j == q + 1 || Apart(l[j], l[q + 1])
    ensures LinksForRemove(m, m2, l, q, j)
  {
    LinkStep(m, m1, l[j], l[q - 1], true, AddrAt(l, q + 1));
    if q + 1 < |l| {
      LinkStep(m1, m2, l[j], l[q + 1], false, l[q - 1].addr);
    }
  }

  // Unlinking an inner node rewrites its predecessor's next and, if there is one,
  // its successor's prev.
  lemma RemoveInner(m: seq<byte>, m1: seq<byte>, m2: seq<byte>, head: int, l: seq<Block>, a: int, q: nat)
    requires Linked(m, head, l) && GoodNodes(m, l)
    requires 0 < q == IndexOf(l, a) < |l|
    requires LinkSet(m, m1, l[q - 1], true, AddrAt(l, q + 1))
    requires if q + 1 < |l| then LinkSet(m1, m2, l[q + 1], false, l[q - 1].addr) else m2 == m1
    ensures Linked(m2, AddrAt(Remove(l, a), 0), Remove(l, a))
    ensures OnlyLinks(m, m2, l)
  {
    forall j | 0 <= j < |l| && j != q ensures NodeLinked(m, l, j) && LinksForRemove(m, m2, l, q, j) {
      RemoveNodeStep(m, m1, m2, l, q, j);
    }
    LinkedAfterRemove(m, m2, head, l, a, q);
    LinkSetOnlyLinks(m, m1, l, l[q - 1], true, AddrAt(l, q + 1));
    if q + 1 < |l| {
      LinkSetOnlyLinks(m1, m2, l, l[q + 1], false, l[q - 1].addr);
    }
  }

  lemma RemoveHead(m: seq<byte>, head: int, l: seq<Block>, a: int)
    requires Linked(m, head, l)
    requires l != [] && l[0].addr == a
    ensures Linked(m, AddrAt(l, 1), Remove(l, a))
  {
    forall j | 0 <= j < |l| && j != 0 ensures NodeLinked(m, l, j) && LinksForRemove(m, m, l, 0, j) {
      assert NodeLinked(m, l, j);
    }
    LinkedAfterRemove(m, m, head, l, a, 0);
    RemovedAddr(l, a, 0);
  }

  // Unlink node from the list l of bin k. If it is the head, its successor keeps
  // the prev pointer it had.
  method RemoveNode(mem: array<byte>, bins: array<int>, k: nat, node: int, ghost l: seq<Block>)
    requires k < bins.Length
    requires Linked(mem[..], bins[k], l)
    requires GoodNodes(mem[..], l)
    requires IndexOf(l, node) < |l|
    modifies mem, bins
    ensures Linked(mem[..], bins[k], Remove(l, node))
    ensures OnlyLinks(old(mem[..]), mem[..], l)
    ensures forall i :: 0 <= i < bins.Length && i != k ==> bins[i] == old(bins[i])
  {
    ghost var q := IndexOf(l, node);
    ghost var m := mem[..];
    assert NodeLinked(m, l, 0);
    if bins[k] == node {
      RemoveHead(m, bins[k], l, node);
      bins[k] := GetPtr(mem, bins[k] + NEXT_AT);
      return;
    }
    var temp := GetPtr(mem, bins[k] + NEXT_AT);
    ghost var j := 1;
    while temp != 0 && temp != node
      invariant 1 <= j <= q
      invariant temp == AddrAt(l, j)
      decreases |l| - j
    {
      assert NodeLinked(m, l, j);
      temp := GetPtr(mem, temp + NEXT_AT);
      j := j + 1;
    }
    AddrAtNull(m, bins[k], l, j);
    assert j == q;
    UnlinkInner(mem, bins[k], temp, l, q);
    RemovedAddr(l, node, 0);
  }

  method UnlinkInner(mem: array<byte>, ghost head: int, temp: int, ghost l: seq<Block>, ghost q: nat)
    requires Linked(mem[..], head, l)
    requires GoodNodes(mem[..], l)
    requires 0 < q == IndexOf(l, temp) < |l|
    modifies mem
    ensures Linked(mem[..], AddrAt(Remove(l, temp), 0), Remove(l, temp))
    ensures OnlyLinks(old(mem[..]), mem[..], l)
  {
    ghost var m := mem[..];
    assert NodeLinked(m, l, q) && NodeLinked(m, l, q - 1);
    var prev, next := GetPtr(mem, temp + PREV_AT), GetPtr(mem, temp + NEXT_AT);
    AddrAtNull(m, head, l, q + 1);
    if next == 0 {
      SetNext(mem, prev, 0, l[q - 1]);
      RemoveInner(m, mem[..], mem[..], head, l, temp, q);
    } else {
      assert NodeLinked(m, l, q + 1);
      SetNext(mem, prev, next, l[q - 1]);
      ghost var m1 := mem[..];
      SetPrev(mem, next, prev, l[q + 1]);
      RemoveInner(m, m1, mem[..], head, l, temp, q);
    }
  }

  // ---------- get_best_fit ----------

  // The first node of bin k that covers size, or NULL.
  method GetBestFit(mem: array<byte>, bins: array<int>, k: nat, size: int, ghost l: seq<Block>) returns (found: int)
    requires k < bins.Length
    requires Linked(mem[..], bins[k], l)
    ensures found == AddrAt(l, FirstFit(l, size))
    ensures found == 0 <==> FirstFit(l, size) == |l|
  {
    found := bins[k];
    ghost var m := mem[..];
    ghost var p := 0;
    while found != 0 && GetSize(mem, found) < size
      invariant 0 <= p <= |l| && found == AddrAt(l, p)
      invariant forall j :: 0 <= j < p ==> l[j].size < size
      invariant p < |l| ==> NodeLinked(m, l, p)
      decreases |l| - p
    {
      found := GetPtr(mem, found + NEXT_AT);
      p := p + 1;
    }
    AddrAtNull(m, bins[k], l, p);
    assert p == FirstFit(l, size);
  }

  // ---------- get_bin_index ----------

  // The position of the highest one bit, less two, and never above the last bin.
  method GetBinIndex(size: nat) returns (index: nat)
    ensures index == BinIndex(size)
  {
    var sz := if size < 4 then 4 else size;
    ghost var s: nat := sz;
    assert Log2(s) == 2 + Log2(s / 2 / 2);
    index := 0;
    sz := sz / 2;
    while sz != 0
      invariant 0 <= sz
      invariant index + (if sz == 0 then 0 else 1 + Log2(sz)) == Log2(s)
      decreases sz
    {
      index := index + 1;
      sz := sz / 2;
    }
    index := index - 2;
    if index > BIN_MAX_IDX {
      index := BIN_MAX_IDX;
    }
  }
}
