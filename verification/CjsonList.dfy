// The sibling lists of cJSON: next ends in null, prev of the first item is the last.
module CjsonList {

  class Node {
    var next: Node?
    var prev: Node?
    var child: Node?
    // The children in order.
    ghost var items: seq<Node>

    constructor ()
      ensures next == null && prev == null && child == null && items == [] && Valid()
    {
      next, prev, child, items := null, null, null, [];
    }

    ghost predicate Valid()
      reads this, items
    {
      && this !in items
      && Distinct(items)
      && child == (if items == [] then null else items[0])
      && forall i :: 0 <= i < |items| ==> Linked(items, i)
    }

    // The linking in parse_array and parse_object: every new item goes behind the current
    // one, and at the end the head is told the tail.
    method LinkParsed(count: nat)
      requires Valid() && items == []
      modifies this
      ensures Valid() && |items| == count && fresh(items)
    {
      var head: Node?, current: Node? := null, null;
      ghost var s: seq<Node> := [];
      var n := 0;
      while n < count
        invariant n <= count && |s| == n && Distinct(s) && this !in s && fresh(s)
        invariant if n == 0 then head == null else head == s[0] && current == s[n - 1]
        invariant forall i :: 0 <= i < n ==> Chained(s, i)
      {
        label before:
        ghost var was := s;
        var item := new Node();
        if head == null {
          head := item;
        } else {
          current.next := item;
          item.prev := current;
        }
        current := item;
        s := s + [item];
        forall i | 0 <= i < n + 1 ensures Chained(s, i) {
          if i < n {
            assert old@before(Chained(was, i));
            DistinctAt(was, i, n - 1);
          }
        }
        n := n + 1;
      }
      label linked:
      assert forall i :: 0 <= i < count ==> Chained(s, i);
      if head != null {
        head.prev := current;
      }
      child := head;
      items := s;
      forall i | 0 <= i < |s| ensures Linked(s, i) {
        assert old@linked(Chained(s, i));
        DistinctAt(s, i, 0);
      }
    }

    // add_item_to_array. In a list that has items, an item that is still linked to a
    // successor must not be added.
    method AddItemToArray(item: Node?) returns (ok: bool)
      requires Valid()
      requires item != null ==> item !in items && (items != [] ==> item.next == null)
      modifies this, items, item
      ensures Valid() && ok == (item != null && item != this)
      ensures items == if item != null && item != this then old(items) + [item] else old(items)
    {
      if item == null || item == this {
        return false;
      }
      ghost var t: seq<Node> := items + [item];
      if child == null {
        child := item;
        item.prev := item;
        item.next := null;
      } else {
        assert Linked(items, 0);
        if child.prev != null {
          assert Linked(items, |items| - 1);
          child.prev.next := item;
          item.prev := child.prev;
          child.prev := item;
        }
      }
      ghost var s := items;
      items := t;
      forall i | 0 <= i < |t| ensures Linked(t, i) {
        if i < |s| {
          assert old(Linked(items, i));
          DistinctAt(s, i, |s| - 1);
        }
      }
      ok := true;
    }

    // get_array_item.
    method GetArrayItem(index: nat) returns (r: Node?)
      requires Valid()
      ensures r == if index < |items| then items[index] else null
    {
      r := child;
      var left: nat := index;
      ghost var k := 0;
      while r != null && left > 0
        invariant k + left == index && k <= |items|
        invariant r == if k < |items| then items[k] else null
        decreases left
      {
        assert Linked(items, k);
        left := left - 1;
        r := r.next;
        k := k + 1;
      }
    }

    // cJSON_InsertItemInArray: past the end it appends.
    method InsertItemInArray(which: int, item: Node?) returns (ok: bool)
      requires Valid() && (item == null ==> !(0 <= which < |items|))
      requires item != null ==> item !in items && (which < |items| ==> item != this)
      requires item != null && which >= |items| > 0 ==> item.next == null
      modifies this, items, item
      ensures Valid() && ok == (which >= 0 && item != null && item != this)
      ensures items == if !ok then old(items)
                       else if which < |old(items)| then old(items)[..which] + [item] + old(items)[which..]
                       else old(items) + [item]
    {
      if which < 0 {
        return false;
      }
      var after := GetArrayItem(which);
      if after == null {
        ok := AddItemToArray(item);
        return;
      }
      InsertBefore(which, after, item);
      ok := true;
    }

    // The links of an item that goes before the one at place which.
    method InsertBefore(which: nat, after: Node, item: Node)
      requires Valid() && which < |items| && items[which] == after && item !in items && item != this
      modifies this, items, item
      ensures Valid() && items == old(items)[..which] + [item] + old(items)[which..]
    {
      ghost var s := items;
      ghost var t := s[..which] + [item] + s[which..];
      assert Linked(s, which);
      if which > 0 {
        assert Linked(s, which - 1);
      }
      item.next := after;
      item.prev := after.prev;
      after.prev := item;
      if after == child {
        DistinctAt(s, which, 0);
        child := item;
      } else {
        item.prev.next := item;
      }
      InsertedDistinct(s, item, which);
      forall i | 0 <= i < |t| ensures Linked(t, i) {
        var j := if i <= which then i else i - 1;
        if j < |s| {
          assert old(Linked(items, j));
        }
      }
      items := t;
    }

    // cJSON_DetachItemViaPointer, for a child of this node; k is its place.
    method DetachItemViaPointer(item: Node?, ghost k: nat) returns (r: Node?)
      requires Valid() && (item != null ==> k < |items| && items[k] == item)
      modifies this, items
      ensures Valid() && r == item
      ensures item == null ==> items == old(items)
      ensures item != null ==> items == old(items)[..k] + old(items)[k + 1..] && item.next == null && item.prev == null
    {
      if item == null {
        return null;
      }
      ghost var s := items;
      ghost var t := s[..k] + s[k + 1..];
      ghost var n := |s|;
      assert Linked(s, k) && Linked(s, n - 1) && Linked(s, 0);
      if k > 0 {
        assert Linked(s, k - 1);
        DistinctAt(s, k, 0);
      }
      if k + 1 < n {
        assert Linked(s, k + 1);
      }
      if item != child {
        item.prev.next := item.next;
      }
      if item.next != null {
        item.next.prev := item.prev;
      }
      if item == child {
        child := item.next;
      } else if item.next == null {
        child.prev := item.prev;
      }
      item.prev := null;
      item.next := null;
      DetachedDistinct(s, k);
      forall i | 0 <= i < |t| ensures Linked(t, i) {
        var j := if i < k then i else i + 1;
        assert old(Linked(items, j));
        DistinctAt(s, j, k);
        if k > 0 {
          DistinctAt(s, j, k - 1);
        }
        if k + 1 < n {
          DistinctAt(s, j, k + 1);
        }
        DistinctAt(s, j, 0);
      }
      items := t;
      r := item;
    }

    // cJSON_ReplaceItemViaPointer; k is the place of the item replaced.
    method ReplaceItemViaPointer(item: Node?, replacement: Node?, ghost k: nat) returns (ok: bool)
      requires Valid() && (item != null ==> k < |items| && items[k] == item)
      requires replacement != null && replacement != item ==> replacement !in items && replacement != this
      modifies this, items, replacement
      ensures Valid() && ok == (item != null && replacement != null)
      ensures items == if item == null || replacement == null then old(items) else old(items)[k := replacement]
      ensures ok && replacement != item ==> item.next == null && item.prev == null
    {
      if child == null || replacement == null || item == null {
        return false;
      }
      if replacement == item {
        assert items[k := replacement] == items;
        return true;
      }
      ghost var s := items;
      ghost var t: seq<Node> := s[k := replacement];
      ghost var n := |s|;
      assert Linked(s, k) && Linked(s, n - 1) && Linked(s, 0);
      DistinctAt(s, k, 0);
      DistinctAt(s, k, n - 1);
      if k > 0 {
        assert Linked(s, k - 1);
      }
      if k + 1 < n {
        assert Linked(s, k + 1);
      }
      replacement.next := item.next;
      replacement.prev := item.prev;
      if replacement.next != null {
        replacement.next.prev := replacement;
      }
      if child == item {
        if child.prev == child {
          replacement.prev := replacement;
        }
        child := replacement;
      } else {
        if replacement.prev != null {
          replacement.prev.next := replacement;
        }
        if replacement.next == null {
          child.prev := replacement;
        }
      }
      item.next := null;
      item.prev := null;
      items := t;
      forall i | 0 <= i < n ensures Linked(t, i) {
        assert old(Linked(items, i));
        DistinctAt(s, i, k);
        if k > 0 {
          DistinctAt(s, i, k - 1);
        }
        if k + 1 < n {
          DistinctAt(s, i, k + 1);
        }
        DistinctAt(s, i, 0);
      }
      ok := true;
    }
  }

  // ---------- lists of nodes ----------

  ghost predicate Distinct(s: seq<Node>) {
    forall i, j :: 0 <= i < j < |s| ==> s[i] != s[j]
  }

  ghost predicate Linked(s: seq<Node>, i: nat)
    requires i < |s|
    reads s[i]
  {
    && s[i].next == (if i + 1 < |s| then s[i + 1] else null)
    && s[i].prev == (if i == 0 then s[|s| - 1] else s[i - 1])
  }

  // Linked, but for the prev of the head.
  ghost predicate Chained(s: seq<Node>, i: nat)
    requires i < |s|
    reads s[i]
  {
    && s[i].next == (if i + 1 < |s| then s[i + 1] else null)
    && (i > 0 ==> s[i].prev == s[i - 1])
  }

  lemma DistinctAt(s: seq<Node>, i: nat, j: nat)
    requires Distinct(s) && i < |s| && j < |s|
    ensures s[i] == s[j] <==> i == j
  {
  }

  lemma InsertedDistinct(s: seq<Node>, x: Node, k: nat)
    requires Distinct(s) && x !in s && k <= |s|
    ensures Distinct(s[..k] + [x] + s[k..])
  {
  }

  lemma DetachedDistinct(s: seq<Node>, k: nat)
    requires Distinct(s) && k < |s|
    ensures Distinct(s[..k] + s[k + 1..]) && s[k] !in s[..k] + s[k + 1..]
  {
  }

  // ---------- following the chains ----------

  ghost function Forward(p: Node?, n: nat, world: set<Node>): Node?
    reads world
    decreases n
  {
    if n == 0 || p == null || p !in world then p else Forward(p.next, n - 1, world)
  }

  // Following next from item i of a valid list visits the items in order and leaves the
  // list at its end: the chain has no cycle. Following prev from the head gives the tail.
  lemma {:induction false} ForwardVisits(a: Node, world: set<Node>, i: nat, n: nat)
    requires a.Valid() && i < |a.items| && (forall x :: x in a.items ==> x in world)
    ensures Forward(a.items[i], n, world) == if i + n < |a.items| then a.items[i + n] else null
    decreases n
  {
    if n > 0 {
      assert Linked(a.items, i);
      if i + 1 < |a.items| {
        ForwardVisits(a, world, i + 1, n - 1);
      } else {
        assert Forward(null, n - 1, world) == null;
      }
    }
  }
}
