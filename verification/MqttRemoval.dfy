// What the removal of a tracker's messages leaves of the send buffer, read off the bytes
// before. After a removal the scan goes on behind the length removed, over bytes that the
// removal has just moved there.
module MqttRemoval {
  import opened Bytes
  import opened MqttWire
  import opened MqttFrames
  import opened Memmove
  import opened MqttScan

  // ---------- a walk that moves nothing ----------

  // v, with b behind it, starts with a message that fits into v.
  predicate Headed(v: seq<byte>, b: seq<byte>) {
    v != [] && Plausible(v + b, |v|)
  }

  // The bytes the scan goes on with after a message of n bytes in front of p has been taken
  // out: p without its first n bytes, then the last n bytes of p, which the move leaves
  // where they were; all of p if the message was longer.
  function Beyond(p: seq<byte>, n: nat): (v: seq<byte>)
    ensures |v| == |p|
  {
    if n <= |p| then p[n..] + p[|p| - n..] else p
  }

  // What stays of p when the scan goes on behind its first n bytes and leaves k.
  function Behind(p: seq<byte>, n: nat, k: seq<byte>): (r: seq<byte>)
    requires |k| <= |p|
    ensures |r| == |k|
  {
    (p[..if n <= |p| then n else |p|] + k)[..|k|]
  }

  datatype Walk = Keeps(bytes: seq<byte>) | Endless

  // The bytes that stay of v, with b behind it, if the walk comes to an end.
  function Kept(v: seq<byte>, b: seq<byte>, key: int): (r: Walk)
    ensures r.Keeps? ==> |r.bytes| <= |v|
    decreases |v|
  {
    if !Headed(v, b) then Keeps(v)
    else
      var n := WholeLength(v + b);
      var p := v[n..];
      if n == 0 then Endless
      else if ReadTag(v[0]) == key then WalkBehind(p, n, Kept(Beyond(p, n), b, key))
      else WalkOver(v[..n], Kept(p, b, key))
  }

  function WalkBehind(p: seq<byte>, n: nat, w: Walk): (r: Walk)
    requires w.Keeps? ==> |w.bytes| <= |p|
    ensures r.Keeps? <==> w.Keeps?
    ensures r.Keeps? ==> |r.bytes| == |w.bytes|
  {
    match w
    case Keeps(k) => Keeps(Behind(p, n, k))
    case Endless => Endless
  }

  function WalkOver(h: seq<byte>, w: Walk): (r: Walk)
    ensures r.Keeps? <==> w.Keeps?
    ensures r.Keeps? ==> |r.bytes| == |h| + |w.bytes|
  {
    match w
    case Keeps(k) => Keeps(h + k)
    case Endless => Endless
  }

  lemma KeptStep(v: seq<byte>, b: seq<byte>, key: int)
    requires Headed(v, b)
    ensures var n := WholeLength(v + b);
            && n <= |v|
            && Kept(v, b, key) == if n == 0 then Endless
                                  else if ReadTag(v[0]) == key
                                  then WalkBehind(v[n..], n, Kept(Beyond(v[n..], n), b, key))
                                  else WalkOver(v[..n], Kept(v[n..], b, key))
  {
    hide WholeLength, Beyond, WalkBehind, WalkOver;
    assert (v + b)[0] == v[0];
  }

  // ---------- headers that stop nothing and move nothing ----------

  // The walk comes to a header that fits and whose length is 0.
  predicate Stalls(v: seq<byte>, b: seq<byte>, key: int)
    decreases |v|
  {
    Headed(v, b) &&
    var n := WholeLength(v + b);
    var p := v[n..];
    n == 0 || Stalls(if ReadTag(v[0]) == key then Beyond(p, n) else p, b, key)
  }

  lemma {:induction false} EndlessIff(v: seq<byte>, b: seq<byte>, key: int)
    ensures Kept(v, b, key) == Endless <==> Stalls(v, b, key)
    decreases |v|
  {
    hide Beyond, Behind, WholeLength;
    if Headed(v, b) && WholeLength(v + b) > 0 {
      var n := WholeLength(v + b);
      EndlessIff(if ReadTag(v[0]) == key then Beyond(v[n..], n) else v[n..], b, key);
    }
  }

  // ---------- the scan and the walk ----------

  // m holds k at offset at, and is m0 before.
  ghost predicate Leaves(m0: seq<byte>, m: seq<byte>, at: nat, k: seq<byte>) {
    at + |k| <= |m| == |m0| && m[..at] == m0[..at] && m[at..at + |k|] == k
  }

  lemma LeavesBehind(m0: seq<byte>, m1: seq<byte>, m: seq<byte>, at: nat, n: nat, p: seq<byte>, k: seq<byte>)
    requires at + n + |p| <= |m0| && p == m0[at + n..at + n + |p|] && m1 == AfterMove(m0, at, n, |p|)
    requires |k| <= |p| && Leaves(m1, m, at + n, k)
    ensures Leaves(m0, m, at, Behind(p, n, k))
  {
    var r := Behind(p, n, k);
    assert m[..at] == m[..at + n][..at] == m1[..at + n][..at] == m0[..at];
    forall j | 0 <= j < |r| ensures m[at..at + |r|][j] == r[j] {
      if j < n {
        assert m[at + j] == m[..at + n][at + j] == m1[at + j] == m0[at + n + j] == p[j];
      } else {
        assert m[at + j] == m[at + n..at + n + |k|][j - n] == k[j - n];
      }
    }
  }

  lemma LeavesOn(m0: seq<byte>, m: seq<byte>, at: nat, h: seq<byte>, k: seq<byte>)
    requires at + |h| <= |m0| && h == m0[at..at + |h|] && Leaves(m0, m, at + |h|, k)
    ensures Leaves(m0, m, at, h + k)
  {
    var n := at + |h|;
    assert m[..at] == m[..n][..at] == m0[..n][..at] == m0[..at];
    assert m[at..n] == m[..n][at..] == m0[..n][at..] == h;
    assert m[at..n + |k|] == m[at..n] + m[n..n + |k|];
  }

  lemma BeyondMoved(m0: seq<byte>, at: nat, n: nat, p: seq<byte>)
    requires at + n + |p| <= |m0| && p == m0[at + n..at + n + |p|]
    ensures AfterMove(m0, at, n, |p|)[at + n..at + n + |p|] == Beyond(p, n)
  {
    var m1, v := AfterMove(m0, at, n, |p|), Beyond(p, n);
    forall j | 0 <= j < |p| ensures m1[at + n + j] == v[j] {
      if n <= |p| {
        if j < |p| - n {
          assert m1[at + n + j] == m0[at + n + (n + j)] == p[n + j];
        } else {
          assert m1[at + n + j] == m0[at + n + j] == p[j] == p[|p| - n..][j - (|p| - n)];
        }
      } else {
        assert m1[at + n + j] == m0[at + n + j] == p[j];
      }
    }
  }

  function Front(c: Cursor): seq<byte>
    requires Within(c)
  {
    c.mem[c.at..c.at + c.left]
  }

  function Back(c: Cursor): seq<byte>
    requires Within(c)
  {
    c.mem[c.at + c.left..]
  }

  lemma FrontHeaded(c: Cursor)
    requires Within(c)
    ensures Headed(Front(c), Back(c)) <==> !Stops(c)
    ensures Front(c) + Back(c) == c.mem[c.at..] && (c.left > 0 ==> Front(c)[0] == c.mem[c.at])
  {
    assert Front(c) + Back(c) == c.mem[c.at..];
  }

  // What the scan leaves from the cursor on is what the walk keeps of the bytes there.
  ghost predicate ScanKeeps(c: Cursor, key: int)
    requires Within(c)
  {
    match Kept(Front(c), Back(c), key)
    case Keeps(k) =>
      var r := Scan(c, key); r.Done? && r.len == c.len - c.left + |k| && Leaves(c.mem, r.mem, c.at, k)
    case Endless => Scan(c, key) == Forever
  }

  lemma KeepsAll(c: Cursor, key: int)
    requires Within(c) && Stops(c)
    ensures ScanKeeps(c, key)
  {
    FrontHeaded(c);
  }

  lemma RoundParts(c: Cursor, key: int) returns (v: seq<byte>, n: nat, p: seq<byte>)
    requires Within(c) && !Stops(c)
    ensures v == Front(c) && n == Ahead(c) <= c.left == |v| && p == v[n..]
    ensures c.at + n + |p| <= |c.mem| && p == c.mem[c.at + n..c.at + n + |p|] && v[..n] == c.mem[c.at..c.at + n]
    ensures Back(Round(c, key)) == Back(c)
    ensures Round(c, key).len == if ReadTag(c.mem[c.at]) == key then c.len - n else c.len
    ensures if ReadTag(c.mem[c.at]) == key
            then Round(c, key).mem == AfterMove(c.mem, c.at, n, |p|) && Front(Round(c, key)) == Beyond(p, n)
            else Round(c, key).mem == c.mem && Front(Round(c, key)) == p
  {
    hide AfterMove, WholeLength, Beyond, ReadTag;
    v, n := Front(c), Ahead(c);
    p := v[n..];
    FrontParts(c.mem, c.at, n, c.left);
    if ReadTag(c.mem[c.at]) == key {
      BeyondMoved(c.mem, c.at, n, p);
      BackStays(c.mem, c.at, n, c.left);
    }
  }

  lemma FrontParts(m: seq<byte>, at: nat, n: nat, left: nat)
    requires n <= left && at + left <= |m|
    ensures m[at..at + left][..n] == m[at..at + n] && m[at..at + left][n..] == m[at + n..at + left]
  {
  }

  lemma BackStays(m: seq<byte>, at: nat, n: nat, left: nat)
    requires n <= left && at + left <= |m|
    ensures AfterMove(m, at, n, left - n)[at + left..] == m[at + left..]
  {
    hide AfterMove;
    var r := AfterMove(m, at, n, left - n);
    assert forall j :: at + left <= j < |m| ==> r[j] == m[j];
  }

  lemma KeepsRound(c: Cursor, key: int)
    requires Within(c) && !Stops(c) && Ahead(c) > 0 && ScanKeeps(Round(c, key), key)
    ensures ScanKeeps(c, key)
  {
    hide AfterMove, Plausible, WholeLength, Beyond, Behind, Kept, Leaves, Front, Back, Round, Scan, Headed;
    var d := Round(c, key);
    FrontHeaded(c);
    var v, n, p := RoundParts(c, key);
    KeptStep(v, Back(c), key);
    ScanOnce(c, key);
    if Kept(Front(d), Back(d), key).Keeps? {
      var k, m := Kept(Front(d), Back(d), key).bytes, Scan(d, key).mem;
      if ReadTag(c.mem[c.at]) == key {
        LeavesBehind(c.mem, d.mem, m, c.at, n, p, k);
      } else {
        LeavesOn(c.mem, m, c.at, v[..n], k);
      }
    }
  }

  // The scan in place and the walk that moves nothing agree, whatever the buffer and the
  // memory behind it hold: in what is left, and in whether there is an end.
  lemma {:induction false} ScanIsKept(c: Cursor, key: int)
    requires Within(c)
    ensures ScanKeeps(c, key)
    decreases c.left
  {
    hide Plausible, WholeLength, AfterMove, ScanKeeps;
    if Stops(c) {
      KeepsAll(c, key);
    } else if Ahead(c) == 0 {
      KeepsForever(c, key);
    } else {
      ScanIsKept(Round(c, key), key);
      KeepsRound(c, key);
    }
  }

  lemma KeepsForever(c: Cursor, key: int)
    requires Within(c) && !Stops(c) && Ahead(c) == 0
    ensures ScanKeeps(c, key)
  {
    FrontHeaded(c);
    KeptStep(Front(c), Back(c), key);
  }

  // ---------- in place ----------

  // One round of the loop, at a header that fits.
  method RemoveOne(data: array<byte>, at: nat, left: nat, len: nat, key: int, tag: int, n: nat) returns (r: nat)
    requires at + left <= data.Length && 0 < left <= len && Plausible(data[at..], left)
    requires tag == ReadTag(data[at]) && n == WholeLength(data[at..])
    modifies data
    ensures n <= left <= r + n
    ensures Cursor(data[..], at + n, left - n, r) == Round(Cursor(old(data[..]), at, left, len), key)
  {
    hide AfterMove, WholeLength;
    ghost var c := Cursor(data[..], at, left, len);
    assert c.mem[c.at..] == data[at..];
    r := len;
    if tag == key {
      MoveDown(data, at, n, left - n);
      r := len - n;
    }
  }

  // The scan in place. ends tells whether the loop comes to an end: at a header of length 0
  // that fits it goes round for ever.
  method RemoveSent(data: array<byte>, len: nat, key: int) returns (ends: bool, r: nat)
    requires len <= data.Length
    modifies data
    ensures Scan(Cursor(old(data[..]), 0, len, len), key) == if ends then Done(data[..], r) else Forever
    ensures Kept(old(data[..len]), old(data[len..]), key).Keeps? <==> ends
    ensures ends ==> r <= len && data[..r] == Kept(old(data[..len]), old(data[len..]), key).bytes
  {
    hide Scan, Plausible, WholeLength, Kept;
    ghost var c := Cursor(data[..], 0, len, len);
    ScanIsKept(c, key);
    assert Front(c) == data[..len] && Back(c) == data[len..];
    r := len;
    var at: nat, left: nat := 0, len;
    while left > 0
      invariant at + left == len && left <= r
      invariant Scan(c, key) == Scan(Cursor(data[..], at, left, r), key)
    {
      ghost var d := Cursor(data[..], at, left, r);
      assert d.mem[d.at..] == data[at..];
      var tag, n, plausible := HeaderAt(data, at, left);
      ScanOnce(d, key);
      if !plausible {
        return true, r;
      }
      if n == 0 {
        return false, r;
      }
      r := RemoveOne(data, at, left, r, key, tag, n);
      at, left := at + n, left - n;
    }
    ScanOnce(Cursor(data[..], at, left, r), key);
    ends := true;
  }
}
