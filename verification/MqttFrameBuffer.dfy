// A frame buffer on bytes: append at the end, consume at the front, look up and
// remove by tag.
module MqttFrameBuffer {
  import opened Bytes
  import opened Memmove
  import opened MqttWire
  import opened MqttFrames
  import opened MqttRemoval
  import opened MqttExact

  // s after the removal of the frame of n bytes at offset at from frames of len bytes in
  // all. The code moves as many bytes as all other frames have, not only those that follow.
  function AfterRemoval(s: seq<byte>, at: nat, n: nat, len: nat): (r: seq<byte>)
    requires n <= len && at + len <= |s|
    ensures |r| == |s| && forall j :: at + len - n <= j < |s| ==> r[j] == s[j]
  {
    AfterMove(s, at, n, len - n)
  }

  class FrameBuffer {
    const size: nat
    // The buffer and as many bytes behind it, which an overlong move may touch.
    const data: array<byte>
    var len: nat
    ghost var frames: seq<Frame>

    ghost predicate Valid()
      reads this, data
    {
      && data.Length == 2 * size && len <= size
      && AllOk(frames) && data[..len] == Flatten(frames)
    }

    constructor (capacity: nat)
      ensures Valid() && fresh(data) && size == capacity && frames == []
    {
      size := capacity;
      data := new byte[2 * capacity](_ => 0);
      len := 0;
      frames := [];
    }

    // Free bytes.
    function Rest(): nat
      requires len <= size
      reads this
    {
      size - len
    }

    method Copy(at: nat, s: seq<byte>)
      requires at + |s| <= data.Length
      modifies data
      ensures data[at..at + |s|] == s
      ensures forall i :: 0 <= i < data.Length && !(at <= i < at + |s|) ==> data[i] == old(data[i])
    {
      for i := 0 to |s|
        invariant forall j :: at <= j < at + i ==> data[j] == s[j - at]
        invariant forall j :: 0 <= j < data.Length && !(at <= j < at + i) ==> data[j] == old(data[j])
      {
        data[at + i] := s[i];
      }
    }

    // Put a frame behind the others.
    method Append(tag: int, mtype: nat, packet: seq<byte>)
      requires Valid()
      requires FrameOk(Frame(tag, mtype, packet)) && HEADER_LEN + |packet| <= Rest()
      modifies this, data
      ensures Valid() && frames == old(frames) + [Frame(tag, mtype, packet)]
      ensures len == old(len) + HEADER_LEN + |packet|
    {
      hide Flatten, TotalLen, PadLen;
      ghost var f := Frame(tag, mtype, packet);
      ghost var before := data[..len];
      Copy(len + HEADER_LEN, packet);
      Copy(len, [TagByte(tag), mtype] + PadLen(|packet|));
      assert data[..len] == before;
      assert data[len + HEADER_LEN..len + FrameLen(f)] == packet;
      assert data[..len + FrameLen(f)] == before + FrameBytes(f);
      len := len + HEADER_LEN + |packet|;
      FlattenOne(f);
      FlattenAppend(frames, [f]);
      frames := frames + [f];
    }

    // The header fields of the frame at offset at.
    method ParseHeader(at: nat, ghost k: nat) returns (tag: int, mtype: nat, packetLen: nat)
      requires Valid() && k < |frames| && at == TotalLen(frames[..k])
      ensures tag == frames[k].tag && mtype == frames[k].mtype && packetLen == |frames[k].packet|
      ensures at + HEADER_LEN + packetLen <= len
    {
      hide Flatten, TotalLen, FrameOk, Header, ReadPad, ReadTag;
      FrameAt(frames, k);
      PrefixSlice(data[..], len, at, at + HEADER_LEN);
      HeaderRoundTrip(frames[k]);
      tag := ReadTag(data[at]);
      mtype := data[at + 1];
      packetLen := ReadPad(data[at + 2..at + HEADER_LEN]);
      assert data[at..at + HEADER_LEN][2..] == data[at + 2..at + HEADER_LEN];
    }

    // The packet of the first frame.
    method Front() returns (tag: int, mtype: nat, packet: seq<byte>)
      requires Valid() && frames != []
      ensures Frame(tag, mtype, packet) == frames[0]
    {
      assert TotalLen(frames[..0]) == 0;
      var n;
      tag, mtype, n := ParseHeader(0, 0);
      hide Flatten, TotalLen, FrameOk;
      packet := data[HEADER_LEN..HEADER_LEN + n];
      FrameAt(frames, 0);
      PrefixSlice(data[..], len, HEADER_LEN, HEADER_LEN + n);
    }

    // Take the n bytes at offset at out of the first total bytes by moving down the
    // moved bytes behind them.
    method CutOut(at: nat, n: nat, total: nat, moved: nat)
      requires at + n <= total <= at + n + moved && at + n + moved <= data.Length
      modifies data
      ensures data[..total - n] == old(data[..at]) + old(data[at + n..total])
      ensures data[..] == AfterMove(old(data[..]), at, n, moved)
    {
      ghost var before := data[..];
      MoveDown(data, at, n, moved);
      ghost var after := AfterMove(before, at, n, moved);
      MovedPrefix(before, after, at, n, total, moved);
      assert data[..total - n] == after[..total - n];
      assert before[..at] == old(data[..at]) && before[at + n..total] == old(data[at + n..total]);
    }

    // Drop the first frame.
    method DropFront()
      requires Valid() && frames != []
      modifies this, data
      ensures Valid() && frames == old(frames)[1..]
    {
      assert TotalLen(frames[..0]) == 0;
      var tag, mtype, n := ParseHeader(0, 0);
      var w := HEADER_LEN + n;
      ghost var s := data[..len];
      assert s[w..] == data[w..len];
      CutOut(0, w, len, len - w);
      len := len - w;
      assert s[w..] == Flatten(frames[1..]);
      frames := frames[1..];
    }

    // The offset and the whole length of the first frame tagged key.
    method Find(key: int) returns (found: bool, at: nat, frameLen: nat)
      requires Valid()
      ensures found <==> FindTag(frames, key) < |frames|
      ensures found ==> at == TotalLen(frames[..FindTag(frames, key)])
                        && frameLen == FrameLen(frames[FindTag(frames, key)])
                        && at + frameLen <= len
    {
      at, found, frameLen := 0, false, 0;
      ghost var k := 0;
      assert TotalLen(frames[..0]) == 0;
      while at < len && !found
        invariant k <= |frames| && at == TotalLen(frames[..k]) && at <= len
        invariant forall j :: 0 <= j < k ==> frames[j].tag != key
        invariant found ==> k < |frames| && frames[k].tag == key && frameLen == FrameLen(frames[k])
        invariant found ==> at + frameLen <= len
        decreases len - at, !found
      {
        PositionInside(frames, k);
        var tag, mtype, n := ParseHeader(at, k);
        frameLen := HEADER_LEN + n;
        if tag == key {
          found := true;
        } else {
          TakeOneMore(frames, k);
          at := at + frameLen;
          k := k + 1;
        }
      }
      if !found {
        PositionAtEnd(frames, k);
      }
      assert found ==> k == FindTag(frames, key);
    }

    // Remove the frame at offset at. The number of bytes moved is the length of the
    // whole buffer less the frame, as if the frame were the first; the frames come out
    // right, and the bytes from the end of the move on are untouched.
    method RemoveAt(at: nat, frameLen: nat, ghost k: nat)
      requires Valid() && k < |frames| && at == TotalLen(frames[..k]) && frameLen == FrameLen(frames[k])
      modifies this, data
      ensures Valid() && frames == old(frames)[..k] + old(frames)[k + 1..]
      ensures frameLen <= old(len) && at + old(len) <= data.Length
      ensures data[..] == AfterRemoval(old(data[..]), at, frameLen, old(len))
      ensures forall i :: at <= at + old(len) - frameLen <= i < data.Length ==> data[i] == old(data[i])
    {
      hide Flatten, FrameBytes, Header, TotalLen, FrameOk, AfterMove;
      RemainingBytes(data[..], len, frames, k);
      CutOut(at, frameLen, len, len - frameLen);
      len := len - frameLen;
      frames := frames[..k] + frames[k + 1..];
    }

    // Remove the first frame tagged key, if there is one.
    method RemoveByTag(key: int)
      requires Valid()
      modifies this, data
      ensures Valid() && frames == RemoveTag(old(frames), key)
    {
      var found, at, n := Find(key);
      if found {
        RemoveAt(at, n, FindTag(frames, key));
      }
    }

    // mqtt_remove_send_message: if it comes to an end, what is left is what the walk keeps of
    // the bytes before, whole frames if the removal is exact.
    method RemoveQueued(key: int) returns (ends: bool)
      requires Valid()
      modifies this, data
      ensures var w := Kept(old(data[..len]), old(data[len..]), key);
              ends == w.Keeps? && (ends ==> len <= old(len) && data[..len] == w.bytes)
      ensures ExactOn(old(frames), old(data[len..]), key) ==>
                ends && Valid() && frames == WithoutTag(old(frames), key)
    {
      hide Kept, WithoutTag;
      ends, len := RemoveSent(data, len, key);
      frames := WithoutTag(frames, key);
    }

    // The frame at offset at.
    method FrameFrom(at: nat, ghost k: nat) returns (tag: int, mtype: nat, packet: seq<byte>)
      requires Valid() && k < |frames| && at == TotalLen(frames[..k])
      ensures Frame(tag, mtype, packet) == frames[k]
    {
      var n;
      tag, mtype, n := ParseHeader(at, k);
      packet := data[at + HEADER_LEN..at + HEADER_LEN + n];
      FrameAt(frames, k);
      PrefixSlice(data[..], len, at + HEADER_LEN, at + HEADER_LEN + n);
    }

    // Set the DUP bit of the packet in the frame at offset at.
    method MarkDup(at: nat, ghost k: nat)
      requires Valid() && k < |frames| && at == TotalLen(frames[..k])
      modifies this, data
      ensures Valid() && len == old(len)
      ensures frames == old(frames)[k := old(frames)[k].(packet := SetDup(old(frames)[k].packet))]
    {
      hide Flatten, TotalLen, Header;
      FrameAt(frames, k);
      ghost var s := data[..len];
      ghost var p := frames[k].packet;
      var pos := at + HEADER_LEN;
      assert s[pos..at + FrameLen(frames[k])][0] == p[0] && data[pos] == s[pos];
      if !DupOf(data[pos]) {
        DupBit(data[pos]);
        data[pos] := data[pos] + 8;
      }
      assert data[..len] == s[pos := SetDup(p)[0]];
      PacketReplaced(frames, k);
      frames := frames[k := frames[k].(packet := SetDup(p))];
    }

    method Clear()
      requires Valid()
      modifies this, data
      ensures Valid() && frames == []
    {
      len := 0;
      frames := [];
    }
  }

  // ---------- where frame k lies ----------

  lemma Around(fs: seq<Frame>, k: nat)
    requires k < |fs|
    ensures fs == fs[..k] + [fs[k]] + fs[k + 1..]
  {
  }

  lemma SplitAt(fs: seq<Frame>, k: nat)
    requires AllOk(fs) && k < |fs|
    ensures AllOk(fs[..k]) && AllOk(fs[k + 1..])
    ensures Flatten(fs) == Flatten(fs[..k]) + FrameBytes(fs[k]) + Flatten(fs[k + 1..])
  {
    hide Flatten, FrameBytes, TotalLen, FrameOk;
    Around(fs, k);
    FlattenThree(fs[..k], fs[k], fs[k + 1..]);
  }

  lemma FlattenThree(a: seq<Frame>, f: Frame, b: seq<Frame>)
    requires AllOk(a) && FrameOk(f) && AllOk(b)
    ensures AllOk(a + [f] + b)
    ensures Flatten(a + [f] + b) == Flatten(a) + FrameBytes(f) + Flatten(b)
  {
    FlattenOne(f);
    FlattenAppend(a, [f]);
    FlattenAppend(a + [f], b);
  }

  lemma WithoutFrame(fs: seq<Frame>, k: nat)
    requires AllOk(fs) && k < |fs|
    ensures var at, n := TotalLen(fs[..k]), FrameLen(fs[k]);
            && AllOk(fs[..k] + fs[k + 1..]) && at + n <= |Flatten(fs)|
            && Flatten(fs[..k] + fs[k + 1..]) == Flatten(fs)[..at] + Flatten(fs)[at + n..]
  {
    hide Flatten, FrameBytes, TotalLen;
    SplitAt(fs, k);
    FlattenAppend(fs[..k], fs[k + 1..]);
    CutMiddle(Flatten(fs[..k]), FrameBytes(fs[k]), Flatten(fs[k + 1..]));
  }

  // The bytes of the other frames in an array d that starts with those of fs.
  lemma RemainingBytes(d: seq<byte>, len: nat, fs: seq<Frame>, k: nat)
    requires AllOk(fs) && k < |fs| && len <= |d| && d[..len] == Flatten(fs)
    ensures var at, n := TotalLen(fs[..k]), FrameLen(fs[k]);
            && at + n <= len && AllOk(fs[..k] + fs[k + 1..])
            && d[..at] + d[at + n..len] == Flatten(fs[..k] + fs[k + 1..])
  {
    hide Flatten, FrameBytes, TotalLen, FrameOk;
    WithoutFrame(fs, k);
    var at, n := TotalLen(fs[..k]), FrameLen(fs[k]);
    PrefixSlice(d, len, 0, at);
    PrefixSlice(d, len, at + n, len);
    assert d[..len][0..at] == d[..len][..at] && d[0..at] == d[..at] && d[..len][at + n..len] == d[..len][at + n..];
  }

  lemma FrameAt(fs: seq<Frame>, k: nat)
    requires AllOk(fs) && k < |fs|
    ensures var at := TotalLen(fs[..k]);
            && at + FrameLen(fs[k]) <= |Flatten(fs)|
            && Flatten(fs)[at..at + HEADER_LEN] == Header(fs[k])
            && Flatten(fs)[at + HEADER_LEN..at + FrameLen(fs[k])] == fs[k].packet
  {
    hide Flatten, Header, TotalLen;
    SplitAt(fs, k);
    Middle(Flatten(fs[..k]), Header(fs[k]), fs[k].packet, Flatten(fs[k + 1..]));
  }

  lemma Middle(a: seq<byte>, h: seq<byte>, p: seq<byte>, b: seq<byte>)
    ensures var s := a + (h + p) + b;
            s[|a|..|a| + |h|] == h && s[|a| + |h|..|a| + |h| + |p|] == p
  {
  }

  lemma CutMiddle(a: seq<byte>, f: seq<byte>, b: seq<byte>)
    ensures var s := a + f + b; s[..|a|] == a && s[|a| + |f|..] == b
  {
  }

  lemma SetMiddle(a: seq<byte>, h: seq<byte>, p: seq<byte>, b: seq<byte>, x: byte)
    requires p != []
    ensures a + (h + p[0 := x]) + b == (a + (h + p) + b)[|a| + |h| := x]
  {
  }

  lemma PositionInside(fs: seq<Frame>, k: nat)
    requires k <= |fs| && TotalLen(fs[..k]) < TotalLen(fs)
    ensures k < |fs|
  {
    assert fs[..|fs|] == fs;
  }

  lemma TakeOneMore(fs: seq<Frame>, k: nat)
    requires k < |fs|
    ensures TotalLen(fs[..k + 1]) == TotalLen(fs[..k]) + FrameLen(fs[k])
  {
    assert fs[..k + 1] == fs[..k] + [fs[k]];
    TotalLenAppend(fs[..k], [fs[k]]);
    assert [fs[k]][1..] == [];
  }

  lemma PositionAtEnd(fs: seq<Frame>, k: nat)
    requires k <= |fs| && TotalLen(fs[..k]) >= TotalLen(fs)
    ensures k == |fs|
  {
    assert fs == fs[..k] + fs[k..];
    TotalLenAppend(fs[..k], fs[k..]);
  }

  lemma PacketReplaced(fs: seq<Frame>, k: nat)
    requires AllOk(fs) && k < |fs|
    ensures var g := fs[k].(packet := SetDup(fs[k].packet));
            var pos := TotalLen(fs[..k]) + HEADER_LEN;
            && AllOk(fs[k := g]) && pos < |Flatten(fs)|
            && Flatten(fs[k := g]) == Flatten(fs)[pos := SetDup(fs[k].packet)[0]]
  {
    hide Flatten, TotalLen, Header;
    var f := fs[k];
    var p := SetDup(f.packet);
    var g := f.(packet := p);
    var a, b := fs[..k], fs[k + 1..];
    SplitAt(fs, k);
    assert fs[k := g] == a + [g] + b;
    FlattenThree(a, g, b);
    SetDupFirst(f.packet);
    SameHeader(f, g);
    SetMiddle(Flatten(a), Header(f), f.packet, Flatten(b), p[0]);
  }

  lemma SetDupFirst(p: seq<byte>)
    requires |p| > 0
    ensures SetDup(p) == p[0 := SetDup(p)[0]]
  {
  }

  lemma SameHeader(f: Frame, g: Frame)
    requires FrameOk(f) && g == f.(packet := g.packet) && |g.packet| == |f.packet|
    ensures FrameOk(g) && Header(g) == Header(f)
  {
  }

  // ---------- the overlong move ----------

  // Whatever lies behind buf, the removal leaves it alone.
  ghost predicate WritesInside(buf: seq<byte>, at: nat, n: nat, len: nat)
    requires at + n <= len <= |buf|
  {
    forall b: seq<byte> :: |b| == |buf| ==> AfterRemoval(buf + b, at, n, len)[|buf|..] == b
  }

  // That is so exactly if the offset of the frame is at most the free space and its length.
  lemma RemovalWritesInside(buf: seq<byte>, at: nat, n: nat, len: nat)
    requires 0 < n && at + n <= len <= |buf|
    ensures WritesInside(buf, at, n, len) <==> at <= |buf| - len + n
  {
    hide AfterMove;
    var size := |buf|;
    if at <= size - len + n {
      forall b: seq<byte> | |b| == size ensures AfterRemoval(buf + b, at, n, len)[size..] == b {
        assert (buf + b)[size..] == b;
      }
    } else {
      var b := seq(size, i => if i == n then 1 as byte else 0);
      var r := AfterRemoval(buf + b, at, n, len);
      assert r[size] == (buf + b)[size + n] == b[n] == 1;
      assert r[size..][0] != b[0];
    }
  }

  // No byte of the buffer after the removal depends on what lies behind it.
  ghost predicate ReadsInside(buf: seq<byte>, at: nat, n: nat, len: nat)
    requires at + n <= len <= |buf|
  {
    forall b: seq<byte>, c: seq<byte> :: |b| == |c| == |buf| ==>
      AfterRemoval(buf + b, at, n, len)[..|buf|] == AfterRemoval(buf + c, at, n, len)[..|buf|]
  }

  // That is so exactly if the offset and the length of all frames do not exceed the size.
  lemma RemovalReadsInside(buf: seq<byte>, at: nat, n: nat, len: nat)
    requires 0 < n && at + n <= len <= |buf|
    ensures ReadsInside(buf, at, n, len) <==> at + len <= |buf|
  {
    hide AfterMove;
    var size := |buf|;
    if at + len <= size {
      forall b: seq<byte>, c: seq<byte> | |b| == |c| == size
        ensures AfterRemoval(buf + b, at, n, len)[..size] == AfterRemoval(buf + c, at, n, len)[..size]
      {
        assert forall j :: 0 <= j < size ==> (buf + b)[j] == (buf + c)[j];
      }
    } else {
      var b, c := seq(size, i => 0 as byte), seq(size, i => 1 as byte);
      var r, s := AfterRemoval(buf + b, at, n, len), AfterRemoval(buf + c, at, n, len);
      var j := if at < size - n then size - n else at;
      assert r[j] == (buf + b)[j + n] == b[j + n - size] && s[j] == (buf + c)[j + n] == c[j + n - size];
      assert r[..size][j] != s[..size][j];
    }
  }

  // So in a full buffer the removal of any frame shorter than what precedes it overwrites
  // what lies behind the buffer.
  lemma RemovalLeavesFullBuffer(fs: seq<Frame>, k: nat) returns (behind: seq<byte>)
    requires AllOk(fs) && k < |fs| && FrameLen(fs[k]) < TotalLen(fs[..k])
    ensures TotalLen(fs[..k]) + FrameLen(fs[k]) <= TotalLen(fs) == |Flatten(fs)| == |behind|
    ensures AfterRemoval(Flatten(fs) + behind, TotalLen(fs[..k]), FrameLen(fs[k]), TotalLen(fs))[|behind|..] != behind
  {
    FrameAt(fs, k);
    var buf, at, n := Flatten(fs), TotalLen(fs[..k]), FrameLen(fs[k]);
    RemovalWritesInside(buf, at, n, |buf|);
    behind :| |behind| == |buf| && AfterRemoval(buf + behind, at, n, |buf|)[|buf|..] != behind;
  }
}
