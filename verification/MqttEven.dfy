// The removal of any number of messages of a tracker, when all messages in the send buffer
// are of the same length.
module MqttEven {
  import opened Bytes
  import opened MqttWire
  import opened MqttFrames
  import opened MqttRemoval
  import opened MqttExact

  predicate Even(fs: seq<Frame>, n: nat) {
    forall k :: 0 <= k < |fs| ==> FrameLen(fs[k]) == n
  }

  // ---------- the scan on frames ----------

  // What remains of frames of one length: where one of the tracker is taken out, the next
  // is passed over and the last stays behind as a copy.
  function Remain(fs: seq<Frame>, key: int): (r: seq<Frame>)
    ensures |r| <= |fs|
    decreases |fs|
  {
    if fs == [] then []
    else if fs[0].tag != key then [fs[0]] + Remain(fs[1..], key)
    else if |fs| == 1 then []
    else
      var k := Remain(Again(fs[1..]), key);
      ([fs[1]] + k)[..|k|]
  }

  // post without its first frame and with its last one twice.
  function Again(post: seq<Frame>): (r: seq<Frame>)
    requires post != []
    ensures |r| == |post| && forall f :: f in r ==> f in post
  {
    post[1..] + [post[|post| - 1]]
  }

  lemma {:induction false} EvenTotal(a: seq<Frame>, b: seq<Frame>, n: nat)
    requires Even(a, n) && Even(b, n) && |a| == |b|
    ensures TotalLen(a) == TotalLen(b)
    decreases |a|
  {
    if a != [] {
      EvenTotal(a[1..], b[1..], n);
    }
  }

  lemma FlattenFirst(fs: seq<Frame>, k: nat)
    requires AllOk(fs) && k <= |fs|
    ensures AllOk(fs[..k]) && TotalLen(fs[..k]) <= TotalLen(fs)
    ensures Flatten(fs)[..TotalLen(fs[..k])] == Flatten(fs[..k])
  {
    hide FrameBytes, FrameOk, TotalLen, Flatten;
    assert fs == fs[..k] + fs[k..];
    SubOk(fs[..k], fs[k..]);
    FlattenAppend(fs[..k], fs[k..]);
    TotalLenAppend(fs[..k], fs[k..]);
  }

  lemma BeyondIsAgain(post: seq<Frame>, n: nat)
    requires AllOk(post) && Even(post, n) && post != []
    ensures AllOk(Again(post)) && Beyond(Flatten(post), n) == Flatten(Again(post)) && n <= |Flatten(post)|
  {
    hide FrameBytes;
    var m := |post| - 1;
    var last := post[m];
    assert post == post[..m] + [last];
    SubOk(post[..m], [last]);
    FlattenAppend(post[..m], [last]);
    FlattenOne(last);
    FlattenAppend(post[1..], [last]);
    assert Flatten(post)[n..] == Flatten(post[1..]);
    assert Flatten(post)[|Flatten(post)| - n..] == FrameBytes(last);
  }

  lemma BehindFrames(post: seq<Frame>, k: seq<Frame>, n: nat)
    requires AllOk(post) && AllOk(k) && Even(post, n) && Even(k, n) && |k| <= |post| && post != []
    ensures AllOk(([post[0]] + k)[..|k|]) && |Flatten(k)| <= |Flatten(post)| && n <= |Flatten(post)|
    ensures Behind(Flatten(post), n, Flatten(k)) == Flatten(([post[0]] + k)[..|k|])
  {
    hide FrameBytes;
    var s := [post[0]] + k;
    FlattenOne(post[0]);
    FlattenAppend([post[0]], k);
    FlattenFirst(s, |k|);
    EvenTotal(s[..|k|], k, n);
    FlattenFirst(post, |k|);
    EvenTotal(post[..|k|], k, n);
    assert Flatten(post)[..n] == FrameBytes(post[0]);
  }

  lemma {:induction false} KeptIsRemain(fs: seq<Frame>, b: seq<byte>, key: int, n: nat)
    requires AllOk(fs) && Even(fs, n)
    ensures AllOk(Remain(fs, key)) && Even(Remain(fs, key), n)
    ensures Kept(Flatten(fs), b, key) == Keeps(Flatten(Remain(fs, key)))
    decreases |fs|
  {
    hide FrameBytes, Kept, Beyond, Behind, FrameOk;
    if fs == [] {
      NothingKept(b, key);
      return;
    }
    KeptFrame(fs[0], Flatten(fs[1..]), b, key);
    if fs[0].tag != key {
      KeptIsRemain(fs[1..], b, key, n);
    } else if |fs| == 1 {
      assert fs[1..] == [];
      NothingKept(b, key);
      NothingBehind(n);
    } else {
      var post := fs[1..];
      BeyondIsAgain(post, n);
      KeptIsRemain(Again(post), b, key, n);
      BehindFrames(post, Remain(Again(post), key), n);
    }
  }

  lemma NothingKept(b: seq<byte>, key: int)
    ensures Kept([], b, key) == Keeps([])
  {
  }

  lemma NothingBehind(n: nat)
    ensures Beyond([], n) == [] && Behind([], n, []) == []
  {
  }

  // ---------- which frames come out right ----------

  // Every frame of the tracker is followed by one of another.
  predicate Spaced(fs: seq<Frame>, key: int) {
    fs == [] || ((fs[0].tag == key ==> |fs| > 1 && fs[1].tag != key) && Spaced(fs[1..], key))
  }

  predicate AllOf(fs: seq<Frame>, key: int) {
    forall k :: 0 <= k < |fs| ==> fs[k].tag == key
  }

  // The frames of the tracker stand together at the end.
  predicate Trailing(fs: seq<Frame>, key: int) {
    AllOf(fs, key) || (fs[0].tag != key && Trailing(fs[1..], key))
  }

  lemma {:induction false} AllGone(fs: seq<Frame>, key: int)
    requires AllOf(fs, key)
    ensures Remain(fs, key) == [] == WithoutTag(fs, key)
    decreases |fs|
  {
    if fs != [] {
      AllGone(fs[1..], key);
      if |fs| > 1 {
        AllGone(Again(fs[1..]), key);
      }
    }
  }

  lemma {:induction false} SomeStay(fs: seq<Frame>, key: int)
    requires !AllOf(fs, key)
    ensures WithoutTag(fs, key) != []
  {
    if fs[0].tag == key {
      SomeStay(fs[1..], key);
    }
  }

  // With one of the tracker at the end, no more frames remain than others have.
  lemma {:induction false} LastIsTaken(fs: seq<Frame>, key: int)
    requires fs != [] && fs[|fs| - 1].tag == key
    ensures |Remain(fs, key)| <= |WithoutTag(fs, key)|
    decreases |fs|
  {
    if |fs| > 1 {
      var post := fs[1..];
      if fs[0].tag != key {
        LastIsTaken(post, key);
      } else {
        LastIsTaken(Again(post), key);
        WithoutAppend(post[1..], [post[|post| - 1]], key);
        assert [post[|post| - 1]][1..] == [];
      }
    }
  }

  // m frames at the end of fs are l.
  predicate Ends(fs: seq<Frame>, l: Frame, m: nat) {
    m <= |fs| && forall k :: |fs| - m <= k < |fs| ==> fs[k] == l
  }

  lemma {:induction false} EndStays(fs: seq<Frame>, key: int, l: Frame, m: nat)
    requires Ends(fs, l, m) && m > 0 && l.tag != key
    ensures Ends(Remain(fs, key), l, m)
    decreases |fs|
  {
    if fs[0].tag != key {
      if m < |fs| {
        EndStays(fs[1..], key, l, m);
      } else if m > 1 {
        EndStays(fs[1..], key, l, m - 1);
      }
    } else {
      var post := fs[1..];
      if m < |post| {
        EndStays(Again(post), key, l, m + 1);
      } else {
        EndStays(Again(post), key, l, m);
        AllRemain(Again(post), key);
      }
    }
  }

  lemma {:induction false} AllRemain(fs: seq<Frame>, key: int)
    requires Absent(fs, key)
    ensures Remain(fs, key) == fs
    decreases |fs|
  {
    if fs != [] {
      AllRemain(fs[1..], key);
    }
  }

  lemma {:induction false} SpacedEnd(fs: seq<Frame>, key: int)
    requires Spaced(fs, key) && fs != []
    ensures fs[|fs| - 1].tag != key
  {
    if |fs| > 1 {
      SpacedEnd(fs[1..], key);
    }
  }

  lemma {:induction false} SpacedSnoc(fs: seq<Frame>, l: Frame, key: int)
    requires l.tag != key && (fs == [] || fs[|fs| - 1] == l)
    ensures Spaced(fs + [l], key) == Spaced(fs, key)
  {
    var t := fs + [l];
    if fs != [] {
      assert t[1..] == fs[1..] + [l];
      SpacedSnoc(fs[1..], l, key);
    } else {
      assert t[1..] == [];
    }
  }

  lemma {:induction false} TrailingNone(fs: seq<Frame>, key: int)
    requires Trailing(fs, key) && fs != [] && fs[|fs| - 1].tag != key
    ensures Spaced(fs, key)
  {
    if |fs| > 1 {
      TrailingNone(fs[1..], key);
    }
  }

  // A frame of the tracker, then y, then q; the copy of the end goes behind q.
  lemma NextRemains(y: Frame, q: seq<Frame>, k: seq<Frame>, l: Frame, w: seq<Frame>)
    requires Ends(k, l, 1)
    ensures ([y] + k)[..|k|] == [y] + w <==> k == w + [l]
  {
    var r := ([y] + k)[..|k|];
    assert k == k[..|k| - 1] + [l];
    assert r == [y] + k[..|k| - 1];
    if r == [y] + w {
      assert r[1..] == k[..|k| - 1] && r[1..] == w;
    }
    if k == w + [l] {
      assert k[..|k| - 1] == w;
    }
  }

  lemma {:induction false} RemainIff(fs: seq<Frame>, key: int)
    ensures Remain(fs, key) == WithoutTag(fs, key) <==> Spaced(fs, key) || Trailing(fs, key)
    decreases |fs|, 1
  {
    if fs == [] {
    } else if fs[0].tag != key {
      RemainIff(fs[1..], key);
      UntaggedFirst(fs, key);
    } else if AllOf(fs, key) {
      AllGone(fs, key);
    } else {
      TaggedFirst(fs, key);
    }
  }

  lemma UntaggedFirst(fs: seq<Frame>, key: int)
    requires fs != [] && fs[0].tag != key
    ensures Remain(fs, key) == WithoutTag(fs, key) <==> Remain(fs[1..], key) == WithoutTag(fs[1..], key)
  {
    var a, b := Remain(fs[1..], key), WithoutTag(fs[1..], key);
    assert ([fs[0]] + a)[1..] == a && ([fs[0]] + b)[1..] == b;
  }

  // A frame of the tracker is followed by one of it, and some frame is another's.
  lemma NextOfSame(fs: seq<Frame>, key: int)
    requires |fs| > 1 && fs[0].tag == key == fs[1].tag && !AllOf(fs, key)
    ensures Remain(fs, key) != WithoutTag(fs, key) && !Spaced(fs, key) && !Trailing(fs, key)
  {
    var y, q, k := fs[1], fs[2..], Remain(Again(fs[1..]), key);
    assert fs[1..][1..] == q;
    SomeStay(q, key);
    WithoutTagMembers(q, key);
    var w := WithoutTag(q, key);
    assert w[0] in w;
    assert WithoutTag(fs, key) == [] + ([] + w) == w;
    assert k != [] ==> ([y] + k)[..|k|][0] == y;
  }

  // It is followed by one of another tracker, and the last frame is of the tracker.
  lemma LastOfSame(fs: seq<Frame>, key: int)
    requires |fs| > 1 && fs[0].tag == key != fs[1].tag && fs[|fs| - 1].tag == key
    ensures Remain(fs, key) != WithoutTag(fs, key) && !Spaced(fs, key) && !Trailing(fs, key)
  {
    var y, q, l := fs[1], fs[2..], fs[|fs| - 1];
    assert fs[1..] == [y] + q && Again(fs[1..]) == q + [l];
    LastIsTaken(q + [l], key);
    LastDropped(q, l, key);
    assert |WithoutTag(fs, key)| == 1 + |WithoutTag(q, key)|;
    assert |Remain(fs, key)| == |Remain(q + [l], key)|;
    if Spaced(fs, key) {
      SpacedEnd(fs, key);
    }
  }

  lemma LastDropped(q: seq<Frame>, l: Frame, key: int)
    requires l.tag == key
    ensures WithoutTag(q + [l], key) == WithoutTag(q, key)
  {
    WithoutAppend(q, [l], key);
    assert [l][1..] == [];
  }

  lemma {:induction false} TaggedFirst(fs: seq<Frame>, key: int)
    requires fs != [] && fs[0].tag == key && !AllOf(fs, key)
    ensures Remain(fs, key) == WithoutTag(fs, key) <==> Spaced(fs, key) || Trailing(fs, key)
    decreases |fs|, 0
  {
    if fs[1].tag == key {
      NextOfSame(fs, key);
    } else if fs[|fs| - 1].tag == key {
      LastOfSame(fs, key);
    } else {
      var y, q, l, post := fs[1], fs[2..], fs[|fs| - 1], fs[1..];
      assert post == [y] + q && post[1..] == q && Again(post) == q + [l];
      WithoutAppend(q, [l], key);
      assert WithoutTag([l], key) == [l] by {
        assert [l][1..] == [];
      }
      RemainIff(Again(post), key);
      EndStays(Again(post), key, l, 1);
      NextRemains(y, q, Remain(Again(post), key), l, WithoutTag(q, key));
      SpacedSnoc(q, l, key);
      if Trailing(Again(post), key) {
        TrailingNone(Again(post), key);
      }
    }
  }

  // If all messages are of one length, those of the tracker are taken out, and no other,
  // exactly if each of them is directly followed by another tracker's or if they stand
  // together at the end; what is behind the buffer does not matter.
  lemma EvenExactIff(fs: seq<Frame>, key: int, n: nat)
    requires AllOk(fs) && Even(fs, n)
    ensures Exact(fs, key) <==> Spaced(fs, key) || Trailing(fs, key)
    ensures forall b :: ExactOn(fs, b, key) <==> Spaced(fs, key) || Trailing(fs, key)
  {
    forall b ensures ExactOn(fs, b, key) <==> Spaced(fs, key) || Trailing(fs, key) {
      EvenExactOn(fs, b, key, n);
    }
    assert Exact(fs, key) ==> ExactOn(fs, [], key);
  }

  lemma EvenExactOn(fs: seq<Frame>, b: seq<byte>, key: int, n: nat)
    requires AllOk(fs) && Even(fs, n)
    ensures ExactOn(fs, b, key) <==> Spaced(fs, key) || Trailing(fs, key)
  {
    hide Kept, Flatten, FrameOk, Even;
    WithoutTagOk(fs, key);
    KeptIsRemain(fs, b, key, n);
    RemainIff(fs, key);
    if Flatten(Remain(fs, key)) == Flatten(WithoutTag(fs, key)) {
      FlattenInjective(Remain(fs, key), WithoutTag(fs, key));
    }
  }
}
