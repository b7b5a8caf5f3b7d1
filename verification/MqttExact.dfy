// When the removal of a tracker's messages from the send buffer leaves exactly the others.
module MqttExact {
  import opened Bytes
  import opened MqttWire
  import opened MqttFrames
  import opened MqttScan
  import opened MqttRemoval

  // With the bytes b behind the buffer, the removal comes to an end, and what it leaves of
  // the frames fs are the frames of other trackers, in order.
  ghost predicate ExactOn(fs: seq<Frame>, b: seq<byte>, key: int) {
    && AllOk(fs) && AllOk(WithoutTag(fs, key))
    && Kept(Flatten(fs), b, key) == Keeps(Flatten(WithoutTag(fs, key)))
  }

  // So it is whatever is behind the buffer.
  ghost predicate Exact(fs: seq<Frame>, key: int) {
    forall b :: ExactOn(fs, b, key)
  }

  lemma WithoutTagOk(fs: seq<Frame>, key: int)
    requires AllOk(fs)
    ensures AllOk(WithoutTag(fs, key))
  {
    WithoutTagMembers(fs, key);
    forall k | 0 <= k < |WithoutTag(fs, key)| ensures FrameOk(WithoutTag(fs, key)[k]) {
      assert WithoutTag(fs, key)[k] in fs;
    }
  }

  // ---------- walks that take nothing ----------

  // The walk from header to header of v comes to one of the tracker, or to one of length 0.
  predicate Meets(v: seq<byte>, b: seq<byte>, key: int)
    decreases |v|
  {
    Headed(v, b) &&
    var n := WholeLength(v + b);
    n == 0 || ReadTag(v[0]) == key || Meets(v[n..], b, key)
  }

  lemma {:induction false} KeptAllIff(v: seq<byte>, b: seq<byte>, key: int)
    ensures Kept(v, b, key) == Keeps(v) <==> !Meets(v, b, key)
    ensures (var w := Kept(v, b, key); w.Keeps? && |w.bytes| == |v|) <==> !Meets(v, b, key)
    decreases |v|
  {
    hide Beyond, WalkBehind, WholeLength;
    if Headed(v, b) && WholeLength(v + b) > 0 && ReadTag(v[0]) != key {
      KeptAllIff(v[WholeLength(v + b)..], b, key);
      assert v[..WholeLength(v + b)] + v[WholeLength(v + b)..] == v;
    }
  }

  // ---------- whole frames ----------

  lemma FrameFront(f: Frame, rest: seq<byte>, b: seq<byte>)
    requires FrameOk(f)
    ensures var v := FrameBytes(f) + rest;
            && v != [] && Headed(v, b) && ReadTag(v[0]) == f.tag
            && WholeLength(v + b) == FrameLen(f) && v[FrameLen(f)..] == rest
  {
    HeaderRoundTrip(f);
    RemLenAtMostFour(|f.packet|);
    var v, n := FrameBytes(f) + rest, |f.packet|;
    var more := Zeros(4 - |RemLen(n)|) + (f.packet + (rest + b));
    assert From(v + b, 2) == RemLen(n) + more;
    ReadPadBack(n, more);
    assert (v + b)[0] == v[0] == Header(f)[0] && (v + b)[1] == Header(f)[1];
  }

  lemma KeptFrame(f: Frame, rest: seq<byte>, b: seq<byte>, key: int)
    requires FrameOk(f)
    ensures var n := FrameLen(f);
            Kept(FrameBytes(f) + rest, b, key) == if f.tag == key
                                                  then WalkBehind(rest, n, Kept(Beyond(rest, n), b, key))
                                                  else WalkOver(FrameBytes(f), Kept(rest, b, key))
  {
    hide FrameBytes, Headed, WholeLength, ReadTag, Kept, Beyond, WalkBehind, WalkOver;
    FrameFront(f, rest, b);
    KeptStep(FrameBytes(f) + rest, b, key);
    assert (FrameBytes(f) + rest)[..FrameLen(f)] == FrameBytes(f);
  }

  predicate Absent(fs: seq<Frame>, key: int) {
    forall k :: 0 <= k < |fs| ==> fs[k].tag != key
  }

  lemma {:induction false} KeptOver(fs: seq<Frame>, rest: seq<byte>, b: seq<byte>, key: int)
    requires AllOk(fs) && Absent(fs, key)
    ensures Kept(Flatten(fs) + rest, b, key) == WalkOver(Flatten(fs), Kept(rest, b, key))
    decreases |fs|
  {
    hide FrameBytes, Kept, FrameOk;
    var w := Kept(rest, b, key);
    if fs == [] {
      assert [] + rest == rest && (w.Keeps? ==> [] + w.bytes == w.bytes);
    } else {
      var f, c := FrameBytes(fs[0]), Flatten(fs[1..]);
      ConcatAssoc(f, c, rest);
      KeptFrame(fs[0], c + rest, b, key);
      KeptOver(fs[1..], rest, b, key);
      if w.Keeps? {
        ConcatAssoc(f, c, w.bytes);
      }
    }
  }

  lemma {:induction false} MeetsOver(fs: seq<Frame>, rest: seq<byte>, b: seq<byte>, key: int)
    requires AllOk(fs) && Absent(fs, key)
    ensures Meets(Flatten(fs) + rest, b, key) == Meets(rest, b, key)
    decreases |fs|
  {
    hide FrameBytes, Headed, WholeLength, ReadTag, FrameOk;
    if fs == [] {
      assert [] + rest == rest;
    } else {
      ConcatAssoc(FrameBytes(fs[0]), Flatten(fs[1..]), rest);
      FrameFront(fs[0], Flatten(fs[1..]) + rest, b);
      MeetsOver(fs[1..], rest, b, key);
    }
  }

  lemma FramesUnmet(fs: seq<Frame>, b: seq<byte>, key: int)
    requires AllOk(fs) && Absent(fs, key)
    ensures !Meets(Flatten(fs), b, key)
  {
    MeetsOver(fs, [], b, key);
    assert Flatten(fs) + [] == Flatten(fs);
  }

  lemma AbsentStays(fs: seq<Frame>, key: int)
    requires Absent(fs, key)
    ensures WithoutTag(fs, key) == fs
  {
    WithoutAbsentTag(fs, key);
  }

  // With no frame of the tracker the scan changes nothing.
  lemma NoneExact(fs: seq<Frame>, key: int)
    requires AllOk(fs) && Absent(fs, key)
    ensures Exact(fs, key)
  {
    AbsentStays(fs, key);
    forall b ensures ExactOn(fs, b, key) {
      FramesUnmet(fs, b, key);
      KeptAllIff(Flatten(fs), b, key);
    }
  }

  // ---------- one frame of the tracker ----------

  // The bytes the scan walks over once frame f has been taken out in front of post.
  function Walked(f: Frame, post: seq<Frame>): seq<byte>
    requires AllOk(post)
  {
    Beyond(Flatten(post), FrameLen(f))
  }

  lemma BehindAll(p: seq<byte>, n: nat)
    ensures Behind(p, n, Beyond(p, n)) == p
  {
  }

  lemma WithoutOne(pre: seq<Frame>, f: Frame, post: seq<Frame>)
    requires Absent(pre, f.tag) && Absent(post, f.tag)
    ensures WithoutTag(pre + ([f] + post), f.tag) == pre + post
  {
    WithoutTagMiddle(pre, f, post);
    AbsentStays(pre + post, f.tag);
  }

  lemma PartsOk(pre: seq<Frame>, f: Frame, post: seq<Frame>)
    requires AllOk(pre + ([f] + post))
    ensures AllOk(pre) && FrameOk(f) && AllOk(post) && AllOk(pre + post)
    ensures Flatten(pre + ([f] + post)) == Flatten(pre) + (FrameBytes(f) + Flatten(post))
  {
    var fs := pre + ([f] + post);
    forall k | 0 <= k < |pre| ensures FrameOk(pre[k]) {
      assert FrameOk(fs[k]);
    }
    assert FrameOk(fs[|pre|]);
    forall k | 0 <= k < |post| ensures FrameOk(post[k]) {
      assert FrameOk(fs[|pre| + 1 + k]);
    }
    hide FrameBytes;
    FlattenAppend(pre, [f] + post);
    assert ([f] + post)[1..] == post;
  }

  // One queued frame of the tracker is taken out, and no other byte, exactly if the walk
  // over the frames behind it, that starts as far into them as it was long and goes on over
  // the copy of their end, comes to no header of the tracker and to none of length 0; be
  // what is behind the buffer as it may.
  lemma OneExactIff(pre: seq<Frame>, f: Frame, post: seq<Frame>, b: seq<byte>)
    requires AllOk(pre + ([f] + post)) && Absent(pre, f.tag) && Absent(post, f.tag)
    ensures AllOk(post) && (ExactOn(pre + ([f] + post), b, f.tag) <==> !Meets(Walked(f, post), b, f.tag))
  {
    hide FrameBytes, Kept, Beyond, Behind, Meets, FrameOk, TotalLen, Flatten, WithoutTag;
    PartsOk(pre, f, post);
    WithoutOne(pre, f, post);
    var p, n, w := Flatten(post), FrameLen(f), Walked(f, post);
    KeptOver(pre, FrameBytes(f) + p, b, f.tag);
    KeptFrame(f, p, b, f.tag);
    KeptAllIff(w, b, f.tag);
    BehindAll(p, n);
    FlattenAppend(pre, post);
    if Kept(w, b, f.tag).Keeps? {
      SamePrefix(Flatten(pre), Behind(p, n, Kept(w, b, f.tag).bytes), p);
    }
  }

  lemma SamePrefix(a: seq<byte>, b: seq<byte>, c: seq<byte>)
    ensures a + b == a + c <==> b == c
  {
    assert (a + b)[|a|..] == b && (a + c)[|a|..] == c;
  }

  lemma BeyondLong(p: seq<byte>, n: nat)
    requires n >= |p|
    ensures Beyond(p, n) == p
  {
  }

  // It is if it is at least as long as all that follows it, so at the end of the buffer.
  lemma LongExact(pre: seq<Frame>, f: Frame, post: seq<Frame>)
    requires AllOk(pre + ([f] + post)) && Absent(pre, f.tag) && Absent(post, f.tag) && FrameLen(f) >= TotalLen(post)
    ensures Exact(pre + ([f] + post), f.tag)
  {
    hide FrameBytes, FrameOk, Flatten, TotalLen, Beyond, Meets, ExactOn;
    PartsOk(pre, f, post);
    BeyondLong(Flatten(post), FrameLen(f));
    forall b ensures ExactOn(pre + ([f] + post), b, f.tag) {
      OneExactIff(pre, f, post, b);
      FramesUnmet(post, b, f.tag);
    }
  }

  // And it is if it is as long as some frames at the beginning of what follows and as
  // some at the end.
  lemma AlignedExact(pre: seq<Frame>, f: Frame, a: seq<Frame>, b: seq<Frame>, c: seq<Frame>, d: seq<Frame>)
    requires a + b == c + d && TotalLen(a) == FrameLen(f) == TotalLen(d)
    requires AllOk(pre + ([f] + (a + b))) && Absent(pre, f.tag) && Absent(a + b, f.tag)
    ensures Exact(pre + ([f] + (a + b)), f.tag)
  {
    hide FrameBytes, FrameOk, Flatten, TotalLen, Meets, ExactOn;
    var post := a + b;
    PartsOk(pre, f, post);
    SubOk(a, b);
    SubOk(c, d);
    FlattenAppend(a, b);
    FlattenAppend(c, d);
    FlattenAppend(b, d);
    assert Flatten(post)[|Flatten(a)|..] == Flatten(b) && Flatten(post)[|Flatten(c)|..] == Flatten(d);
    assert Walked(f, post) == Flatten(b + d);
    forall k | 0 <= k < |b + d| ensures (b + d)[k].tag != f.tag {
      assert (b + d)[k] == if k < |b| then post[|a| + k] else post[|c| + k - |b|];
    }
    forall m ensures ExactOn(pre + ([f] + post), m, f.tag) {
      OneExactIff(pre, f, post, m);
      FramesUnmet(b + d, m, f.tag);
    }
  }

  lemma SubOk(a: seq<Frame>, b: seq<Frame>)
    requires AllOk(a + b)
    ensures AllOk(a) && AllOk(b)
  {
    forall k | 0 <= k < |a| ensures FrameOk(a[k]) {
      assert FrameOk((a + b)[k]);
    }
    forall k | 0 <= k < |b| ensures FrameOk(b[k]) {
      assert FrameOk((a + b)[|a| + k]);
    }
  }

  // ---------- several frames of the tracker ----------

  lemma {:induction false} WithoutAppend(a: seq<Frame>, b: seq<Frame>, key: int)
    ensures WithoutTag(a + b, key) == WithoutTag(a, key) + WithoutTag(b, key)
    decreases |a|
  {
    if a == [] {
      assert a + b == b;
    } else {
      assert (a + b)[1..] == a[1..] + b;
      WithoutAppend(a[1..], b, key);
    }
  }

  // The tag of the frame that stands behind those in a.
  lemma TagBehind(a: seq<Frame>, g: Frame, b: seq<Frame>)
    requires AllOk(a + ([g] + b))
    ensures var s := Flatten(a + ([g] + b)); |s| > TotalLen(a) && ReadTag(s[TotalLen(a)]) == g.tag
  {
    PartsOk(a, g, b);
    FrameFront(g, Flatten(b), []);
  }

  // A second frame g of the tracker that starts before the place where the scan goes on is
  // passed over, so that the removal is not exact if a frame of another tracker follows.
  lemma SkippedStays(pre: seq<Frame>, f: Frame, a: seq<Frame>, g: Frame, b: seq<Frame>, m: seq<byte>)
    requires AllOk(pre + ([f] + (a + ([g] + b)))) && f.tag == g.tag && TotalLen(a) < FrameLen(f)
    requires Absent(pre, f.tag) && Absent(a, f.tag) && exists h :: h in b && h.tag != f.tag
    ensures !ExactOn(pre + ([f] + (a + ([g] + b))), m, f.tag)
  {
    hide Flatten, FrameBytes, FrameOk, TotalLen, WithoutTag, ExactOn, ReadTag;
    var post := a + ([g] + b);
    PartsOk(pre, f, post);
    WithoutTagOk(post, f.tag);
    var h, w := FirstOther(a, g, b);
    TagBehind(a, g, b);
    TagBehind(a, h, w);
    SkippedBytes(pre, f, post, TotalLen(a), m);
  }

  // What is left of a, g and b, if a frame of another tracker than that of g is in b.
  lemma FirstOther(a: seq<Frame>, g: Frame, b: seq<Frame>) returns (h: Frame, w: seq<Frame>)
    requires Absent(a, g.tag) && exists h :: h in b && h.tag != g.tag
    ensures h.tag != g.tag && WithoutTag(a + ([g] + b), g.tag) == a + ([h] + w)
  {
    var x :| x in b && x.tag != g.tag;
    var s := WithoutTag(b, g.tag);
    WithoutTagMembers(b, g.tag);
    WithoutTagMiddle(a, g, b);
    WithoutAppend(a, b, g.tag);
    AbsentStays(a, g.tag);
    assert x in s && s[0] in s;
    h, w := s[0], s[1..];
  }

  lemma SkippedBytes(pre: seq<Frame>, f: Frame, post: seq<Frame>, at: nat, m: seq<byte>)
    requires AllOk(pre + ([f] + post)) && Absent(pre, f.tag) && AllOk(post) && AllOk(WithoutTag(post, f.tag))
    requires at < FrameLen(f) && at < |Flatten(post)| && at < |Flatten(WithoutTag(post, f.tag))|
    requires Flatten(post)[at] != Flatten(WithoutTag(post, f.tag))[at]
    ensures !ExactOn(pre + ([f] + post), m, f.tag)
  {
    hide FrameBytes, Kept, Beyond, FrameOk, TotalLen, Flatten, WithoutTag;
    var key, n, p, w := f.tag, FrameLen(f), Flatten(post), Flatten(WithoutTag(post, f.tag));
    PartsOk(pre, f, post);
    KeptOver(pre, FrameBytes(f) + p, m, key);
    KeptFrame(f, p, m, key);
    WithoutTagMiddle(pre, f, post);
    WithoutAppend(pre, post, key);
    AbsentStays(pre, key);
    FlattenAppend(pre, WithoutTag(post, key));
    var k := Kept(Beyond(p, n), m, key);
    if k.Keeps? {
      var r := Behind(p, n, k.bytes);
      SamePrefix(Flatten(pre), r, w);
      if at < |r| {
        assert r[at] == p[at];
      }
    }
  }
}
