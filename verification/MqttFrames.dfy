// The send and backup buffers: self-delimiting frames, each a six-byte internal
// header (slot tag, message type, padded length) followed by one MQTT packet.
module MqttFrames {
  import opened Bytes
  import opened MqttWire

  const HEADER_LEN := 6
  const SLOTS := 24

  // tag is the tracker slot, or -1 for a packet that has none.
  datatype Frame = Frame(tag: int, mtype: nat, packet: seq<byte>)

  predicate FrameOk(f: Frame) {
    -1 <= f.tag < SLOTS && f.mtype < 16 && 0 < |f.packet| <= MAX_REMAINING_LENGTH
  }

  ghost predicate AllOk(fs: seq<Frame>) {
    forall k :: 0 <= k < |fs| ==> FrameOk(fs[k])
  }

  function FrameLen(f: Frame): nat {
    HEADER_LEN + |f.packet|
  }

  function TotalLen(fs: seq<Frame>): nat {
    if fs == [] then 0 else FrameLen(fs[0]) + TotalLen(fs[1..])
  }

  // ---------- header codec ----------

  // The tag is stored as a signed byte.
  function TagByte(tag: int): byte
    requires -128 <= tag < 128
  {
    if tag < 0 then tag + 256 else tag
  }

  function ReadTag(b: byte): int {
    if b >= 128 then b - 256 else b
  }

  function Zeros(n: nat): (s: seq<byte>)
    ensures |s| == n
  {
    if n == 0 then [] else [0] + Zeros(n - 1)
  }

  // The length field of the internal header always takes four bytes.
  function PadLen(n: nat): (s: seq<byte>)
    requires n <= MAX_REMAINING_LENGTH
    ensures |s| == 4
  {
    RemLenAtMostFour(n);
    RemLen(n) + Zeros(4 - |RemLen(n)|)
  }

  lemma RemLenAtMostFour(n: nat)
    requires n <= MAX_REMAINING_LENGTH
    ensures |RemLen(n)| <= 4
  {
    Pow128Values();
    RemLenSize(n, 4);
  }

  // get_mqtt_packet_length: read up to the first byte without the continuation bit.
  function ReadPad(s: seq<byte>): nat {
    if s == [] then 0 else if s[0] < 128 then s[0] else s[0] - 128 + 128 * ReadPad(s[1..])
  }

  lemma {:induction false} ReadPadBack(n: nat, rest: seq<byte>)
    ensures ReadPad(RemLen(n) + rest) == n
  {
    var s := RemLen(n) + rest;
    if n >= 128 {
      ReadPadBack(n / 128, rest);
      assert s[1..] == RemLen(n / 128) + rest;
    }
  }

  function Header(f: Frame): (s: seq<byte>)
    requires FrameOk(f)
    ensures |s| == HEADER_LEN
  {
    [TagByte(f.tag), f.mtype] + PadLen(|f.packet|)
  }

  function FrameBytes(f: Frame): (s: seq<byte>)
    requires FrameOk(f)
    ensures |s| == FrameLen(f)
  {
    Header(f) + f.packet
  }

  // Header fields read back what was written.
  lemma HeaderRoundTrip(f: Frame)
    requires FrameOk(f)
    ensures var h := Header(f); ReadTag(h[0]) == f.tag && h[1] == f.mtype && ReadPad(h[2..]) == |f.packet|
  {
    var h := Header(f);
    RemLenAtMostFour(|f.packet|);
    assert h[2..] == RemLen(|f.packet|) + Zeros(4 - |RemLen(|f.packet|)|);
    ReadPadBack(|f.packet|, Zeros(4 - |RemLen(|f.packet|)|));
  }

  // ---------- concatenated frames ----------

  function Flatten(fs: seq<Frame>): (s: seq<byte>)
    requires AllOk(fs)
    ensures |s| == TotalLen(fs)
  {
    if fs == [] then [] else FrameBytes(fs[0]) + Flatten(fs[1..])
  }

  lemma {:induction false} FlattenAppend(a: seq<Frame>, b: seq<Frame>)
    requires AllOk(a) && AllOk(b)
    ensures AllOk(a + b) && Flatten(a + b) == Flatten(a) + Flatten(b)
  {
    hide FrameBytes, FrameOk, TotalLen;
    if a == [] {
      assert a + b == b;
    } else {
      assert (a + b)[1..] == a[1..] + b;
      FlattenAppend(a[1..], b);
      assert Flatten(a + b) == FrameBytes(a[0]) + (Flatten(a[1..]) + Flatten(b));
    }
  }

  lemma {:induction false} TotalLenAppend(a: seq<Frame>, b: seq<Frame>)
    ensures TotalLen(a + b) == TotalLen(a) + TotalLen(b)
  {
    if a == [] {
      assert a + b == b;
    } else {
      assert (a + b)[1..] == a[1..] + b;
      TotalLenAppend(a[1..], b);
    }
  }

  lemma FlattenOne(f: Frame)
    requires FrameOk(f)
    ensures AllOk([f]) && Flatten([f]) == FrameBytes(f) && TotalLen([f]) == FrameLen(f)
  {
    assert [f][1..] == [];
  }

  // The frames of a buffer are determined by its bytes: the framing is unambiguous.
  lemma {:induction false} FlattenInjective(a: seq<Frame>, b: seq<Frame>)
    requires AllOk(a) && AllOk(b) && Flatten(a) == Flatten(b)
    ensures a == b
  {
    if a != [] && b != [] {
      HeaderRoundTrip(a[0]);
      HeaderRoundTrip(b[0]);
      var s := Flatten(a);
      assert s[..HEADER_LEN] == Header(a[0]) && s[..HEADER_LEN] == Header(b[0]);
      var n := FrameLen(a[0]);
      assert s[HEADER_LEN..n] == a[0].packet && s[HEADER_LEN..n] == b[0].packet;
      assert s[n..] == Flatten(a[1..]) && s[n..] == Flatten(b[1..]);
      FlattenInjective(a[1..], b[1..]);
    }
  }

  // ---------- look-up and removal by tag ----------

  // The position of the first frame tagged key, or |fs|.
  function FindTag(fs: seq<Frame>, key: int): (k: nat)
    ensures k <= |fs|
    ensures forall j :: 0 <= j < k ==> fs[j].tag != key
    ensures k < |fs| ==> fs[k].tag == key
  {
    if fs == [] || fs[0].tag == key then 0 else 1 + FindTag(fs[1..], key)
  }

  function RemoveTag(fs: seq<Frame>, key: int): seq<Frame> {
    var k := FindTag(fs, key);
    if k == |fs| then fs else fs[..k] + fs[k + 1..]
  }

  function CountTag(fs: seq<Frame>, key: int): nat {
    if fs == [] then 0 else (if fs[0].tag == key then 1 else 0) + CountTag(fs[1..], key)
  }

  lemma {:induction false} CountAppend(a: seq<Frame>, b: seq<Frame>, key: int)
    ensures CountTag(a + b, key) == CountTag(a, key) + CountTag(b, key)
  {
    if a == [] {
      assert a + b == b;
    } else {
      assert (a + b)[1..] == a[1..] + b;
      CountAppend(a[1..], b, key);
    }
  }

  lemma {:induction false} CountZero(fs: seq<Frame>, key: int)
    ensures CountTag(fs, key) == 0 <==> FindTag(fs, key) == |fs|
    ensures CountTag(fs, key) == 0 <==> forall f :: f in fs ==> f.tag != key
  {
    if fs != [] {
      CountZero(fs[1..], key);
      assert fs == [fs[0]] + fs[1..];
    }
  }

  // Removal takes away exactly one frame of that tag and no other frame.
  lemma RemoveTagCounts(fs: seq<Frame>, key: int, other: int)
    ensures CountTag(RemoveTag(fs, key), other) ==
            if other == key && CountTag(fs, key) > 0 then CountTag(fs, key) - 1 else CountTag(fs, other)
    ensures forall f :: f in RemoveTag(fs, key) ==> f in fs
  {
    hide FindTag;
    var k := FindTag(fs, key);
    CountZero(fs, key);
    if k < |fs| {
      var a, f, b := fs[..k], fs[k], fs[k + 1..];
      assert fs == a + ([f] + b);
      CountAppend(a, [f] + b, other);
      CountAppend([f], b, other);
      CountAppend(a, b, other);
      assert [f][1..] == [];
    }
  }

  lemma {:induction false} TotalLenRemove(fs: seq<Frame>, key: int)
    ensures TotalLen(RemoveTag(fs, key)) <= TotalLen(fs)
  {
    var k := FindTag(fs, key);
    if k < |fs| {
      assert fs == fs[..k] + ([fs[k]] + fs[k + 1..]);
      TotalLenAppend(fs[..k], [fs[k]] + fs[k + 1..]);
      TotalLenAppend([fs[k]], fs[k + 1..]);
      TotalLenAppend(fs[..k], fs[k + 1..]);
    }
  }

  lemma {:induction false} FindIsMember(fs: seq<Frame>, key: int)
    requires FindTag(fs, key) < |fs|
    ensures fs[FindTag(fs, key)] in fs && CountTag(fs, key) > 0
  {
    CountZero(fs, key);
  }

  function WithoutTag(fs: seq<Frame>, i: int): seq<Frame> {
    if fs == [] then [] else (if fs[0].tag == i then [] else [fs[0]]) + WithoutTag(fs[1..], i)
  }

  lemma {:induction false} WithoutAbsentTag(fs: seq<Frame>, i: int)
    requires FindTag(fs, i) == |fs|
    ensures WithoutTag(fs, i) == fs
  {
    if fs != [] {
      WithoutAbsentTag(fs[1..], i);
    }
  }

  lemma {:induction false} WithoutTagMembers(fs: seq<Frame>, i: int)
    ensures forall f :: f in WithoutTag(fs, i) <==> f in fs && f.tag != i
  {
    if fs != [] {
      WithoutTagMembers(fs[1..], i);
      assert fs == [fs[0]] + fs[1..];
    }
  }

  lemma {:induction false} WithoutTagMiddle(a: seq<Frame>, f: Frame, b: seq<Frame>)
    ensures WithoutTag(a + ([f] + b), f.tag) == WithoutTag(a + b, f.tag)
  {
    if a == [] {
      assert a + ([f] + b) == [f] + b && a + b == b && ([f] + b)[1..] == b;
    } else {
      assert (a + ([f] + b))[1..] == a[1..] + ([f] + b) && (a + b)[1..] == a[1..] + b;
      WithoutTagMiddle(a[1..], f, b);
    }
  }
}
