// The packet encoders: a first pass computes the length, a second one writes.
module MqttPack {
  import opened Options
  import opened Bytes
  import opened MqttConnect
  import opened MqttWire
  import opened MqttFrames
  import opened MqttEngine

  // ---------- writing at a cursor ----------

  // after is before with s written over it at offset at.
  ghost predicate Written(before: seq<byte>, after: seq<byte>, at: nat, s: seq<byte>) {
    && at + |s| <= |before| && |after| == |before|
    && after[..at] == before[..at] && after[at..at + |s|] == s && after[at + |s|..] == before[at + |s|..]
  }

  lemma WrittenThen(a: seq<byte>, b: seq<byte>, c: seq<byte>, at: nat, s: seq<byte>, t: seq<byte>)
    requires Written(a, b, at, s) && Written(b, c, at + |s|, t)
    ensures Written(a, c, at, s + t)
  {
    var m, n := at + |s|, at + |s| + |t|;
    assert c[..at] == c[..m][..at] && b[..m][..at] == b[..at];
    assert c[at..m] == c[..m][at..] && b[..m][at..] == b[at..m];
    assert c[at..n] == c[at..m] + c[m..n];
    assert b[n..] == b[m..][|t|..] && a[n..] == a[m..][|t|..];
  }

  lemma WrittenNone(s: seq<byte>, at: nat)
    requires at <= |s|
    ensures Written(s, s, at, [])
  {
    assert s[at..at] == [];
  }

  method WriteChar(buf: array<byte>, at: nat, v: byte) returns (p: nat)
    requires at < buf.Length
    modifies buf
    ensures p == at + 1 && Written(old(buf[..]), buf[..], at, [v])
  {
    buf[at] := v;
    p := at + 1;
  }

  method WriteShort(buf: array<byte>, at: nat, v: nat) returns (p: nat)
    requires at + 2 <= buf.Length
    modifies buf
    ensures p == at + 2 && Written(old(buf[..]), buf[..], at, Short(v))
  {
    buf[at] := v / 256 % 256;
    buf[at + 1] := v % 256;
    p := at + 2;
  }

  method WriteData(buf: array<byte>, at: nat, data: seq<byte>) returns (p: nat)
    requires at + |data| <= buf.Length
    modifies buf
    ensures p == at + |data| && Written(old(buf[..]), buf[..], at, data)
  {
    for i := 0 to |data|
      invariant forall j :: at <= j < at + i ==> buf[j] == data[j - at]
      invariant forall j :: 0 <= j < buf.Length && !(at <= j < at + i) ==> buf[j] == old(buf[j])
    {
      buf[at + i] := data[i];
    }
    p := at + |data|;
  }

  method WriteString(buf: array<byte>, at: nat, str: seq<byte>) returns (p: nat)
    requires at + 2 + |str| <= buf.Length
    modifies buf
    ensures p == at + 2 + |str| && Written(old(buf[..]), buf[..], at, Str(str))
  {
    ghost var a := buf[..];
    p := WriteShort(buf, at, |str|);
    ghost var b := buf[..];
    p := WriteData(buf, p, str);
    WrittenThen(a, b, buf[..], at, Short(|str|), str);
  }

  // write_remaining_len: at most four bytes for a legal length, and no longer than needed.
  method WriteRemainingLen(buf: array<byte>, at: nat, n: nat) returns (p: nat, bytes: nat)
    requires n <= MAX_REMAINING_LENGTH && at + |RemLen(n)| <= buf.Length
    modifies buf
    ensures p == at + bytes && bytes == |RemLen(n)| && 1 <= bytes <= 4
    ensures Written(old(buf[..]), buf[..], at, RemLen(n))
  {
    hide Written;
    RemLenAtMostFour(n);
    WrittenNone(buf[..], at);
    p, bytes := at, 0;
    var rest, done := n, false;
    ghost var out: seq<byte> := [];
    assert [] + RemLen(n) == RemLen(n);
    while !done && bytes <= 4
      invariant p == at + bytes && |out| == bytes && Written(old(buf[..]), buf[..], at, out)
      invariant if done then out == RemLen(n) else out + RemLen(rest) == RemLen(n)
      decreases !done, 5 - bytes
    {
      var d := rest % 128;
      ghost var was := rest;
      rest := rest / 128;
      if rest > 0 {
        d := d + 128;
      } else {
        done := true;
      }
      assert out + RemLen(was) == if done then out + [d] else (out + [d]) + RemLen(rest);
      ghost var b := buf[..];
      p := WriteChar(buf, p, d);
      WrittenThen(old(buf[..]), b, buf[..], at, out, [d]);
      bytes := bytes + 1;
      out := out + [d];
    }
  }

  // write_mqtt_remain_len: the length field of the internal header, always four bytes.
  method WritePaddedLen(buf: array<byte>, at: nat, n: nat) returns (p: nat)
    requires n <= MAX_REMAINING_LENGTH && at + 4 <= buf.Length
    modifies buf
    ensures p == at + 4 && Written(old(buf[..]), buf[..], at, PadLen(n))
  {
    hide RemLen, Written;
    RemLenAtMostFour(n);
    var bytes;
    p, bytes := WriteRemainingLen(buf, at, n);
    ghost var out := RemLen(n);
    assert RemLen(n) + Zeros(0) == out;
    while bytes != 4
      invariant bytes <= 4 && p == at + bytes && |out| == bytes && Written(old(buf[..]), buf[..], at, out)
      invariant out == RemLen(n) + Zeros(bytes - |RemLen(n)|) && bytes >= |RemLen(n)|
      decreases 4 - bytes
    {
      ghost var b := buf[..];
      p := WriteChar(buf, p, 0);
      WrittenThen(old(buf[..]), b, buf[..], at, out, [0]);
      ZerosSnoc(bytes - |RemLen(n)|);
      out := out + [0];
      bytes := bytes + 1;
      assert out == RemLen(n) + (Zeros(bytes - 1 - |RemLen(n)|) + [0]);
    }
  }

  lemma {:induction false} ZerosSnoc(n: nat)
    ensures Zeros(n) + [0] == Zeros(n + 1)
  {
    if n > 0 {
      ZerosSnoc(n - 1);
      assert Zeros(n) + [0] == [0] + (Zeros(n - 1) + [0]);
    } else {
      assert Zeros(1) == [0] + Zeros(0);
    }
  }

  // The padded field reads back, for every legal length.
  lemma PaddedRoundTrip(n: nat)
    requires n <= MAX_REMAINING_LENGTH
    ensures |PadLen(n)| == 4 && ReadPad(PadLen(n)) == n
  {
    RemLenAtMostFour(n);
    ReadPadBack(n, Zeros(4 - |RemLen(n)|));
  }

  // ---------- the header of every packet ----------

  // The announced length suffices for the packet and is the length written unless the
  // remaining length is 2097151.
  lemma AnnouncedLength(header: byte, body: seq<byte>)
    requires |body| <= MAX_REMAINING_LENGTH
    ensures |Packet(header, body)| <= PacketLen(|body|)
    ensures |Packet(header, body)| == PacketLen(|body|) <==> |body| != 2097151
  {
    PacketLenExact(|body|);
    Pow128Values();
    var n := |body|;
    RemLenSize(n, if n < 128 then 1 else if n < 16384 then 2 else if n < 2097152 then 3 else 4);
  }

  method WriteHeader(buf: array<byte>, at: nat, header: byte, remLen: nat) returns (p: nat)
    requires remLen <= MAX_REMAINING_LENGTH && at + 1 + |RemLen(remLen)| <= buf.Length
    modifies buf
    ensures p == at + 1 + |RemLen(remLen)|
    ensures Written(old(buf[..]), buf[..], at, [header] + RemLen(remLen))
  {
    ghost var a := buf[..];
    p := WriteChar(buf, at, header);
    ghost var b := buf[..];
    var bytes;
    p, bytes := WriteRemainingLen(buf, p, remLen);
    WrittenThen(a, b, buf[..], at, [header], RemLen(remLen));
  }

  // ---------- PUBLISH ----------

  // What an encoder promises: an error and an untouched buffer if the announced length
  // exceeds the space given, else the announced length and exactly the packet.
  ghost predicate Encoded(before: seq<byte>, after: seq<byte>, at: nat, buflen: nat, header: byte, body: seq<byte>,
      r: int) {
    if |body| > MAX_REMAINING_LENGTH || PacketLen(|body|) > buflen then r == -1 && after == before
    else r == PacketLen(|body|) && Written(before, after, at, Packet(header, body))
  }

  method WriteId(buf: array<byte>, at: nat, qos: nat, id: nat) returns (p: nat)
    requires at + |IdBytes(qos, id)| <= buf.Length
    modifies buf
    ensures p == at + |IdBytes(qos, id)| && Written(old(buf[..]), buf[..], at, IdBytes(qos, id))
  {
    p := at;
    if qos > 0 {
      p := WriteShort(buf, at, id);
    }
  }

  method WritePublishBody(buf: array<byte>, at: nat, qos: nat, id: nat, topic: seq<byte>, payload: seq<byte>)
    returns (p: nat)
    requires at + |PublishBody(qos, id, topic, payload)| <= buf.Length
    modifies buf
    ensures p == at + |PublishBody(qos, id, topic, payload)|
    ensures Written(old(buf[..]), buf[..], at, PublishBody(qos, id, topic, payload))
  {
    hide Written, IdBytes;
    ghost var b0 := buf[..];
    p := WriteString(buf, at, topic);
    ghost var b1 := buf[..];
    p := WriteId(buf, p, qos, id);
    ghost var b2 := buf[..];
    WrittenThen(b0, b1, b2, at, Str(topic), IdBytes(qos, id));
    p := WriteData(buf, p, payload);
    WrittenThen(b0, b2, buf[..], at, Str(topic) + IdBytes(qos, id), payload);
  }

  method EncodePublish(buf: array<byte>, at: nat, buflen: nat, dup: bool, qos: nat, retain: bool, id: nat,
                       topic: seq<byte>, payload: seq<byte>) returns (r: int)
    requires at + buflen <= buf.Length && qos < 4
    modifies buf
    ensures Encoded(old(buf[..]), buf[..], at, buflen, HeaderByte(PUBLISH, dup, qos, retain),
                    PublishBody(qos, id, topic, payload), r)
  {
    ghost var body := PublishBody(qos, id, topic, payload);
    var header := HeaderByte(PUBLISH, dup, qos, retain);
    var remLen := 2 + |topic| + |payload| + if qos > 0 then 2 else 0;
    if remLen > MAX_REMAINING_LENGTH {
      return -1;
    }
    r := PacketLen(remLen);
    if r > buflen {
      return -1;
    }
    AnnouncedLength(header, body);
    ghost var b0 := buf[..];
    var p := WriteHeader(buf, at, header, remLen);
    ghost var b1 := buf[..];
    p := WritePublishBody(buf, p, qos, id, topic, payload);
    WrittenThen(b0, b1, buf[..], at, [header] + RemLen(remLen), body);
  }

  // ---------- acknowledgements and empty packets ----------

  method EncodeAck(buf: array<byte>, at: nat, buflen: nat, ptype: nat, id: nat) returns (r: int)
    requires at + buflen <= buf.Length && ptype < 16
    modifies buf
    ensures if buflen < 4 then r == -1 && buf[..] == old(buf[..])
            else r == |AckPacket(ptype, id)| && Written(old(buf[..]), buf[..], at, AckPacket(ptype, id))
  {
    if buflen < 4 {
      return -1;
    }
    var header := HeaderByte(ptype, false, if ptype == PUBREL then 1 else 0, false);
    ghost var b0 := buf[..];
    var p := WriteHeader(buf, at, header, 2);
    ghost var b1 := buf[..];
    p := WriteShort(buf, p, id);
    WrittenThen(b0, b1, buf[..], at, [header] + RemLen(2), Short(id));
    r := 4;
  }

  // mqtt_encode_zero, for PINGREQ and DISCONNECT.
  method EncodeZero(buf: array<byte>, at: nat, buflen: nat, ptype: nat) returns (r: int)
    requires at + buflen <= buf.Length && ptype < 16
    modifies buf
    ensures if buflen < 2 then r == -1 && buf[..] == old(buf[..])
            else r == |EmptyPacket(ptype)| && Written(old(buf[..]), buf[..], at, EmptyPacket(ptype))
  {
    if buflen < 2 {
      return -1;
    }
    var header := HeaderByte(ptype, false, 0, false);
    var p := WriteHeader(buf, at, header, 0);
    assert EmptyPacket(ptype) == [header] + RemLen(0);
    r := 2;
  }

  // ---------- SUBSCRIBE and UNSUBSCRIBE ----------

  function OptFilter(t: (Option<seq<byte>>, byte)): seq<byte> {
    if t.0.Some? then Str(t.0.value) + [t.1] else []
  }

  // What is written for a list of filters: entries without a topic are passed over.
  function OptFilters(topics: seq<(Option<seq<byte>>, byte)>): seq<byte> {
    if topics == [] then [] else OptFilter(topics[0]) + OptFilters(topics[1..])
  }

  function OptNames(names: seq<Option<seq<byte>>>): seq<byte> {
    if names == [] then [] else OptStr(names[0]) + OptNames(names[1..])
  }

  function PresentFilters(topics: seq<(Option<seq<byte>>, byte)>): seq<(seq<byte>, byte)> {
    if topics == [] then []
    else (if topics[0].0.Some? then [(topics[0].0.value, topics[0].1)] else []) + PresentFilters(topics[1..])
  }

  function PresentNames(names: seq<Option<seq<byte>>>): seq<seq<byte>> {
    if names == [] then []
    else (if names[0].Some? then [names[0].value] else []) + PresentNames(names[1..])
  }

  // So the packets are those for the entries that are there.
  lemma {:induction false} PresentIsWritten(topics: seq<(Option<seq<byte>>, byte)>, names: seq<Option<seq<byte>>>)
    ensures OptFilters(topics) == TopicFilters(PresentFilters(topics))
    ensures OptNames(names) == Names(PresentNames(names))
    decreases |topics| + |names|
  {
    if topics != [] {
      PresentIsWritten(topics[1..], names);
      assert topics[0].0.Some? ==> PresentFilters(topics)[1..] == PresentFilters(topics[1..]);
      assert topics[0].0.None? ==> PresentFilters(topics) == PresentFilters(topics[1..]);
    }
    if names != [] {
      PresentIsWritten(topics, names[1..]);
      assert names[0].Some? ==> PresentNames(names)[1..] == PresentNames(names[1..]);
      assert names[0].None? ==> PresentNames(names) == PresentNames(names[1..]);
    }
  }

  lemma FiltersFirst(topics: seq<(Option<seq<byte>>, byte)>, k: nat)
    requires 0 < k <= |topics|
    ensures OptFilters(topics[..k]) == OptFilter(topics[0]) + OptFilters(topics[1..][..k - 1])
  {
    hide OptFilter;
    assert topics[..k][1..] == topics[1..][..k - 1];
  }

  lemma {:induction false} FiltersSnoc(topics: seq<(Option<seq<byte>>, byte)>, k: nat)
    requires k < |topics|
    ensures OptFilters(topics[..k + 1]) == OptFilters(topics[..k]) + OptFilter(topics[k])
    decreases k
  {
    assert OptFilters([]) == [];
    hide OptFilter, OptFilters;
    FiltersFirst(topics, k + 1);
    if k == 0 {
      assert topics[1..][..0] == [] && topics[..0] == [];
    } else {
      FiltersSnoc(topics[1..], k - 1);
      FiltersFirst(topics, k);
      assert topics[1..][k - 1] == topics[k];
      ConcatAssoc(OptFilter(topics[0]), OptFilters(topics[1..][..k - 1]), OptFilter(topics[k]));
    }
  }

  lemma {:induction false} FiltersGrow(topics: seq<(Option<seq<byte>>, byte)>, k: nat)
    requires k <= |topics|
    ensures |OptFilters(topics[..k])| <= |OptFilters(topics)|
    decreases |topics| - k
  {
    if k < |topics| {
      FiltersSnoc(topics, k);
      FiltersGrow(topics, k + 1);
    } else {
      assert topics[..k] == topics;
    }
  }

  // mqtt_calculate_subscribe_len.
  method SubscribeLen(topics: seq<(Option<seq<byte>>, byte)>) returns (n: nat)
    ensures n == 2 + |OptFilters(topics)|
  {
    n := 2;
    for i := 0 to |topics|
      invariant n == 2 + |OptFilters(topics[..i])|
    {
      FiltersSnoc(topics, i);
      if topics[i].0.Some? {
        n := n + 2 + |topics[i].0.value| + 1;
      }
    }
    assert topics[..|topics|] == topics;
  }

  method WriteFilters(buf: array<byte>, at: nat, topics: seq<(Option<seq<byte>>, byte)>) returns (p: nat)
    requires at + |OptFilters(topics)| <= buf.Length
    modifies buf
    ensures p == at + |OptFilters(topics)| && Written(old(buf[..]), buf[..], at, OptFilters(topics))
  {
    p := at;
    ghost var out: seq<byte> := [];
    for i := 0 to |topics|
      invariant out == OptFilters(topics[..i]) && p == at + |out| && Written(old(buf[..]), buf[..], at, out)
    {
      FiltersSnoc(topics, i);
      FiltersGrow(topics, i + 1);
      ghost var b1 := buf[..];
      if topics[i].0.Some? {
        p := WriteFilter(buf, p, topics[i].0.value, topics[i].1);
      }
      ghost var more := OptFilter(topics[i]);
      WrittenThen(old(buf[..]), b1, buf[..], at, out, more);
      assert OptFilters(topics[..i + 1]) == out + more;
      out := out + more;
    }
    assert topics[..|topics|] == topics;
  }

  method WriteFilter(buf: array<byte>, at: nat, topic: seq<byte>, qos: byte) returns (p: nat)
    requires at + 2 + |topic| + 1 <= buf.Length
    modifies buf
    ensures p == at + 2 + |topic| + 1 && Written(old(buf[..]), buf[..], at, Str(topic) + [qos])
  {
    ghost var b0 := buf[..];
    p := WriteString(buf, at, topic);
    ghost var b1 := buf[..];
    p := WriteChar(buf, p, qos);
    WrittenThen(b0, b1, buf[..], at, Str(topic), [qos]);
  }

  method WriteSubscribeBody(buf: array<byte>, at: nat, id: nat, topics: seq<(Option<seq<byte>>, byte)>) returns (p: nat)
    requires at + 2 + |OptFilters(topics)| <= buf.Length
    modifies buf
    ensures p == at + 2 + |OptFilters(topics)| && Written(old(buf[..]), buf[..], at, Short(id) + OptFilters(topics))
  {
    ghost var b0 := buf[..];
    p := WriteShort(buf, at, id);
    ghost var b1 := buf[..];
    p := WriteFilters(buf, p, topics);
    WrittenThen(b0, b1, buf[..], at, Short(id), OptFilters(topics));
  }

  method EncodeSubscribe(buf: array<byte>, at: nat, buflen: nat, id: nat, topics: seq<(Option<seq<byte>>, byte)>)
    returns (r: int)
    requires at + buflen <= buf.Length && buflen <= MAX_REMAINING_LENGTH
    modifies buf
    ensures Encoded(old(buf[..]), buf[..], at, buflen, HeaderByte(SUBSCRIBE, false, 1, false),
            Short(id) + OptFilters(topics), r)
  {
    hide OptFilters, RemLen, Written;
    ghost var body := Short(id) + OptFilters(topics);
    var header := HeaderByte(SUBSCRIBE, false, 1, false);
    var remLen := SubscribeLen(topics);
    r := PacketLen(remLen);
    if r > buflen {
      return -1;
    }
    AnnouncedLength(header, body);
    ghost var b0 := buf[..];
    var p := WriteHeader(buf, at, header, remLen);
    ghost var b1 := buf[..];
    p := WriteSubscribeBody(buf, p, id, topics);
    WrittenThen(b0, b1, buf[..], at, [header] + RemLen(remLen), body);
  }

  lemma {:induction false} NamesSnoc(names: seq<Option<seq<byte>>>, k: nat)
    requires k < |names|
    ensures OptNames(names[..k + 1]) == OptNames(names[..k]) + OptStr(names[k])
    decreases k
  {
    if k == 0 {
      assert names[..1][1..] == [] && names[..0] == [];
    } else {
      hide OptStr;
      NamesSnoc(names[1..], k - 1);
      ConcatAssoc(OptStr(names[0]), OptNames(names[1..][..k - 1]), OptStr(names[k]));
      assert names[..k + 1][1..] == names[1..][..k] && names[..k][1..] == names[1..][..k - 1];
    }
  }

  lemma {:induction false} NamesGrow(names: seq<Option<seq<byte>>>, k: nat)
    requires k <= |names|
    ensures |OptNames(names[..k])| <= |OptNames(names)|
    decreases |names| - k
  {
    if k < |names| {
      NamesSnoc(names, k);
      NamesGrow(names, k + 1);
    } else {
      assert names[..k] == names;
    }
  }

  // mqtt_calculate_unsubscribe_len.
  method UnsubscribeLen(names: seq<Option<seq<byte>>>) returns (n: nat)
    ensures n == if names != [] && names[0].None? then 0 else 2 + |OptNames(names)|
  {
    if names != [] && names[0].None? {
      return 0;
    }
    n := 2;
    for i := 0 to |names|
      invariant n == 2 + |OptNames(names[..i])|
    {
      NamesSnoc(names, i);
      if names[i].Some? {
        n := n + 2 + |names[i].value|;
      }
    }
    assert names[..|names|] == names;
  }

  method WriteNames(buf: array<byte>, at: nat, names: seq<Option<seq<byte>>>) returns (p: nat)
    requires at + |OptNames(names)| <= buf.Length
    modifies buf
    ensures p == at + |OptNames(names)| && Written(old(buf[..]), buf[..], at, OptNames(names))
  {
    assert OptNames([]) == [] && names[..0] == [];
    hide OptStr, OptNames;
    p := at;
    ghost var out: seq<byte> := [];
    for i := 0 to |names|
      invariant out == OptNames(names[..i]) && p == at + |out| && Written(old(buf[..]), buf[..], at, out)
    {
      NamesSnoc(names, i);
      NamesGrow(names, i + 1);
      ghost var b1 := buf[..];
      p := WriteOptional(buf, p, names[i]);
      WrittenThen(old(buf[..]), b1, buf[..], at, out, OptStr(names[i]));
      out := out + OptStr(names[i]);
    }
    assert names[..|names|] == names;
  }

  method WriteUnsubscribeBody(buf: array<byte>, at: nat, id: nat, names: seq<Option<seq<byte>>>) returns (p: nat)
    requires at + 2 + |OptNames(names)| <= buf.Length
    modifies buf
    ensures p == at + 2 + |OptNames(names)| && Written(old(buf[..]), buf[..], at, Short(id) + OptNames(names))
  {
    ghost var b0 := buf[..];
    p := WriteShort(buf, at, id);
    ghost var b1 := buf[..];
    p := WriteNames(buf, p, names);
    WrittenThen(b0, b1, buf[..], at, Short(id), OptNames(names));
  }

  // A list whose first entry is absent is refused.
  method EncodeUnsubscribe(buf: array<byte>, at: nat, buflen: nat, id: nat, names: seq<Option<seq<byte>>>)
    returns (r: int)
    requires at + buflen <= buf.Length && buflen <= MAX_REMAINING_LENGTH
    modifies buf
    ensures if names != [] && names[0].None? then r == -1 && buf[..] == old(buf[..])
            else Encoded(old(buf[..]), buf[..], at, buflen, HeaderByte(UNSUBSCRIBE, false, 1, false),
                         Short(id) + OptNames(names), r)
  {
    hide OptNames, RemLen, Written;
    if names != [] && names[0].None? {
      return -1;
    }
    ghost var body := Short(id) + OptNames(names);
    var header := HeaderByte(UNSUBSCRIBE, false, 1, false);
    var remLen := UnsubscribeLen(names);
    r := PacketLen(remLen);
    if r > buflen {
      return -1;
    }
    AnnouncedLength(header, body);
    ghost var b0 := buf[..];
    var p := WriteHeader(buf, at, header, remLen);
    ghost var b1 := buf[..];
    p := WriteUnsubscribeBody(buf, p, id, names);
    WrittenThen(b0, b1, buf[..], at, [header] + RemLen(remLen), body);
  }

  // ---------- CONNECT ----------

  method WriteOptional(buf: array<byte>, at: nat, o: Option<seq<byte>>) returns (p: nat)
    requires at + |OptStr(o)| <= buf.Length
    modifies buf
    ensures p == at + |OptStr(o)| && Written(old(buf[..]), buf[..], at, OptStr(o))
  {
    p := at;
    if o.Some? {
      p := WriteString(buf, at, o.value);
    }
  }

  // The payload of a will with its length.
  method WriteSized(buf: array<byte>, at: nat, payload: seq<byte>) returns (p: nat)
    requires at + 2 + |payload| <= buf.Length
    modifies buf
    ensures p == at + 2 + |payload| && Written(old(buf[..]), buf[..], at, Short(|payload|) + payload)
  {
    hide Written;
    ghost var b0 := buf[..];
    p := WriteShort(buf, at, |payload|);
    ghost var b1 := buf[..];
    p := WriteData(buf, p, payload);
    WrittenThen(b0, b1, buf[..], at, Short(|payload|), payload);
  }

  method WriteWill(buf: array<byte>, at: nat, c: ConnectData) returns (p: nat)
    requires at + |WillBytes(c)| <= buf.Length
    modifies buf
    ensures p == at + |WillBytes(c)| && Written(old(buf[..]), buf[..], at, WillBytes(c))
  {
    hide Written, OptStr;
    p := at;
    WrittenNone(buf[..], at);
    if c.willFlag {
      ghost var b0 := buf[..];
      p := WriteOptional(buf, p, c.will.topic);
      ghost var b1 := buf[..];
      p := WriteSized(buf, p, c.will.payload);
      WrittenThen(b0, b1, buf[..], at, OptStr(c.will.topic), Short(|c.will.payload|) + c.will.payload);
    }
  }

  method WritePreamble(buf: array<byte>, at: nat, c: ConnectData) returns (p: nat)
    requires c.will.qos < 4 && at + |Preamble(c)| <= buf.Length
    modifies buf
    ensures p == at + |Preamble(c)| && Written(old(buf[..]), buf[..], at, Preamble(c))
  {
    var name := if c.version == 4 then MQTT else MQISDP;
    var level: byte := if c.version == 4 then 4 else 3;
    ghost var b0 := buf[..];
    p := WriteString(buf, at, name);
    ghost var b1 := buf[..];
    p := WriteChar(buf, p, level);
    ghost var b2 := buf[..];
    WrittenThen(b0, b1, b2, at, Str(name), [level]);
    p := WriteChar(buf, p, ConnectFlags(c));
    ghost var b3 := buf[..];
    WrittenThen(b0, b2, b3, at, Str(name) + [level], [ConnectFlags(c)]);
    p := WriteShort(buf, p, c.keepalive);
    WrittenThen(b0, b3, buf[..], at, Str(name) + [level] + [ConnectFlags(c)], Short(c.keepalive));
  }

  method WriteCredentials(buf: array<byte>, at: nat, c: ConnectData) returns (p: nat)
    requires at + |OptStr(c.username) + OptStr(c.password)| <= buf.Length
    modifies buf
    ensures p == at + |OptStr(c.username) + OptStr(c.password)|
    ensures Written(old(buf[..]), buf[..], at, OptStr(c.username) + OptStr(c.password))
  {
    hide Written, OptStr;
    ghost var b0 := buf[..];
    p := WriteOptional(buf, at, c.username);
    ghost var b1 := buf[..];
    p := WriteOptional(buf, p, c.password);
    WrittenThen(b0, b1, buf[..], at, OptStr(c.username), OptStr(c.password));
  }

  method WriteWillAndCredentials(buf: array<byte>, at: nat, c: ConnectData) returns (p: nat)
    requires at + |WillBytes(c) + (OptStr(c.username) + OptStr(c.password))| <= buf.Length
    modifies buf
    ensures p == at + |WillBytes(c) + (OptStr(c.username) + OptStr(c.password))|
    ensures Written(old(buf[..]), buf[..], at, WillBytes(c) + (OptStr(c.username) + OptStr(c.password)))
  {
    ghost var b0 := buf[..];
    p := WriteWill(buf, at, c);
    ghost var b1 := buf[..];
    p := WriteCredentials(buf, p, c);
    WrittenThen(b0, b1, buf[..], at, WillBytes(c), OptStr(c.username) + OptStr(c.password));
  }

  method WriteConnectBody(buf: array<byte>, at: nat, c: ConnectData) returns (p: nat)
    requires c.will.qos < 4 && at + |ConnectBody(c)| <= buf.Length
    modifies buf
    ensures p == at + |ConnectBody(c)| && Written(old(buf[..]), buf[..], at, ConnectBody(c))
  {
    hide Written, OptStr, WillBytes, Preamble;
    ghost var b0 := buf[..];
    p := WritePreamble(buf, at, c);
    ghost var b1 := buf[..];
    p := WriteOptional(buf, p, c.clientId);
    ghost var b2 := buf[..];
    WrittenThen(b0, b1, b2, at, Preamble(c), OptStr(c.clientId));
    p := WriteWillAndCredentials(buf, p, c);
    WrittenThen(b0, b2, buf[..], at, Preamble(c) + OptStr(c.clientId),
        WillBytes(c) + (OptStr(c.username) + OptStr(c.password)));
  }

  method WriteConnect(buf: array<byte>, at: nat, c: ConnectData)
    requires c.will.qos < 4 && ConnectLen(c) <= MAX_REMAINING_LENGTH && at + |ConnectBytes(c)| <= buf.Length
    modifies buf
    ensures Written(old(buf[..]), buf[..], at, ConnectBytes(c))
  {
    hide Written, ConnectBody, ConnectLen, RemLen;
    var header := HeaderByte(CONNECT, false, 0, false);
    ghost var b0 := buf[..];
    var p := WriteHeader(buf, at, header, ConnectLen(c));
    ghost var b1 := buf[..];
    p := WriteConnectBody(buf, p, c);
    WrittenThen(b0, b1, buf[..], at, [header] + RemLen(ConnectLen(c)), ConnectBody(c));
  }

  // The array must have room for what is really written, which is more than buflen when
  // the will is not counted.
  method EncodeConnect(buf: array<byte>, at: nat, buflen: nat, c: ConnectData) returns (r: int)
    requires c.will.qos < 4 && buflen <= MAX_REMAINING_LENGTH
    requires at + buflen <= buf.Length && at + |ConnectBytes(c)| <= buf.Length
    modifies buf
    ensures if PacketLen(ConnectLen(c)) > buflen then r == -1 && buf[..] == old(buf[..])
            else r == PacketLen(ConnectLen(c)) && Written(old(buf[..]), buf[..], at, ConnectBytes(c))
  {
    r := PacketLen(ConnectLen(c));
    if r > buflen {
      return -1;
    }
    WriteConnect(buf, at, c);
  }
}
