// MQTT 3.1.1 on the wire: the remaining length field, whole packets, and the
// packets the client writes and reads.
module MqttWire {
  import opened Bytes

  const MAX_REMAINING_LENGTH := 268435455

  const CONNECT := 1
  const CONNACK := 2
  const PUBLISH := 3
  const PUBACK := 4
  const PUBREC := 5
  const PUBREL := 6
  const PUBCOMP := 7
  const SUBSCRIBE := 8
  const SUBACK := 9
  const UNSUBSCRIBE := 10
  const UNSUBACK := 11
  const PINGREQ := 12
  const PINGRESP := 13
  const DISCONNECT := 14

  // ---------- remaining length (section 2.2.3 of MQTT 3.1.1) ----------

  // Seven bits a byte, least significant first, the high bit marking continuation.
  function RemLen(n: nat): (s: seq<byte>)
    ensures 1 <= |s|
  {
    if n < 128 then [n] else [128 + n % 128] + RemLen(n / 128)
  }

  // Number of bytes read and the value; or the data is too short; or more than
  // four bytes would be needed.
  datatype LengthRead = Got(bytes: nat, value: nat) | TooShort | Illegal

  function ReadRemLenFrom(s: seq<byte>, k: nat): LengthRead
    requires k <= 4 && k <= |s|
    decreases 4 - k
  {
    if k == 4 then Illegal
    else if k == |s| then TooShort
    else if s[k] < 128 then Got(k + 1, s[k])
    else
      match ReadRemLenFrom(s, k + 1)
      case Got(b, v) => Got(b, s[k] - 128 + 128 * v)
      case other => other
  }

  function ReadRemLen(s: seq<byte>): LengthRead {
    ReadRemLenFrom(s, 0)
  }

  function Pow128(k: nat): nat {
    if k == 0 then 1 else 128 * Pow128(k - 1)
  }

  lemma {:induction false} RemLenSize(n: nat, k: nat)
    requires 1 <= k && n < Pow128(k)
    ensures |RemLen(n)| <= k
    ensures k == 1 || Pow128(k - 1) <= n ==> |RemLen(n)| == k
  {
    if n >= 128 {
      RemLenSize(n / 128, k - 1);
    }
  }

  lemma Pow128Values()
    ensures Pow128(1) == 128 && Pow128(2) == 16384 && Pow128(3) == 2097152 && Pow128(4) == 268435456
  {
  }

  lemma {:induction false} ReadBackFrom(p: seq<byte>, n: nat, rest: seq<byte>, k: nat)
    requires k == |p| && k < 4
    requires n < Pow128(4 - k)
    ensures ReadRemLenFrom(p + RemLen(n) + rest, k) == Got(k + |RemLen(n)|, n)
    decreases 4 - k
  {
    var s := p + RemLen(n) + rest;
    assert s[k] == RemLen(n)[0];
    if n >= 128 {
      var d := 128 + n % 128;
      assert s == (p + [d]) + RemLen(n / 128) + rest;
      ReadBackFrom(p + [d], n / 128, rest, k + 1);
    }
  }

  // The reader undoes the writer, whatever follows, for every legal length.
  lemma ReadBack(n: nat, rest: seq<byte>)
    requires n <= MAX_REMAINING_LENGTH
    ensures ReadRemLen(RemLen(n) + rest) == Got(|RemLen(n)|, n)
  {
    Pow128Values();
    ReadBackFrom([], n, rest, 0);
    assert [] + RemLen(n) + rest == RemLen(n) + rest;
  }

  // Only the bytes the reader consumed matter, and a verdict of Illegal is final.
  lemma {:induction false} ReadPrefixFrom(s: seq<byte>, t: seq<byte>, k: nat)
    requires k <= 4 && k <= |s|
    ensures !ReadRemLenFrom(s, k).TooShort? ==> ReadRemLenFrom(s + t, k) == ReadRemLenFrom(s, k)
    ensures ReadRemLenFrom(s, k).Got? ==> k < ReadRemLenFrom(s, k).bytes <= |s|
    decreases 4 - k
  {
    if k < 4 && k < |s| && s[k] >= 128 {
      ReadPrefixFrom(s, t, k + 1);
    }
  }

  // What mqtt_calculate_packet_len returns.
  function PacketLen(n: nat): nat {
    1 + (if n < 128 then 1 else if n < 16384 then 2 else if n < 2097151 then 3 else 4) + n
  }

  // The length announced for a packet is the length written, except for one
  // remaining length, where the third boundary is off by one.
  lemma PacketLenExact(n: nat)
    requires n <= MAX_REMAINING_LENGTH
    ensures PacketLen(n) == 1 + |RemLen(n)| + n <==> n != 2097151
  {
    Pow128Values();
    RemLenSize(n, if n < 128 then 1 else if n < 16384 then 2 else if n < 2097152 then 3 else 4);
  }

  // ---------- one packet in a byte stream ----------

  // A whole packet of len bytes whose remaining length field takes bytes bytes;
  // not enough data yet; or a malformed length.
  datatype Message = Whole(len: nat, bytes: nat) | Partial | Malformed

  function ReadMessage(s: seq<byte>): (r: Message)
    ensures r.Whole? ==> 2 <= r.len <= |s| && 1 <= r.bytes && 1 + r.bytes <= r.len
  {
    if |s| < 2 then Partial
    else
      ReadPrefixFrom(s[1..], [], 0);
      match ReadRemLen(s[1..])
      case TooShort => Partial
      case Illegal => Malformed
      case Got(b, v) => if v > |s| - 1 - b then Partial else Whole(1 + b + v, b)
  }

  // A verdict other than Partial does not depend on what follows.
  lemma ReadMessagePrefix(s: seq<byte>, t: seq<byte>)
    requires !ReadMessage(s).Partial?
    ensures ReadMessage(s + t) == ReadMessage(s)
  {
    assert (s + t)[1..] == s[1..] + t;
    ReadPrefixFrom(s[1..], t, 0);
  }

  // A well-formed packet is read as exactly itself.
  ghost predicate WellFormed(p: seq<byte>) {
    ReadMessage(p).Whole? && ReadMessage(p).len == |p|
  }

  // Every proper prefix of a well-formed packet is reported as partial.
  lemma ProperPrefixIsPartial(p: seq<byte>, k: nat)
    requires WellFormed(p) && k < |p|
    ensures ReadMessage(p[..k]).Partial?
  {
    assert p[..k] + p[k..] == p;
    if !ReadMessage(p[..k]).Partial? {
      ReadMessagePrefix(p[..k], p[k..]);
    }
  }

  function Packet(header: byte, body: seq<byte>): (p: seq<byte>)
    ensures |p| >= 2 && p[0] == header
  {
    [header] + RemLen(|body|) + body
  }

  lemma PacketWellFormed(header: byte, body: seq<byte>)
    requires |body| <= MAX_REMAINING_LENGTH
    ensures WellFormed(Packet(header, body))
    ensures ReadMessage(Packet(header, body)).bytes == |RemLen(|body|)|
    ensures Packet(header, body)[1 + |RemLen(|body|)|..] == body
  {
    var p := Packet(header, body);
    assert p[1..] == RemLen(|body|) + body;
    ReadBack(|body|, body);
  }

  // ---------- the packets the client writes ----------

  function HeaderByte(ptype: nat, dup: bool, qos: nat, retain: bool): byte
    requires ptype < 16 && qos < 4
  {
    16 * ptype + (if dup then 8 else 0) + 2 * qos + (if retain then 1 else 0)
  }

  // The fields of the fixed header.
  function TypeOf(header: byte): nat {
    header / 16
  }

  predicate DupOf(header: byte) {
    header / 8 % 2 == 1
  }

  function QosOf(header: byte): nat {
    header / 2 % 4
  }

  predicate RetainOf(header: byte) {
    header % 2 == 1
  }

  lemma HeaderFields(ptype: nat, dup: bool, qos: nat, retain: bool)
    requires ptype < 16 && qos < 4
    ensures var h := HeaderByte(ptype, dup, qos, retain);
            TypeOf(h) == ptype && DupOf(h) == dup && QosOf(h) == qos && RetainOf(h) == retain
  {
  }

  // write_short keeps the low sixteen bits.
  function Short(v: nat): (s: seq<byte>)
    ensures |s| == 2
  {
    [v / 256 % 256, v % 256]
  }

  function ReadShort(s: seq<byte>): nat
    requires |s| >= 2
  {
    (s[0] as int) * 256 + (s[1] as int)
  }

  lemma ShortRoundTrip(v: nat, rest: seq<byte>)
    requires v < 65536
    ensures ReadShort(Short(v) + rest) == v
  {
  }

  function Str(t: seq<byte>): seq<byte> {
    Short(|t|) + t
  }

  function IdBytes(qos: nat, id: nat): seq<byte> {
    if qos > 0 then Short(id) else []
  }

  function PublishBody(qos: nat, id: nat, topic: seq<byte>, payload: seq<byte>): (b: seq<byte>)
    ensures |b| == 2 + |topic| + (if qos > 0 then 2 else 0) + |payload|
  {
    Str(topic) + IdBytes(qos, id) + payload
  }

  // PUBLISH, section 3.3.
  function PublishPacket(dup: bool, qos: nat, retain: bool, id: nat, topic: seq<byte>, payload: seq<byte>): seq<byte>
    requires qos < 4
  {
    Packet(HeaderByte(PUBLISH, dup, qos, retain), PublishBody(qos, id, topic, payload))
  }

  // PUBACK, PUBREC, PUBREL and PUBCOMP; PUBREL alone carries the reserved bit pattern 0010.
  function AckPacket(ptype: nat, id: nat): seq<byte>
    requires ptype < 16
  {
    Packet(HeaderByte(ptype, false, if ptype == PUBREL then 1 else 0, false), Short(id))
  }

  function EmptyPacket(ptype: nat): seq<byte>
    requires ptype < 16
  {
    Packet(HeaderByte(ptype, false, 0, false), [])
  }

  function TopicFilters(topics: seq<(seq<byte>, byte)>): seq<byte> {
    if topics == [] then [] else Str(topics[0].0) + [topics[0].1] + TopicFilters(topics[1..])
  }

  function SubscribePacket(id: nat, topics: seq<(seq<byte>, byte)>): seq<byte> {
    Packet(HeaderByte(SUBSCRIBE, false, 1, false), Short(id) + TopicFilters(topics))
  }

  // ---------- the PUBLISH the client reads ----------

  datatype Inbound = Received(topic: seq<byte>, payload: seq<byte>, id: nat) | Rejected

  // mqtt_handle_publish up to the report: the length checks and the fields.
  function ParsePublish(qos: nat, body: seq<byte>): Inbound {
    if |body| < 4 then Rejected
    else
      var n := ReadShort(body);
      if |body| < n + 4 then Rejected
      else
        var rest := body[2 + n..];
        if qos > 0 then Received(body[2..2 + n], rest[2..], ReadShort(rest))
        else Received(body[2..2 + n], rest, 0)
  }

  // What the encoder writes is read back with the same fields, unless the body is
  // shorter than the reader insists on: a QoS 0 payload of less than two bytes.
  lemma PublishRoundTrip(dup: bool, qos: nat, retain: bool, id: nat, topic: seq<byte>, payload: seq<byte>)
    requires qos <= 2 && id < 65536 && |topic| < 65536
    requires |PublishBody(qos, id, topic, payload)| <= MAX_REMAINING_LENGTH
    ensures var p := PublishPacket(dup, qos, retain, id, topic, payload);
            var r := ReadMessage(p);
            && r.Whole? && r.len == |p|
            && TypeOf(p[0]) == PUBLISH && DupOf(p[0]) == dup && QosOf(p[0]) == qos && RetainOf(p[0]) == retain
            && (ParsePublish(QosOf(p[0]), p[1 + r.bytes..]) == Received(topic, payload, if qos > 0 then id else 0)
                <==> qos > 0 || |payload| >= 2)
            && (qos == 0 && |payload| < 2 ==> ParsePublish(QosOf(p[0]), p[1 + r.bytes..]) == Rejected)
  {
    var body := PublishBody(qos, id, topic, payload);
    PacketWellFormed(HeaderByte(PUBLISH, dup, qos, retain), body);
    HeaderFields(PUBLISH, dup, qos, retain);
    PublishFields(qos, id, topic, payload);
  }

  lemma PublishFields(qos: nat, id: nat, topic: seq<byte>, payload: seq<byte>)
    requires id < 65536 && |topic| < 65536
    ensures var body := PublishBody(qos, id, topic, payload);
            if qos > 0 || |payload| >= 2
            then ParsePublish(qos, body) == Received(topic, payload, if qos > 0 then id else 0)
            else ParsePublish(qos, body) == Rejected
  {
    var body := PublishBody(qos, id, topic, payload);
    var n := |topic|;
    assert body == Short(n) + (topic + (IdBytes(qos, id) + payload));
    ShortRoundTrip(n, topic + (IdBytes(qos, id) + payload));
    if qos > 0 || |payload| >= 2 {
      assert body[2..2 + n] == topic;
      assert body[2 + n..] == IdBytes(qos, id) + payload;
      if qos > 0 {
        ShortRoundTrip(id, payload);
        assert (Short(id) + payload)[2..] == payload;
      }
    }
  }

  // ---------- message ids of stored packets ----------

  // The packet id of a PUBLISH above QoS 0, a SUBSCRIBE or an UNSUBSCRIBE.
  function PacketId(p: seq<byte>): nat {
    match ReadMessage(p)
    case Whole(len, b) =>
      var body := p[1 + b..len];
      if TypeOf(p[0]) == PUBLISH then
        (match ParsePublish(QosOf(p[0]), body) case Received(_, _, id) => id case Rejected => 0)
      else if |body| >= 2 then ReadShort(body) else 0
    case _ => 0
  }

  lemma PublishPacketId(dup: bool, qos: nat, retain: bool, id: nat, topic: seq<byte>, payload: seq<byte>)
    requires 1 <= qos <= 2 && id < 65536 && |topic| < 65536
    requires |PublishBody(qos, id, topic, payload)| <= MAX_REMAINING_LENGTH
    ensures PacketId(PublishPacket(dup, qos, retain, id, topic, payload)) == id
  {
    PublishRoundTrip(dup, qos, retain, id, topic, payload);
    var p := PublishPacket(dup, qos, retain, id, topic, payload);
    assert p[1 + ReadMessage(p).bytes..|p|] == p[1 + ReadMessage(p).bytes..];
  }

  lemma BodyPacketId(header: byte, id: nat, rest: seq<byte>)
    requires TypeOf(header) != PUBLISH && id < 65536
    requires 2 + |rest| <= MAX_REMAINING_LENGTH
    ensures PacketId(Packet(header, Short(id) + rest)) == id
  {
    var p := Packet(header, Short(id) + rest);
    PacketWellFormed(header, Short(id) + rest);
    assert p[1 + ReadMessage(p).bytes..|p|] == Short(id) + rest;
  }

  // Setting the DUP bit of a stored PUBLISH.
  function SetDup(p: seq<byte>): (r: seq<byte>)
    requires |p| > 0
    ensures |r| == |p|
  {
    if DupOf(p[0]) then p else DupBit(p[0]); p[0 := p[0] + 8]
  }

  // It turns the packet into the duplicate of the same publication.
  lemma SetDupIsDuplicate(dup: bool, qos: nat, retain: bool, id: nat, topic: seq<byte>, payload: seq<byte>)
    requires qos < 4
    ensures SetDup(PublishPacket(dup, qos, retain, id, topic, payload))
            == PublishPacket(true, qos, retain, id, topic, payload)
  {
    HeaderFields(PUBLISH, dup, qos, retain);
    var p := PublishPacket(dup, qos, retain, id, topic, payload);
    var q := PublishPacket(true, qos, retain, id, topic, payload);
    assert p[1..] == q[1..];
    assert SetDup(p)[1..] == p[1..];
  }

  lemma DupBit(h: byte)
    requires !DupOf(h)
    ensures h + 8 < 256 && DupOf(h + 8)
    ensures TypeOf(h + 8) == TypeOf(h) && QosOf(h + 8) == QosOf(h) && RetainOf(h + 8) == RetainOf(h)
  {
    var a := (h as int) / 8;
    assert a % 2 == 0 && a <= 30;
    assert (h as int) + 8 < 256 && ((h as int) + 8) / 8 == a + 1;
    assert (h as int) / 16 == a / 2 && ((h as int) + 8) / 16 == (a + 1) / 2;
    var b := (h as int) / 2;
    assert ((h as int) + 8) / 2 == b + 4;
  }

  // It changes neither the extent nor the id of a packet.
  lemma SetDupKeepsId(p: seq<byte>)
    requires |p| > 0
    ensures ReadMessage(SetDup(p)) == ReadMessage(p)
    ensures TypeOf(SetDup(p)[0]) == TypeOf(p[0])
    ensures PacketId(SetDup(p)) == PacketId(p)
  {
    var q := SetDup(p);
    if !DupOf(p[0]) {
      DupBit(p[0]);
    }
    assert q[1..] == p[1..];
    if ReadMessage(p).Whole? {
      var a, e := 1 + ReadMessage(p).bytes, ReadMessage(p).len;
      assert q[a..e] == p[a..e];
    }
  }
}
