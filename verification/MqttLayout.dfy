// The packets of the client as sections 2 and 3 of MQTT 3.1.1 lay them out, byte by byte,
// and what a server reads in them.
module MqttLayout {
  import opened Options
  import opened Bytes
  import opened MqttWire
  import opened MqttConnect
  import opened MqttEngine

  // ---------- section 2: lengths and short packets ----------

  lemma RemLenStep(n: nat)
    requires n >= 128
    ensures RemLen(n) == [128 + n % 128] + RemLen(n / 128)
  {
  }

  lemma RemLenTwo(n: nat)
    requires 128 <= n < 16384
    ensures RemLen(n) == [128 + n % 128, n / 128]
  {
    RemLenStep(n);
    assert n / 128 < 128;
  }

  lemma RemLenThree(n: nat)
    requires 16384 <= n < 2097152
    ensures RemLen(n) == [128 + n % 128, 128 + n / 128 % 128, n / 16384]
  {
    RemLenStep(n);
    hide RemLen;
    assert 128 <= n / 128 < 16384;
    RemLenTwo(n / 128);
    assert n / 128 / 128 == n / 16384;
  }

  lemma RemLenFour(n: nat)
    requires 2097152 <= n <= 268435455
    ensures RemLen(n) == [128 + n % 128, 128 + n / 128 % 128, 128 + n / 16384 % 128, n / 2097152]
  {
    RemLenStep(n);
    hide RemLen;
    assert 16384 <= n / 128 < 2097152;
    RemLenThree(n / 128);
    assert n / 128 / 128 == n / 16384;
    assert n / 128 / 16384 == n / 2097152;
  }

  // Section 2.2.3: seven bits a byte, the least significant first.
  lemma RemLenBytes(n: nat)
    requires n <= 268435455
    ensures RemLen(n) ==
            if n < 128 then [n]
            else if n < 16384 then [128 + n % 128, n / 128]
            else if n < 2097152 then [128 + n % 128, 128 + n / 128 % 128, n / 16384]
            else [128 + n % 128, 128 + n / 128 % 128, 128 + n / 16384 % 128, n / 2097152]
  {
    if n < 128 {
    } else if n < 16384 {
      RemLenTwo(n);
    } else if n < 2097152 {
      RemLenThree(n);
    } else {
      RemLenFour(n);
    }
  }

  // The reader takes the same bytes, and longer forms of a length too; it waits for a byte
  // without the high bit, and gives up after four with it.
  lemma LengthIsRead(s: seq<byte>)
    ensures |s| >= 1 && s[0] < 128 ==> ReadRemLen(s) == Got(1, s[0])
    ensures |s| >= 2 && s[0] >= 128 && s[1] < 128 ==> ReadRemLen(s) == Got(2, s[0] - 128 + 128 * s[1] as int)
    ensures |s| >= 3 && s[0] >= 128 && s[1] >= 128 && s[2] < 128 ==>
              ReadRemLen(s) == Got(3, s[0] - 128 + 128 * (s[1] - 128) as int + 16384 * s[2] as int)
    ensures |s| >= 4 && s[0] >= 128 && s[1] >= 128 && s[2] >= 128 && s[3] < 128 ==>
              ReadRemLen(s) == Got(4, s[0] - 128 + 128 * (s[1] - 128) as int + 16384 * (s[2] - 128) as int
                                      + 2097152 * s[3] as int)
    ensures |s| >= 4 && s[0] >= 128 && s[1] >= 128 && s[2] >= 128 && s[3] >= 128 ==> ReadRemLen(s) == Illegal
    ensures |s| < 4 && (forall i :: 0 <= i < |s| ==> s[i] >= 128) ==> ReadRemLen(s) == TooShort
  {
    if |s| >= 1 && s[0] >= 128 {
      ReadOn(s, 0);
      if |s| >= 2 && s[1] >= 128 {
        ReadOn(s, 1);
        if |s| >= 3 && s[2] >= 128 {
          ReadOn(s, 2);
          if |s| >= 4 && s[3] >= 128 {
            ReadOn(s, 3);
          }
        }
      }
    }
  }

  lemma ReadOn(s: seq<byte>, k: nat)
    requires k < 4 && k < |s| && s[k] >= 128
    ensures var r := ReadRemLenFrom(s, k + 1);
            ReadRemLenFrom(s, k) == if r.Got? then Got(r.bytes, s[k] - 128 + 128 * r.value) else r
  {
  }

  // The four acknowledgements of a publication: type, length 2, id with the high byte first.
  lemma AckBytes(id: nat)
    requires id < 65536
    ensures AckPacket(PUBACK, id) == [0x40, 2, id / 256, id % 256]
    ensures AckPacket(PUBREC, id) == [0x50, 2, id / 256, id % 256]
    ensures AckPacket(PUBREL, id) == [0x62, 2, id / 256, id % 256]
    ensures AckPacket(PUBCOMP, id) == [0x70, 2, id / 256, id % 256]
  {
    assert RemLen(2) == [2];
  }

  lemma EmptyBytes()
    ensures EmptyPacket(PINGREQ) == [0xC0, 0] && EmptyPacket(DISCONNECT) == [0xE0, 0]
  {
    assert RemLen(0) == [0];
  }

  // Section 3.3: dup, QoS and retain in the first byte, then topic, id above QoS 0, payload.
  lemma PublishBytes(dup: bool, qos: nat, retain: bool, id: nat, topic: seq<byte>, payload: seq<byte>)
    requires qos <= 2 && id < 65536 && |topic| < 65536
    ensures var n := 2 + |topic| + (if qos > 0 then 2 else 0) + |payload|;
            PublishPacket(dup, qos, retain, id, topic, payload)
            == [0x30 + (if dup then 8 else 0) + 2 * qos + (if retain then 1 else 0)] + RemLen(n)
               + ([|topic| / 256, |topic| % 256] + topic
                  + (if qos > 0 then [id / 256, id % 256] else []) + payload)
  {
  }

  // ---------- what a server reads ----------

  // A string with its length in front, and what follows it.
  function TakeString(s: seq<byte>): Option<(seq<byte>, seq<byte>)> {
    if |s| < 2 then None
    else
      var n := s[0] as int * 256 + s[1];
      if |s| < 2 + n then None else Some((s[2..2 + n], s[2 + n..]))
  }

  lemma TakesString(t: seq<byte>, rest: seq<byte>)
    requires |t| < 65536
    ensures TakeString(Str(t) + rest) == Some((t, rest))
  {
    var s := Str(t) + rest;
    assert s == Short(|t|) + (t + rest) && s[0] as int * 256 + s[1] == |t|;
    assert s[2..] == t + rest;
    assert s[2..2 + |t|] == t && s[2 + |t|..] == rest;
  }

  // Section 3.8.3: topic filters, each with its requested QoS behind it.
  function ReadFilters(s: seq<byte>): Option<seq<(seq<byte>, byte)>>
    decreases |s|
  {
    if s == [] then Some([])
    else
      match TakeString(s)
      case None => None
      case Some((t, rest)) =>
        if rest == [] then None
        else
          match ReadFilters(rest[1..])
          case None => None
          case Some(more) => Some([(t, rest[0])] + more)
  }

  // Section 3.10.3: topic filters.
  function ReadNames(s: seq<byte>): Option<seq<seq<byte>>>
    decreases |s|
  {
    if s == [] then Some([])
    else
      match TakeString(s)
      case None => None
      case Some((t, rest)) =>
        match ReadNames(rest)
        case None => None
        case Some(more) => Some([t] + more)
  }

  lemma {:induction false} FiltersRead(topics: seq<(seq<byte>, byte)>)
    requires forall k :: 0 <= k < |topics| ==> |topics[k].0| < 65536
    ensures ReadFilters(TopicFilters(topics)) == Some(topics)
    decreases |topics|
  {
    hide TakeString, Str;
    if topics != [] {
      var more := TopicFilters(topics[1..]);
      FiltersRead(topics[1..]);
      FilterSplit(topics);
      TakesString(topics[0].0, [topics[0].1] + more);
      assert ([topics[0].1] + more)[1..] == more;
      assert [topics[0]] + topics[1..] == topics;
    }
  }

  lemma FilterSplit(topics: seq<(seq<byte>, byte)>)
    requires topics != []
    ensures TopicFilters(topics) == Str(topics[0].0) + ([topics[0].1] + TopicFilters(topics[1..]))
    ensures TopicFilters(topics) != []
  {
    var t := Str(topics[0].0);
    assert |t| >= 2;
    hide Str;
    ConcatAssoc(t, [topics[0].1], TopicFilters(topics[1..]));
  }

  lemma {:induction false} NamesRead(names: seq<seq<byte>>)
    requires forall k :: 0 <= k < |names| ==> |names[k]| < 65536
    ensures ReadNames(Names(names)) == Some(names)
    decreases |names|
  {
    hide TakeString;
    if names != [] {
      NamesRead(names[1..]);
      TakesString(names[0], Names(names[1..]));
      assert names == [names[0]] + names[1..];
    }
  }

  // A publication of the client is a first transmission of this very message.
  lemma PublicationBytes(qos: nat, retain: bool, topic: seq<byte>, payload: seq<byte>, cb: bool, id: nat)
    requires qos <= 2 && id < 65536 && |topic| < 65536
    ensures var n := 2 + |topic| + (if qos > 0 then 2 else 0) + |payload|;
            RequestPacket(PublishReq(qos, retain, topic, payload, cb), id)
            == [0x30 + 2 * qos + (if retain then 1 else 0)] + RemLen(n)
               + ([|topic| / 256, |topic| % 256] + topic
                  + (if qos > 0 then [id / 256, id % 256] else []) + payload)
  {
    PublishBytes(false, qos, retain, id, topic, payload);
  }

  // A request of the client in bytes: the first byte, the length, the id, and a body that
  // a server reads as the filters that were asked for.
  lemma SubscribeBytes(id: nat, filters: seq<(seq<byte>, byte)>)
    requires id < 65536 && forall k :: 0 <= k < |filters| ==> |filters[k].0| < 65536
    ensures var t := TopicFilters(filters);
            && ReadFilters(t) == Some(filters)
            && RequestPacket(SubscribeReq(filters), id) == [0x82] + RemLen(2 + |t|) + ([id / 256, id % 256] + t)
  {
    hide ReadFilters, TopicFilters, RemLen;
    FiltersRead(filters);
  }

  lemma UnsubscribeBytes(id: nat, names: seq<seq<byte>>, cb: bool)
    requires id < 65536 && forall k :: 0 <= k < |names| ==> |names[k]| < 65536
    ensures var t := Names(names);
            && ReadNames(t) == Some(names)
            && RequestPacket(UnsubscribeReq(names, cb), id) == [0xA2] + RemLen(2 + |t|) + ([id / 256, id % 256] + t)
  {
    hide ReadNames, Names, RemLen;
    NamesRead(names);
  }

  // ---------- section 3.1: CONNECT ----------

  datatype Testament = Testament(topic: seq<byte>, payload: seq<byte>, qos: nat, retain: bool)

  // What CONNECT says to a server.
  datatype Login = Login(protocol: seq<byte>, level: nat, clean: bool, keepalive: nat, clientId: seq<byte>,
                         will: Option<Testament>, username: Option<seq<byte>>, password: Option<seq<byte>>)

  // An optional string, if the bit of the flags says that it is there.
  function TakeIf(there: bool, s: seq<byte>): Option<(Option<seq<byte>>, seq<byte>)> {
    if !there then Some((None, s))
    else
      match TakeString(s)
      case None => None
      case Some((t, rest)) => Some((Some(t), rest))
  }

  // Sections 3.1.2 and 3.1.3: bits 7 to 1 of the flags are user name, password, will
  // retain, two of will QoS, will and clean session; the fields follow in this order.
  function ReadLogin(body: seq<byte>): Option<Login> {
    match TakeString(body)
    case None => None
    case Some((protocol, s)) =>
      if |s| < 4 then None
      else
        var flags := s[1];
        match TakeString(s[4..])
        case None => None
        case Some((clientId, s1)) =>
          match TakeIf(flags / 4 % 2 == 1, s1)
          case None => None
          case Some((topic, s2)) =>
            match TakeIf(flags / 4 % 2 == 1, s2)
            case None => None
            case Some((payload, s3)) =>
              match TakeIf(flags / 128 == 1, s3)
              case None => None
              case Some((username, s4)) =>
                match TakeIf(flags / 64 % 2 == 1, s4)
                case None => None
                case Some((password, s5)) =>
                  if s5 != [] then None
                  else
                    var will := if topic.None? || payload.None? then None
                                else Some(Testament(topic.value, payload.value, flags / 8 % 4, flags / 32 % 2 == 1));
                    Some(Login(protocol, s[0], flags / 2 % 2 == 1, s[2] as int * 256 + s[3], clientId, will,
                               username, password))
  }

  predicate Fits16(o: Option<seq<byte>>) {
    o.Some? ==> |o.value| < 65536
  }

  // The fields are short enough for their lengths, and those that must be there are.
  predicate Sendable(c: ConnectData) {
    && c.will.qos <= 2 && c.keepalive < 65536 && c.clientId.Some?
    && Fits16(c.clientId) && Fits16(c.username) && Fits16(c.password)
    && (c.willFlag ==> c.will.topic.Some? && Fits16(c.will.topic) && |c.will.payload| < 65536)
  }

  // What is meant.
  function LoginOf(c: ConnectData): Login
    requires Sendable(c)
  {
    Login(if c.version == 4 then [77, 81, 84, 84] else [77, 81, 73, 115, 100, 112], if c.version == 4 then 4 else 3,
          c.clean, c.keepalive, c.clientId.value,
          if c.willFlag then Some(Testament(c.will.topic.value, c.will.payload, c.will.qos, c.will.retain)) else None,
          c.username, c.password)
  }

  lemma FlagBits(c: ConnectData)
    requires c.will.qos <= 2
    ensures var f := ConnectFlags(c);
            && (f / 128 == 1 <==> c.username.Some?) && (f / 64 % 2 == 1 <==> c.password.Some?)
            && (f / 4 % 2 == 1 <==> c.willFlag) && (f / 2 % 2 == 1 <==> c.clean)
            && (c.willFlag ==> f / 8 % 4 == c.will.qos && (f / 32 % 2 == 1 <==> c.will.retain))
  {
    var retain := if c.willFlag && c.will.retain then 1 else 0;
    Bits(if c.username.Some? then 1 else 0, if c.password.Some? then 1 else 0, retain,
         if c.willFlag then c.will.qos else 0, if c.willFlag then 1 else 0, if c.clean then 1 else 0);
  }

  lemma Bits(a: nat, b: nat, r: nat, q: nat, w: nat, c: nat)
    requires a < 2 && b < 2 && r < 2 && q < 4 && w < 2 && c < 2
    ensures var f := 128 * a + 64 * b + 32 * r + 8 * q + 4 * w + 2 * c;
            && f / 128 == a && f / 64 % 2 == b && f / 32 % 2 == r && f / 8 % 4 == q && f / 4 % 2 == w && f / 2 % 2 == c
  {
    var f := 128 * a + 64 * b + 32 * r + 8 * q + 4 * w + 2 * c;
    assert f / 64 == 2 * a + b;
    assert f / 32 == 4 * a + 2 * b + r;
    assert f / 8 == 16 * a + 8 * b + 4 * r + q;
    assert f / 4 == 32 * a + 16 * b + 8 * r + 2 * q + w;
    assert f / 2 == 64 * a + 32 * b + 16 * r + 4 * q + 2 * w + c;
  }

  lemma TakesIf(o: Option<seq<byte>>, rest: seq<byte>)
    requires Fits16(o)
    ensures TakeIf(o.Some?, OptStr(o) + rest) == Some((o, rest))
  {
    if o.Some? {
      TakesString(o.value, rest);
    } else {
      assert OptStr(o) + rest == rest;
    }
  }

  lemma TakesWill(c: ConnectData, rest: seq<byte>)
    requires Sendable(c)
    ensures var t := TakeIf(c.willFlag, WillBytes(c) + rest);
            && t.Some? && (c.willFlag ==> t.value.0 == c.will.topic) && (!c.willFlag ==> t.value == (None, rest))
            && TakeIf(c.willFlag, t.value.1) == Some((if c.willFlag then Some(c.will.payload) else None, rest))
  {
    if c.willFlag {
      var p := Str(c.will.payload);
      assert WillBytes(c) + rest == OptStr(c.will.topic) + (p + rest);
      TakesIf(c.will.topic, p + rest);
      TakesString(c.will.payload, rest);
    } else {
      assert WillBytes(c) + rest == rest;
    }
  }

  lemma PreambleRead(c: ConnectData, rest: seq<byte>)
    requires Sendable(c)
    ensures var l := LoginOf(c);
            var t := TakeString(Preamble(c) + rest);
            && t.Some? && t.value.0 == l.protocol && |t.value.1| >= 4
            && t.value.1[0] == l.level && t.value.1[1] == ConnectFlags(c)
            && t.value.1[2] as int * 256 + t.value.1[3] == c.keepalive && t.value.1[4..] == rest
  {
    var l := LoginOf(c);
    var s := [l.level, ConnectFlags(c)] + Short(c.keepalive) + rest;
    assert Preamble(c) + rest == Str(l.protocol) + s;
    TakesString(l.protocol, s);
    assert s[4..] == rest;
  }

  // CONNECT says to a server what the connection was set up with.
  lemma ConnectSays(c: ConnectData)
    requires Sendable(c)
    ensures ConnectBytes(c) == [0x10] + RemLen(ConnectLen(c)) + ConnectBody(c)
    ensures ReadLogin(ConnectBody(c)) == Some(LoginOf(c))
  {
    hide Preamble, WillBytes, OptStr, TakeString, TakeIf, ConnectFlags;
    var u, p := OptStr(c.username), OptStr(c.password);
    var after := WillBytes(c) + (u + p);
    assert ConnectBody(c) == Preamble(c) + (OptStr(c.clientId) + after);
    PreambleRead(c, OptStr(c.clientId) + after);
    FlagBits(c);
    ClientIdRead(c, after);
    TakesWill(c, u + p);
    TakesIf(c.username, p);
    assert p + [] == p;
    TakesIf(c.password, []);
  }

  lemma ClientIdRead(c: ConnectData, rest: seq<byte>)
    requires Sendable(c)
    ensures TakeString(OptStr(c.clientId) + rest) == Some((c.clientId.value, rest))
  {
    TakesString(c.clientId.value, rest);
  }
}
