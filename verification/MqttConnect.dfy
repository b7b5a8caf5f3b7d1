// What CONNECT says.
module MqttConnect {
  import opened Options
  import opened Bytes
  import opened MqttWire

  function OptStr(o: Option<seq<byte>>): seq<byte> {
    if o.Some? then Str(o.value) else []
  }

  datatype Will = Will(qos: nat, retain: bool, topic: Option<seq<byte>>, payload: seq<byte>)

  datatype ConnectData = ConnectData(version: nat, clientId: Option<seq<byte>>, keepalive: nat, clean: bool,
                                     willFlag: bool, will: Will, username: Option<seq<byte>>,
                                     password: Option<seq<byte>>)

  const MQTT: seq<byte> := [77, 81, 84, 84]
  const MQISDP: seq<byte> := [77, 81, 73, 115, 100, 112]

  function ConnectFlags(c: ConnectData): byte
    requires c.will.qos < 4
  {
    (if c.clean then 2 else 0)
    + (if c.willFlag then 4 + 8 * c.will.qos + (if c.will.retain then 32 else 0) else 0)
    + (if c.password.Some? then 64 else 0) + (if c.username.Some? then 128 else 0)
  }

  function Preamble(c: ConnectData): (s: seq<byte>)
    requires c.will.qos < 4
    ensures |s| == if c.version == 4 then 10 else 12
  {
    (if c.version == 4 then Str(MQTT) + [4] else Str(MQISDP) + [3]) + [ConnectFlags(c)] + Short(c.keepalive)
  }

  function WillBytes(c: ConnectData): seq<byte> {
    if c.willFlag then OptStr(c.will.topic) + (Short(|c.will.payload|) + c.will.payload) else []
  }

  function ConnectBody(c: ConnectData): seq<byte>
    requires c.will.qos < 4
  {
    (Preamble(c) + OptStr(c.clientId)) + (WillBytes(c) + (OptStr(c.username) + OptStr(c.password)))
  }

  // mqtt_calculate_connect_len counts the will only if it has a topic and a payload.
  predicate WillCounted(c: ConnectData) {
    c.will.topic.Some? && |c.will.payload| > 0
  }

  function ConnectLen(c: ConnectData): nat {
    (if c.version == 4 then 10 else 12)
    + (if c.clientId.Some? then |c.clientId.value| + 2 else 0)
    + (if c.willFlag && WillCounted(c) then |c.will.topic.value| + 2 + |c.will.payload| + 2 else 0)
    + (if c.username.Some? then |c.username.value| + 2 else 0)
    + (if c.password.Some? then |c.password.value| + 2 else 0)
  }

  // What is written for c: the remaining length field holds the computed length.
  function ConnectBytes(c: ConnectData): seq<byte>
    requires c.will.qos < 4
  {
    [HeaderByte(CONNECT, false, 0, false)] + RemLen(ConnectLen(c)) + ConnectBody(c)
  }

  // The computed length falls short by the whole will when the will flag is set for a
  // will without topic or without payload.
  lemma ConnectLenShort(c: ConnectData)
    requires c.will.qos < 4
    ensures |ConnectBody(c)| == ConnectLen(c) + (if c.willFlag && !WillCounted(c) then |WillBytes(c)| else 0)
    ensures c.willFlag ==> |WillBytes(c)| >= 2
  {
  }

  // So CONNECT is a packet that readers take as a whole, no longer than announced,
  // exactly if the will flag comes with a topic and a payload; the announced length is
  // the length written if, besides, the remaining length is not 2097151.
  lemma ConnectExact(c: ConnectData)
    requires c.will.qos < 4 && ConnectLen(c) <= MAX_REMAINING_LENGTH
    ensures var fits := !c.willFlag || WillCounted(c);
            && (WellFormed(ConnectBytes(c)) <==> fits)
            && (|ConnectBytes(c)| <= PacketLen(ConnectLen(c)) <==> fits)
            && (|ConnectBytes(c)| == PacketLen(ConnectLen(c)) <==> fits && ConnectLen(c) != 2097151)
  {
    var n := ConnectLen(c);
    ConnectLenShort(c);
    ReadConnect(c);
    PacketLenExact(n);
    Pow128Values();
    RemLenSize(n, if n < 128 then 1 else if n < 16384 then 2 else if n < 2097152 then 3 else 4);
  }

  lemma ReadConnect(c: ConnectData)
    requires c.will.qos < 4 && ConnectLen(c) <= MAX_REMAINING_LENGTH
    ensures ReadMessage(ConnectBytes(c)) == Whole(1 + |RemLen(ConnectLen(c))| + ConnectLen(c), |RemLen(ConnectLen(c))|)
  {
    ConnectLenShort(c);
    assert ConnectBytes(c)[1..] == RemLen(ConnectLen(c)) + ConnectBody(c);
    ReadBack(ConnectLen(c), ConnectBody(c));
  }

  // What mqtt_client_connect queues: as many bytes of the packet as were announced for it.
  ghost predicate IsConnect(packet: seq<byte>) {
    exists c: ConnectData ::
      && c.will.qos < 4 && ConnectLen(c) <= MAX_REMAINING_LENGTH && |packet| == PacketLen(ConnectLen(c))
      && (packet <= ConnectBytes(c) || ConnectBytes(c) <= packet)
  }
}
