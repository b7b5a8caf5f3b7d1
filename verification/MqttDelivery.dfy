// What the arrival of a PUBLISH does: the message is handed to the application as it was
// sent, and answered as its QoS demands; and how PUBREL ends an inbound exchange.
module MqttDelivery {
  import opened Bytes
  import opened MqttWire
  import opened MqttFrames
  import opened MqttEngine
  import opened MqttAnswers

  // A message that the reader takes: a QoS 0 payload of less than two bytes is refused.
  predicate Readable(qos: nat, id: nat, topic: seq<byte>, payload: seq<byte>) {
    && qos <= 2 && id < 65536 && |topic| < 65536
    && |PublishBody(qos, id, topic, payload)| <= MAX_REMAINING_LENGTH
    && (qos > 0 || |payload| >= 2)
  }

  // A retransmission of QoS 2 whose exchange a tracker holds.
  ghost predicate Held(e: Engine, dup: bool, qos: nat, id: nat)
    requires Shaped(e)
  {
    dup && qos == 2 && exists j :: 0 <= j < SLOTS && Matches(e.slots[j], 6, id)
  }

  // The tracker of an inbound message of QoS 2: that of its exchange, or else the first free
  // one, or none.
  ghost predicate PlaceOf(e: Engine, dup: bool, id: nat, j: int)
    requires Shaped(e)
  {
    && -1 <= j < SLOTS
    && (Held(e, dup, 2, id) ==>
          j >= 0 && Matches(e.slots[j], 6, id) && forall k :: 0 <= k < j ==> !Matches(e.slots[k], 6, id))
    && (!Held(e, dup, 2, id) ==>
          && (j >= 0 ==> e.slots[j].state == MFree)
          && forall k :: 0 <= k < SLOTS && (j >= 0 ==> k < j) ==> e.slots[k].state != MFree)
  }

  // The packet arrives.
  function Hears(cfg: Config, e: Engine, dup: bool, qos: nat, retain: bool, id: nat, topic: seq<byte>,
                 payload: seq<byte>, ok: bool): (r: (Engine, int))
    requires Shaped(e) && qos <= 2 && id < 65536 && |topic| < 65536
    requires |PublishBody(qos, id, topic, payload)| <= MAX_REMAINING_LENGTH
    ensures Shaped(r.0)
  {
    PublishRoundTrip(dup, qos, retain, id, topic, payload);
    Dispatch(cfg, e, PublishPacket(dup, qos, retain, id, topic, payload), ok)
  }

  lemma HearsIsHandled(cfg: Config, e: Engine, dup: bool, qos: nat, retain: bool, id: nat, topic: seq<byte>,
                       payload: seq<byte>, ok: bool)
    requires Shaped(e) && Readable(qos, id, topic, payload)
    ensures Hears(cfg, e, dup, qos, retain, id, topic, payload, ok)
            == HandlePublish(cfg, e, Delivery(dup, qos, if qos > 0 then id else 0, topic, payload), ok)
  {
    hide HandlePublish, PublishPacket, ParsePublish, ReadMessage, HandleAck, HandleConnack;
    PublishRoundTrip(dup, qos, retain, id, topic, payload);
  }

  // Every message is reported as it was sent, in any state, unless it retransmits an exchange
  // that is held; and with room for it the answer of the protocol is queued: none, PUBACK or
  // PUBREC under the id of the message.
  lemma PublishIsReported(cfg: Config, e: Engine, dup: bool, qos: nat, retain: bool, id: nat, topic: seq<byte>,
                          payload: seq<byte>, ok: bool) returns (j: int)
    requires Shaped(e) && Readable(qos, id, topic, payload)
    ensures var (r, ret) := Hears(cfg, e, dup, qos, retain, id, topic, payload, ok);
            && ret == (if r.enqueued == e.enqueued || ok then 0 else -1)
            && r.delivered == e.delivered + (if Held(e, dup, qos, id) then []
                                             else [Delivery(dup, qos, if qos > 0 then id else 0, topic, payload)])
            && r.enqueued == e.enqueued + (if qos == 0 || cfg.sendSize - TotalLen(e.send) < 10 then []
                                           else if qos == 1 then [Frame(-1, 4, [0x40, 2, id / 256, id % 256])]
                                           else [Frame(j, 5, [0x50, 2, id / 256, id % 256])])
            && (qos == 2 ==> PlaceOf(e, dup, id, j)
                             && (j >= 0 ==> Waits(r, j, 6, id) && r.slots[j].expired == e.tick + cfg.timeout))
  {
    hide TotalLen, AckPacket, PublishBody, Hears;
    var d := Delivery(dup, qos, if qos > 0 then id else 0, topic, payload);
    HearsIsHandled(cfg, e, dup, qos, retain, id, topic, payload, ok);
    j := -1;
    if qos == 2 {
      j := TwiceAnswered(cfg, e, d, ok);
    } else if qos == 1 {
      OnceAnswered(cfg, e, d, ok);
    }
    assert e.delivered + [] == e.delivered && e.enqueued + [] == e.enqueued;
    Grows(e.enqueued);
  }

  lemma Grows(fs: seq<Frame>)
    ensures forall f: Frame :: fs + [f] != fs
  {
    forall f: Frame ensures fs + [f] != fs {
      assert |fs + [f]| != |fs|;
    }
  }

  lemma ShortAnswers(id: nat)
    requires id < 65536
    ensures AckPacket(PUBACK, id) == [0x40, 2, id / 256, id % 256]
    ensures AckPacket(PUBREC, id) == [0x50, 2, id / 256, id % 256]
    ensures AckPacket(PUBCOMP, id) == [0x70, 2, id / 256, id % 256]
  {
    assert RemLen(2) == [2];
  }

  lemma OnceAnswered(cfg: Config, e: Engine, d: Delivery, ok: bool)
    requires Shaped(e) && d.qos == 1 && d.id < 65536
    ensures var (r, ret) := HandlePublish(cfg, e, d, ok);
            && ret == (if r.enqueued == e.enqueued || ok then 0 else -1)
            && r.delivered == e.delivered + [d]
            && r.enqueued == e.enqueued + (if cfg.sendSize - TotalLen(e.send) < 10 then []
                                           else [Frame(-1, 4, [0x40, 2, d.id / 256, d.id % 256])])
  {
    hide TotalLen, AckPacket;
    ShortAnswers(d.id);
    assert e.enqueued + [] == e.enqueued;
    Grows(e.enqueued);
  }

  lemma TwiceAnswered(cfg: Config, e: Engine, d: Delivery, ok: bool) returns (j: int)
    requires Shaped(e) && d.qos == 2 && d.id < 65536
    ensures var (r, ret) := HandlePublish(cfg, e, d, ok);
            && ret == (if r.enqueued == e.enqueued || ok then 0 else -1)
            && r.delivered == e.delivered + (if Held(e, d.dup, 2, d.id) then [] else [d])
            && r.enqueued == e.enqueued + (if cfg.sendSize - TotalLen(e.send) < 10 then []
                                           else [Frame(j, 5, [0x50, 2, d.id / 256, d.id % 256])])
            && PlaceOf(e, d.dup, d.id, j)
            && (j >= 0 ==> Waits(r, j, 6, d.id) && r.slots[j].expired == e.tick + cfg.timeout)
  {
    hide TotalLen, AckPacket, CommonAck;
    var i := DuplicateOf(e, d);
    assert i == -1 <==> !Held(e, d.dup, 2, d.id);
    var e1 := if i == -1 then e.(delivered := e.delivered + [d]) else e;
    var (e2, k) := Track(cfg, e1, i, d.id);
    j := k;
    RecAnswered(cfg, e2, d.id, j, ok);
    assert e.delivered + [] == e.delivered;
  }

  lemma RecAnswered(cfg: Config, e: Engine, id: nat, j: int, ok: bool)
    requires Shaped(e) && id < 65536 && -1 <= j < SLOTS && (j >= 0 ==> Waits(e, j, 6, id))
    ensures var (r, ret) := CommonAck(cfg, e, PUBREC, PUBREL, id, j, ok);
            && ret == (if r.enqueued == e.enqueued || ok then 0 else -1)
            && r.delivered == e.delivered
            && r.enqueued == e.enqueued + (if cfg.sendSize - TotalLen(e.send) < 10 then []
                                           else [Frame(j, 5, [0x50, 2, id / 256, id % 256])])
            && (j >= 0 ==> Waits(r, j, 6, id) && r.slots[j].expired == e.slots[j].expired)
  {
    hide TotalLen, AckPacket;
    ShortAnswers(id);
    assert e.enqueued + [] == e.enqueued;
    Grows(e.enqueued);
  }

  // A QoS 0 message with less than two bytes of payload is an error and not reported.
  lemma ShortPayloadIsRefused(cfg: Config, e: Engine, dup: bool, retain: bool, id: nat, topic: seq<byte>,
                              payload: seq<byte>, ok: bool)
    requires Shaped(e) && id < 65536 && |topic| < 65536 && |payload| < 2
    ensures Hears(cfg, e, dup, 0, retain, id, topic, payload, ok) == (e, -1)
  {
    hide PublishPacket, ParsePublish, ReadMessage;
    PublishRoundTrip(dup, 0, retain, id, topic, payload);
  }

  // PUBREL for an exchange that is held ends it, and is answered with PUBCOMP where there is
  // room.
  lemma PubrelAnswered(cfg: Config, e: Engine, i: int, id: nat, more: seq<byte>, ok: bool)
    requires Waits(e, i, 6, id) && !InTheWay(e, i, 6, id) && ReplyOk(id, more)
    ensures var (r, ret) := Arrives(cfg, e, 0x62, id, more, ok);
            && ret == (if r.enqueued == e.enqueued || ok then 0 else -1)
            && r.delivered == e.delivered
            && r.enqueued == e.enqueued + (if cfg.sendSize - TotalLen(e.send) < 10 then []
                                           else [Frame(i, 7, [0x70, 2, id / 256, id % 256])])
            && (r.slots[i].state == MFree || r.slots[i].state == MFinish || r.slots[i].awaits == -1)
  {
    hide TotalLen, AckPacket, RemoveTag, Reply, Dispatch;
    DispatchReply(cfg, e, 0x62, id, more, ok);
    FoundFirst(e, i, 6, id);
    ShortAnswers(id);
    assert e.enqueued + [] == e.enqueued;
    Grows(e.enqueued);
    var e1 := SetSlot(e, i, Finished(e.slots[i]));
    CompAnswered(cfg, e1, id, i, ok);
  }

  lemma CompAnswered(cfg: Config, e: Engine, id: nat, i: int, ok: bool)
    requires Shaped(e) && id < 65536 && IsSlot(i) && (e.slots[i].state == MFree || e.slots[i].state == MFinish)
    ensures var (r, ret) := CommonAck(cfg, e, PUBCOMP, -1, id, i, ok);
            && ret == (if r.enqueued == e.enqueued || ok then 0 else -1)
            && r.delivered == e.delivered
            && r.enqueued == e.enqueued + (if cfg.sendSize - TotalLen(e.send) < 10 then []
                                           else [Frame(i, 7, [0x70, 2, id / 256, id % 256])])
            && (r.slots[i].state == MFree || r.slots[i].state == MFinish || r.slots[i].awaits == -1)
  {
    hide TotalLen, AckPacket;
    ShortAnswers(id);
    assert e.enqueued + [] == e.enqueued;
    Grows(e.enqueued);
  }
}
