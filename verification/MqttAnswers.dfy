// Requests and the packets that answer them: a request that was accepted is over when the
// packet that MQTT 3.1.1 answers it with arrives under its id, and not before.
module MqttAnswers {
  import opened Bytes
  import opened MqttWire
  import opened MqttFrames
  import opened MqttEngine
  import opened MqttAgreement
  import opened MqttSlots

  // ---------- packets that answer ----------

  // A packet with an id and whatever follows it.
  function Reply(first: byte, id: nat, more: seq<byte>): seq<byte>
    requires id < 65536
  {
    [first] + RemLen(2 + |more|) + ([id / 256, id % 256] + more)
  }

  predicate ReplyOk(id: nat, more: seq<byte>) {
    id < 65536 && |more| <= MAX_REMAINING_LENGTH - 2
  }

  lemma DispatchReply(cfg: Config, e: Engine, first: byte, id: nat, more: seq<byte>, ok: bool)
    requires Shaped(e) && ReplyOk(id, more)
    ensures WellFormed(Reply(first, id, more))
    ensures IsAckType(first / 16) ==>
              Dispatch(cfg, e, Reply(first, id, more), ok) == HandleAck(cfg, e, first / 16, id, ok)
  {
    hide HandleAck, HandlePublish, HandleConnack, ReadMessage, RemLen;
    var body := [id / 256, id % 256] + more;
    assert Reply(first, id, more) == Packet(first, body);
    PacketWellFormed(first, body);
    assert ReadShort(body) == id;
  }

  // The packet arrives.
  function Arrives(cfg: Config, e: Engine, first: byte, id: nat, more: seq<byte>, ok: bool): (r: (Engine, int))
    requires Shaped(e) && ReplyOk(id, more)
    ensures Shaped(r.0)
  {
    DispatchReply(cfg, e, first, id, more, ok);
    Dispatch(cfg, e, Reply(first, id, more), ok)
  }

  // ---------- requests ----------

  // Table 2.1: the type of the packet.
  function KindOf(req: Request): nat {
    match req
    case PublishReq(_, _, _, _, _) => 3
    case SubscribeReq(_) => 8
    case UnsubscribeReq(_, _) => 10
  }

  // Sections 4.3.2, 4.3.3, 3.8.4 and 3.10.4: the first byte of the packet that answers.
  function AnswerTo(req: Request): byte
    requires NeedsId(req)
  {
    match req
    case PublishReq(qos, _, _, _, _) => if qos == 1 then 0x40 else 0x50
    case SubscribeReq(_) => 0x90
    case UnsubscribeReq(_, _) => 0xB0
  }

  // The application asked to be told when the request is over.
  predicate Reports(req: Request) {
    match req
    case PublishReq(_, _, _, _, cb) => cb
    case SubscribeReq(_) => false
    case UnsubscribeReq(_, cb) => cb
  }

  // Tracker i is in use and waits for an answer of type t under id.
  predicate Waits(e: Engine, i: int, t: int, id: nat) {
    && Shaped(e) && IsSlot(i) && e.slots[i].state != MFree && e.slots[i].state != MFinish
    && e.slots[i].awaits == t && e.slots[i].id == id
  }

  // The request in tracker i is over: the tracker is free or about to be, and no copy of
  // the packet is left.
  predicate Over(e: Engine, i: int) {
    && Shaped(e) && IsSlot(i) && (e.slots[i].state == MFree || e.slots[i].state == MFinish)
    && CountTag(e.backup, i) == 0
  }

  // A tracker before tracker i waits for the same answer.
  ghost predicate InTheWay(e: Engine, i: int, t: int, id: nat)
    requires Shaped(e) && IsSlot(i)
  {
    exists j :: 0 <= j < i && Matches(e.slots[j], t, id)
  }

  ghost predicate Reachable(cfg: Config, e: Engine) {
    CfgOk(cfg) && exists steps :: LegalRun(cfg, Start(), steps) && Run(cfg, Start(), steps) == e
  }

  lemma ReachableGood(cfg: Config, e: Engine)
    requires Reachable(cfg, e)
    ensures Good(cfg, e, false)
  {
    var steps :| LegalRun(cfg, Start(), steps) && Run(cfg, Start(), steps) == e;
    StartGood(cfg);
    RunGood(cfg, Start(), steps, false);
  }

  lemma SendWaits(e: Engine, ok: bool, i: int, t: int, id: nat)
    requires Waits(e, i, t, id) && t != -1
    ensures Waits(TrySend(e, ok).0, i, t, id)
  {
  }

  lemma SendKeepsCallback(e: Engine, ok: bool, i: int)
    requires Shaped(e) && IsSlot(i)
    ensures TrySend(e, ok).0.slots[i].cb == e.slots[i].cb
    ensures TrySend(e, ok).0.slots[i].awaits == e.slots[i].awaits
  {
  }

  // An accepted request goes into a free tracker, and its packet, under a fresh id, behind
  // all that was enqueued before; the tracker then waits for the answer.
  lemma RequestAccepted(cfg: Config, e: Engine, req: Request, ok: bool) returns (i: int, id: nat)
    requires Shaped(e) && e.nextId <= 65535 && RequestOk(req)
    requires Submit(cfg, e, req, ok).0.enqueued != e.enqueued
    ensures id <= 65535 && 0 <= i < 24 && e.slots[i].state == MFree && e.phase == Connected
    ensures var r := Submit(cfg, e, req, ok).0;
            && r.slots[i].cb == Reports(req) && (!NeedsId(req) ==> r.slots[i].awaits == -1)
            && r.enqueued == e.enqueued + [Frame(i, KindOf(req), RequestPacket(req, id))]
            && (NeedsId(req) ==>
                  r.nextId == id && id == (if e.nextId == 65535 then 1 else e.nextId + 1)
                  && Waits(r, i, AnswerTo(req) as int / 16, id))
            && |RequestPacket(req, id)| <= cfg.sendSize
  {
    hide TrySend, RequestPacket, TotalLen, FreeFrom;
    i, id := FreeFrom(e.slots, 0), IdFor(e, req);
    var e1 := Pack(cfg, e, req).0;
    SendEnqueues(e, ok);
    SendEnqueues(e1, ok);
    SendKeepsCallback(e1, ok, i);
    if NeedsId(req) {
      SendWaits(e1, ok, i, AnswerTo(req) as int / 16, id);
    }
  }

  // A request is accepted exactly if the client is connected, one of the 24 trackers is free,
  // and the packet and its header of six bytes fit behind what is queued. If not, nothing
  // is queued and no tracker changes.
  lemma AcceptedIff(cfg: Config, e: Engine, req: Request, ok: bool)
    requires Shaped(e) && RequestOk(req)
    ensures var (r, ret) := Submit(cfg, e, req, ok);
            var packet := RequestPacket(req, IdFor(e, req));
            var free := exists i :: 0 <= i < 24 && e.slots[i].state == MFree;
            var accepted := e.phase == Connected && free && 6 + |packet| <= cfg.sendSize - TotalLen(e.send);
            && (r.enqueued != e.enqueued <==> accepted)
            && ret == (if e.phase != Connected then -5 else if !accepted then -4 else if ok then 0 else -1)
            && (!accepted ==> r == e.(nextId := r.nextId))
  {
    hide RequestPacket, TotalLen, TrySend, FreeFrom;
    var i := FreeFrom(e.slots, 0);
    var e1 := Pack(cfg, e, req).0;
    SendEnqueues(e1, ok);
    if e.phase == Connected && i >= 0 && e1.enqueued != e.enqueued {
      SendAnswers(e1, ok);
      var f := e1.enqueued[|e.enqueued|];
      assert |e.enqueued + [f]| != |e.enqueued|;
    }
  }

  lemma SendEnqueues(e: Engine, ok: bool)
    requires Shaped(e)
    ensures TrySend(e, ok).0.enqueued == e.enqueued && TrySend(e, ok).0.nextId == e.nextId
  {
  }

  // ---------- answers ----------

  lemma GoodNoFrame(cfg: Config, e: Engine, i: int)
    requires Good(cfg, e, false) && IsSlot(i) && (!Live(e.slots[i]) || !Flagged(e.slots[i]))
    ensures CountTag(e.backup, i) == 0
  {
    NoFrame(cfg, e, i);
  }

  lemma GoodOver(cfg: Config, e: Engine, i: int)
    requires Good(cfg, e, false) && IsSlot(i) && (e.slots[i].state == MFree || e.slots[i].state == MFinish)
    ensures Over(e, i)
  {
    assert SlotInv(cfg, e.slots[i]);
    NoFrame(cfg, e, i);
  }

  // The tracker found for an answer is tracker i unless one before it waits for the same.
  lemma FoundFirst(e: Engine, i: int, t: int, id: nat)
    requires Waits(e, i, t, id)
    ensures MatchFrom(e.slots, t, id, 0) == i <==> !InTheWay(e, i, t, id)
    ensures 0 <= MatchFrom(e.slots, t, id, 0) <= i
  {
    assert Matches(e.slots[i], t, id);
  }

  // PUBACK, PUBCOMP, SUBACK and UNSUBACK end what waits for them.
  lemma AnswerEnds(cfg: Config, e: Engine, i: int, id: nat, first: byte, more: seq<byte>, ok: bool)
    requires Good(cfg, e, false) && ReplyOk(id, more) && first in {0x40, 0x70, 0x90, 0xB0}
    requires Waits(e, i, first as int / 16, id)
    ensures var (r, ret) := Arrives(cfg, e, first, id, more, ok);
            && ret == 0 && r.enqueued == e.enqueued
            && (Over(r, i) <==> !InTheWay(e, i, first as int / 16, id))
            && (Over(r, i) ==> r.slots[i].state == if e.slots[i].cb then MFinish else MFree)
            && (InTheWay(e, i, first as int / 16, id) ==> r.slots[i] == e.slots[i])
  {
    hide Good, Reply;
    var t := first as int / 16;
    DispatchReply(cfg, e, first, id, more, ok);
    FoundFirst(e, i, t, id);
    HandleAckGood(cfg, e, t, id, ok, false);
    var r := HandleAck(cfg, e, t, id, ok).0;
    if MatchFrom(e.slots, t, id, 0) == i {
      GoodOver(cfg, r, i);
    }
  }

  // PUBREC moves a publication of QoS 2 on to PUBREL: the stored packet is dropped unless
  // the socket fails, and the tracker waits for PUBCOMP.
  lemma PubrecGoesOn(cfg: Config, e: Engine, i: int, id: nat, more: seq<byte>, ok: bool)
    requires Good(cfg, e, false) && ReplyOk(id, more) && Waits(e, i, 5, id)
    requires cfg.sendSize - TotalLen(e.send) >= 10 && !InTheWay(e, i, 5, id)
    ensures var (r, ret) := Arrives(cfg, e, 0x50, id, more, ok);
            && ret == (if ok then 0 else -1)
            && r.enqueued == e.enqueued + [Frame(i, 6, [0x62, 2, id / 256, id % 256])]
            && Waits(r, i, 7, id) && (ok ==> CountTag(r.backup, i) == 0) && r.slots[i].cb == e.slots[i].cb
  {
    hide TrySend, AckPacket, TotalLen, RemoveTag, CountTag, Good;
    DispatchReply(cfg, e, 0x50, id, more, ok);
    FoundFirst(e, i, 5, id);
    PubRelBytes(id);
    var e2 := Enqueue(e, Frame(i, PUBREL, AckPacket(PUBREL, id)));
    var e3 := SetSlot(e2, i, e2.slots[i].(state := MWaiting, awaits := PUBCOMP));
    SendEnqueues(e3, ok);
    SendWaits(e3, ok, i, 7, id);
    SendKeepsCallback(e3, ok, i);
    SendAnswers(e3, ok);
    HandleAckGood(cfg, e, PUBREC, id, ok, false);
    var r := HandleAck(cfg, e, PUBREC, id, ok).0;
    if ok {
      assert !Flagged(r.slots[i]);
      GoodNoFrame(cfg, r, i);
    }
  }

  lemma PubRelBytes(id: nat)
    requires id < 65536
    ensures AckPacket(PUBREL, id) == [0x62, 2, id / 256, id % 256]
  {
    assert RemLen(2) == [2];
  }

  lemma SendAnswers(e: Engine, ok: bool)
    requires Shaped(e) && e.send != []
    ensures TrySend(e, ok).1 == if ok then 0 else -1
  {
  }

  // Tracker i is as before, except that the first frame of the queue, if it is its own,
  // may have left.
  predicate OnlySent(e: Engine, r: Engine, i: int)
    requires Shaped(e) && Shaped(r) && IsSlot(i)
  {
    r.slots[i] == e.slots[i]
    || (r.slots[i] == e.slots[i].(state := MSent) && e.send != [] && e.send[0].tag == i)
  }

  // An acknowledgement of any other type leaves the request as it was, except that its own
  // frame may be the one that leaves when the acknowledgement is answered.
  lemma OtherAnswerLeaves(cfg: Config, e: Engine, i: int, t: int, id: nat, first: byte, more: seq<byte>, ok: bool)
    requires Good(cfg, e, false) && ReplyOk(id, more) && Waits(e, i, t, id) && t != -1
    requires first as int / 16 in {4, 5, 6, 7, 9, 11} && first as int / 16 != t
    ensures var r := Arrives(cfg, e, first, id, more, ok).0;
            Waits(r, i, t, id) && OnlySent(e, r, i)
  {
    hide Reply, Good;
    DispatchReply(cfg, e, first, id, more, ok);
    OtherAckLeaves(cfg, e, i, t, id, first as int / 16, ok);
  }

  lemma OtherAckLeaves(cfg: Config, e: Engine, i: int, t: int, id: nat, ptype: nat, ok: bool)
    requires Waits(e, i, t, id) && t != -1 && IsAckType(ptype) && ptype != t
    ensures var r := HandleAck(cfg, e, ptype, id, ok).0; Waits(r, i, t, id) && OnlySent(e, r, i)
  {
    hide AckByType, RemoveTag;
    var j := MatchFrom(e.slots, ptype, id, 0);
    if j >= 0 {
      assert j != i;
      ByTypeLeaves(cfg, e, i, id, j, ptype, ok);
    }
  }

  lemma ByTypeLeaves(cfg: Config, e: Engine, i: int, id: nat, j: int, ptype: nat, ok: bool)
    requires Shaped(e) && IsSlot(i) && IsSlot(j) && i != j && e.slots[i].awaits != -1
    ensures OnlySent(e, AckByType(cfg, e, ptype, id, j, ok).0, i)
  {
    hide CommonAck;
    if ptype == PUBREC {
      AckLeaves(cfg, e, i, PUBREL, PUBCOMP, id, j, ok);
    } else if ptype == PUBREL {
      AckLeaves(cfg, SetSlot(e, j, Finished(e.slots[j])), i, PUBCOMP, -1, id, j, ok);
    }
  }

  lemma AckLeaves(cfg: Config, e: Engine, i: int, ptype: nat, awaits: int, id: nat, j: int, ok: bool)
    requires Shaped(e) && IsSlot(i) && IsSlot(j) && i != j && 0 < ptype < 16 && e.slots[i].awaits != -1
    ensures var r := CommonAck(cfg, e, ptype, awaits, id, j, ok).0;
            OnlySent(e, r, i)
  {
    hide AckPacket, TotalLen;
  }

  // An acknowledgement that no tracker waits for changes nothing, and is an error.
  lemma UnknownAnswer(cfg: Config, e: Engine, first: byte, id: nat, more: seq<byte>, ok: bool)
    requires Shaped(e) && ReplyOk(id, more) && first as int / 16 in {4, 5, 6, 7, 9, 11}
    requires forall i :: 0 <= i < 24 ==> !Matches(e.slots[i], first as int / 16, id)
    ensures Arrives(cfg, e, first, id, more, ok) == (e, -3)
  {
    hide Reply, AckByType;
    DispatchReply(cfg, e, first, id, more, ok);
  }

  // PINGRESP changes nothing here; packets that a server does not send, a PUBLISH of QoS 3,
  // and CONNACK and acknowledgements that are too short are errors and change nothing.
  lemma OtherPackets(cfg: Config, e: Engine, p: seq<byte>, ok: bool)
    requires Shaped(e) && WellFormed(p)
    ensures var t := p[0] as int / 16;
            && (t == 13 ==> Dispatch(cfg, e, p, ok) == (e, 0))
            && (t in {0, 1, 8, 10, 12, 14, 15} || (t in {2, 4, 5, 6, 7, 9, 11} && |p| < 4) ==>
                  Dispatch(cfg, e, p, ok) == (e, -1))
            && (t == 3 && p[0] as int / 2 % 4 == 3 ==> Dispatch(cfg, e, p, ok) == (e, -3))
  {
    hide HandleAck, HandlePublish, HandleConnack, ReadMessage, ParsePublish;
  }

  // ---------- over whole runs ----------

  // No step of the run is about tracker i.
  ghost predicate Elsewhere(cfg: Config, e: Engine, steps: seq<Step>, i: int)
    requires Shaped(e) && LegalRun(cfg, e, steps)
    decreases |steps|
  {
    steps == []
    || (!Takes(e, steps[0], i) && !Concerns(e, steps[0], i)
        && Elsewhere(cfg, Next(cfg, e, steps[0]), steps[1..], i))
  }

  lemma {:induction false} RunApart(cfg: Config, e: Engine, steps: seq<Step>, i: int)
    requires Shaped(e) && IsSlot(i) && LegalRun(cfg, e, steps) && Elsewhere(cfg, e, steps, i)
    ensures Apart(e, Run(cfg, e, steps), i)
    decreases |steps|
  {
    if steps != [] {
      var m := Next(cfg, e, steps[0]);
      NextApart(cfg, e, steps[0], i);
      RunApart(cfg, m, steps[1..], i);
      ApartTransitive(e, m, Run(cfg, e, steps), i);
    }
  }

  // In a reachable state e the request is accepted, and goes out for tracker i under id.
  ghost predicate Asked(cfg: Config, e: Engine, req: Request, ok: bool, i: int, id: nat) {
    && Reachable(cfg, e) && Shaped(e) && RequestOk(req) && id < 65536
    && Submit(cfg, e, req, ok).0.enqueued == e.enqueued + [Frame(i, KindOf(req), RequestPacket(req, id))]
  }

  lemma AskedWaits(cfg: Config, e: Engine, req: Request, ok: bool, i: int, id: nat)
    requires Asked(cfg, e, req, ok, i, id) && NeedsId(req)
    ensures Good(cfg, Submit(cfg, e, req, ok).0, false)
    ensures Waits(Submit(cfg, e, req, ok).0, i, AnswerTo(req) as int / 16, id)
    ensures Submit(cfg, e, req, ok).0.slots[i].cb == Reports(req)
  {
    ReachableGood(cfg, e);
    SubmitGood(cfg, e, req, ok, false);
    var j, d := RequestAccepted(cfg, e, req, ok);
    var all := Submit(cfg, e, req, ok).0.enqueued;
    hide Submit, Good;
    assert all[|e.enqueued|] == Frame(i, KindOf(req), RequestPacket(req, id));
    RequestPacketId(req, id);
    RequestPacketId(req, d);
  }

  // A run from e that is not about tracker i leads to r, where the tracker is still in use.
  ghost predicate Meanwhile(cfg: Config, e: Engine, steps: seq<Step>, i: int, r: Engine) {
    && Shaped(e) && IsSlot(i) && LegalRun(cfg, e, steps) && Elsewhere(cfg, e, steps, i) && r == Run(cfg, e, steps)
    && r.slots[i].state != MFree && r.slots[i].state != MFinish
  }

  // It is then still waiting.
  lemma StillWaits(cfg: Config, e: Engine, steps: seq<Step>, i: int, t: int, id: nat, r: Engine)
    requires Good(cfg, e, false) && Waits(e, i, t, id) && Meanwhile(cfg, e, steps, i, r)
    ensures Good(cfg, r, false) && Waits(r, i, t, id) && r.slots[i].cb == e.slots[i].cb
  {
    RunGood(cfg, e, steps, false);
    RunApart(cfg, e, steps, i);
  }

  // A request is accepted in a reachable state e, and later, in e1, its tracker is in use.
  ghost predicate Open(cfg: Config, e: Engine, req: Request, ok: bool, i: int, id: nat, after: seq<Step>, e1: Engine) {
    Asked(cfg, e, req, ok, i, id) && NeedsId(req) && Meanwhile(cfg, Submit(cfg, e, req, ok).0, after, i, e1)
  }

  lemma OpenWaits(cfg: Config, e: Engine, req: Request, ok: bool, i: int, id: nat, after: seq<Step>, e1: Engine)
    requires Open(cfg, e, req, ok, i, id, after, e1)
    ensures Good(cfg, e1, false) && Waits(e1, i, AnswerTo(req) as int / 16, id) && e1.slots[i].cb == Reports(req)
  {
    hide Submit, Meanwhile, Good, Waits;
    AskedWaits(cfg, e, req, ok, i, id);
    StillWaits(cfg, Submit(cfg, e, req, ok).0, after, i, AnswerTo(req) as int / 16, id, e1);
  }

  // Whatever happens elsewhere after a request was accepted: if its tracker is still in
  // use, the answer of the protocol under its id ends it, exactly when no tracker before
  // it waits for the same answer. This is so for QoS 1, SUBSCRIBE and UNSUBSCRIBE.
  lemma RequestIsAnswered(cfg: Config, e: Engine, req: Request, ok: bool, i: int, id: nat, after: seq<Step>, e1: Engine,
                          more: seq<byte>, ok1: bool)
    requires Open(cfg, e, req, ok, i, id, after, e1) && AnswerTo(req) != 0x50 && ReplyOk(id, more)
    ensures Shaped(e1) && IsSlot(i)
    ensures var (r, ret) := Arrives(cfg, e1, AnswerTo(req), id, more, ok1);
            && ret == 0 && r.enqueued == e1.enqueued
            && (Over(r, i) <==> !InTheWay(e1, i, AnswerTo(req) as int / 16, id))
            && (Over(r, i) ==> r.slots[i].state == if Reports(req) then MFinish else MFree)
  {
    assert NeedsId(req);
    hide Open, Arrives, Good, Over;
    OpenWaits(cfg, e, req, ok, i, id, after, e1);
    AnswerEnds(cfg, e1, i, id, AnswerTo(req), more, ok1);
  }

  // An acknowledgement of another type under the same id does not end it.
  lemma OtherAnswersDoNotEnd(cfg: Config, e: Engine, req: Request, ok: bool, i: int, id: nat, after: seq<Step>,
                             e1: Engine, first: byte, more: seq<byte>, ok1: bool)
    requires Open(cfg, e, req, ok, i, id, after, e1) && ReplyOk(id, more)
    requires first as int / 16 in {4, 5, 6, 7, 9, 11} && first as int / 16 != AnswerTo(req) as int / 16
    ensures Shaped(e1) && IsSlot(i)
    ensures var r := Arrives(cfg, e1, first, id, more, ok1).0;
            !Over(r, i) && OnlySent(e1, r, i)
  {
    assert NeedsId(req);
    hide Open, Arrives, Good;
    OpenWaits(cfg, e, req, ok, i, id, after, e1);
    OtherAnswerLeaves(cfg, e1, i, AnswerTo(req) as int / 16, id, first, more, ok1);
  }

  // A publication of QoS 2 takes two answers: PUBREC, which queues PUBREL for the same id
  // where there is room, and PUBCOMP.
  lemma Qos2IsAnswered(cfg: Config, e: Engine, req: Request, ok: bool, i: int, id: nat, after: seq<Step>, e1: Engine,
                       more: seq<byte>, ok1: bool, after2: seq<Step>, e3: Engine, more3: seq<byte>, ok3: bool)
    requires Open(cfg, e, req, ok, i, id, after, e1) && AnswerTo(req) == 0x50
    requires ReplyOk(id, more) && ReplyOk(id, more3)
    requires cfg.sendSize - TotalLen(e1.send) >= 10 && !InTheWay(e1, i, 5, id)
    requires Meanwhile(cfg, Arrives(cfg, e1, 0x50, id, more, ok1).0, after2, i, e3)
    ensures var e2 := Arrives(cfg, e1, 0x50, id, more, ok1).0;
            && e2.enqueued == e1.enqueued + [Frame(i, 6, [0x62, 2, id / 256, id % 256])]
            && (ok1 ==> CountTag(e2.backup, i) == 0)
    ensures var (r, ret) := Arrives(cfg, e3, 0x70, id, more3, ok3);
            && ret == 0 && (Over(r, i) <==> !InTheWay(e3, i, 7, id))
            && (Over(r, i) ==> r.slots[i].state == if Reports(req) then MFinish else MFree)
  {
    assert NeedsId(req);
    hide Open, Meanwhile, Arrives, Good, Over, InTheWay, TotalLen;
    OpenWaits(cfg, e, req, ok, i, id, after, e1);
    PubrecGoesOn(cfg, e1, i, id, more, ok1);
    ArrivesGood(cfg, e1, 0x50, id, more, ok1);
    StillWaits(cfg, Arrives(cfg, e1, 0x50, id, more, ok1).0, after2, i, 7, id, e3);
    AnswerEnds(cfg, e3, i, id, 0x70, more3, ok3);
  }

  lemma ArrivesGood(cfg: Config, e: Engine, first: byte, id: nat, more: seq<byte>, ok: bool)
    requires Good(cfg, e, false) && ReplyOk(id, more) && IsAckType(first / 16)
    ensures Good(cfg, Arrives(cfg, e, first, id, more, ok).0, false)
  {
    DispatchReply(cfg, e, first, id, more, ok);
    hide Good;
    HandleAckGood(cfg, e, first / 16, id, ok, false);
  }

  // A publication of QoS 0 is over when its packet leaves.
  lemma Qos0IsOver(cfg: Config, e: Engine, req: Request, ok: bool, i: int, id: nat, after: seq<Step>, ok2: bool)
    requires Asked(cfg, e, req, ok, i, id) && !NeedsId(req)
    requires var e1 := Submit(cfg, e, req, ok).0;
             LegalRun(cfg, e1, after) && IsSlot(i) && Elsewhere(cfg, e1, after, i)
    requires var e2 := Run(cfg, Submit(cfg, e, req, ok).0, after); e2.send != [] && e2.send[0].tag == i
    ensures var e2 := Run(cfg, Submit(cfg, e, req, ok).0, after);
            Over(TrySend(e2, ok2).0, i)
  {
    ReachableGood(cfg, e);
    SubmitGood(cfg, e, req, ok, false);
    var e1 := Submit(cfg, e, req, ok).0;
    PlainAwaitsNothing(cfg, e, req, ok, i, id);
    RunGood(cfg, e1, after, false);
    RunApart(cfg, e1, after, i);
    var e2 := Run(cfg, e1, after);
    TrySendGood(cfg, e2, ok2, false);
    hide Submit, Good, Run;
    GoodOver(cfg, TrySend(e2, ok2).0, i);
  }

  lemma PlainAwaitsNothing(cfg: Config, e: Engine, req: Request, ok: bool, i: int, id: nat)
    requires Asked(cfg, e, req, ok, i, id) && !NeedsId(req) && Good(cfg, e, false)
    ensures Shaped(e) && IsSlot(i) && Submit(cfg, e, req, ok).0.slots[i].awaits == -1
  {
    hide RequestPacket, Submit;
    var j, d := RequestAccepted(cfg, e, req, ok);
    var all := Submit(cfg, e, req, ok).0.enqueued;
    assert all[|e.enqueued|] == Frame(i, KindOf(req), RequestPacket(req, id));
  }

  // ---------- ids ----------

  // The id of the k-th request after id was drawn.
  function Drawing(id: nat, k: nat): nat {
    if k == 0 then id else NextId(Drawing(id, k - 1))
  }

  // The ids of the requests run through 1 to 65535 in turn and repeat only then.
  lemma IdsRepeat(id: nat, j: nat, k: nat)
    requires id <= 65535 && 1 <= j <= k
    ensures 1 <= Drawing(id, j) <= 65535
    ensures Drawing(id, j) == Drawing(id, k) <==> (k - j) % 65535 == 0
  {
    DrawnInTurn(id, j);
    DrawnInTurn(id, k);
    SameRest(id + j - 1, k - j);
  }

  lemma {:induction false} SameRest(a: nat, d: nat)
    ensures (a + d) % 65535 == a % 65535 <==> d % 65535 == 0
  {
    if d >= 65535 {
      SameRest(a, d - 65535);
      assert (a + d - 65535) % 65535 == (a + d) % 65535;
      assert (d - 65535) % 65535 == d % 65535;
    } else {
      var q, r := a / 65535, a % 65535 + d;
      if r < 65535 {
        RestIs(a + d, q, r);
      } else {
        RestIs(a + d, q + 1, r - 65535);
      }
    }
  }

  lemma RestIs(x: nat, q: nat, r: nat)
    requires x == 65535 * q + r && r < 65535
    ensures x % 65535 == r
  {
  }

  lemma {:induction false} DrawnInTurn(id: nat, k: nat)
    requires id <= 65535 && 1 <= k
    ensures Drawing(id, k) == (id + k - 1) % 65535 + 1
  {
    if k > 1 {
      DrawnInTurn(id, k - 1);
    }
  }
}
