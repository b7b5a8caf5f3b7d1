// What a step leaves alone: the trackers it is not about and the frames enqueued for them.
module MqttSlots {
  import opened Bytes
  import opened MqttWire
  import opened MqttFrames
  import opened MqttEngine

  function OfTag(fs: seq<Frame>, i: int): seq<Frame> {
    if fs == [] then [] else (if fs[0].tag == i then [fs[0]] else []) + OfTag(fs[1..], i)
  }

  lemma {:induction false} OfTagAppend(a: seq<Frame>, b: seq<Frame>, i: int)
    ensures OfTag(a + b, i) == OfTag(a, i) + OfTag(b, i)
  {
    if a == [] {
      assert a + b == b;
    } else {
      assert (a + b)[1..] == a[1..] + b;
      OfTagAppend(a[1..], b, i);
    }
  }

  lemma OfTagOne(fs: seq<Frame>, f: Frame, i: int)
    ensures OfTag(fs + [f], i) == if f.tag == i then OfTag(fs, i) + [f] else OfTag(fs, i)
  {
    OfTagAppend(fs, [f], i);
    assert [f][1..] == [];
  }

  // Only the state differs, and redelivery has not been asked for.
  predicate Moved(s: Slot, t: Slot) {
    t == s.(state := t.state) && (t.state == MRedeliver ==> s.state == MRedeliver)
  }

  // Between e and r nothing happened to the exchange of tracker i.
  ghost predicate Apart(e: Engine, r: Engine, i: int) {
    && Shaped(e) && Shaped(r) && IsSlot(i)
    && Moved(e.slots[i], r.slots[i]) && OfTag(r.enqueued, i) == OfTag(e.enqueued, i)
  }

  lemma ApartTransitive(e: Engine, f: Engine, r: Engine, i: int)
    requires Apart(e, f, i) && Apart(f, r, i)
    ensures Apart(e, r, i)
  {
  }

  // Sending never disturbs an exchange, not even the one whose frame leaves.
  lemma TrySendApart(e: Engine, ok: bool, i: int)
    requires Shaped(e) && IsSlot(i)
    ensures Apart(e, TrySend(e, ok).0, i)
  {
  }

  lemma RegisterApart(cfg: Config, e: Engine, j: int, s: Slot, packet: seq<byte>, i: int)
    requires Shaped(e) && IsSlot(i) && IsSlot(j) && 0 <= s.mtype && j != i
    ensures Apart(e, Register(cfg, e, j, s, packet), i)
  {
    OfTagOne(e.enqueued, Frame(j, s.mtype, packet), i);
  }

  lemma CommonAckApart(cfg: Config, e: Engine, ptype: nat, awaits: int, id: nat, j: int, ok: bool, i: int)
    requires Shaped(e) && IsSlot(i) && 0 < ptype < 16 && j != i
    ensures Apart(e, CommonAck(cfg, e, ptype, awaits, id, j, ok).0, i)
  {
    var packet := AckPacket(ptype, id);
    if HEADER_LEN + |packet| <= Room(cfg, e) {
      var f := Frame(if IsSlot(j) then j else -1, ptype, packet);
      OfTagOne(e.enqueued, f, i);
      var e1 := Enqueue(e, f);
      var e2 := if IsSlot(j) then SetSlot(e1, j, e1.slots[j].(state := MWaiting, awaits := awaits)) else e1;
      assert Apart(e, e2, i);
      TrySendApart(e2, ok, i);
      ApartTransitive(e, e2, TrySend(e2, ok).0, i);
    }
  }

  lemma SubmitApart(cfg: Config, e: Engine, req: Request, ok: bool, i: int)
    requires Shaped(e) && IsSlot(i) && RequestOk(req)
    requires e.phase == Connected ==> FreeFrom(e.slots, 0) != i
    ensures Apart(e, Submit(cfg, e, req, ok).0, i)
  {
    hide Register, TrySend, RequestPacket, RequestSlot, TotalLen, OfTag;
    if e.phase == Connected {
      var j := FreeFrom(e.slots, 0);
      var e1 := Pack(cfg, e, req).0;
      if j >= 0 {
        var e0, id := Drawn(e, req), IdFor(e, req);
        RegisterApart(cfg, e0, j, RequestSlot(req, id, e0.tick + cfg.timeout), RequestPacket(req, id), i);
      }
      assert Apart(e, e1, i);
      TrySendApart(e1, ok, i);
      ApartTransitive(e, e1, TrySend(e1, ok).0, i);
    }
  }

  lemma HandleAckApart(cfg: Config, e: Engine, ptype: nat, id: nat, ok: bool, i: int)
    requires Shaped(e) && IsSlot(i) && IsAckType(ptype) && MatchFrom(e.slots, ptype, id, 0) != i
    ensures Apart(e, HandleAck(cfg, e, ptype, id, ok).0, i)
  {
    var j := MatchFrom(e.slots, ptype, id, 0);
    if j >= 0 {
      var e0 := SetSlot(e, j, Finished(e.slots[j]));
      var e1 := AckByType(cfg, e, ptype, id, j, ok).0;
      if ptype == PUBREC {
        CommonAckApart(cfg, e, PUBREL, PUBCOMP, id, j, ok, i);
      } else if ptype == PUBREL {
        CommonAckApart(cfg, e0, PUBCOMP, -1, id, j, ok, i);
        ApartTransitive(e, e0, e1, i);
      }
      assert Apart(e, e1, i);
      assert Apart(e1, DropBackup(e1, j), i);
      ApartTransitive(e, e1, DropBackup(e1, j), i);
    }
  }

  // The tracker an inbound PUBLISH of QoS 2 is given, or -1.
  function InboundPlace(e: Engine, d: Delivery): (j: int)
    requires Shaped(e)
    ensures j == -1 || IsSlot(j)
  {
    if DuplicateOf(e, d) == -1 then FreeFrom(e.slots, 0) else DuplicateOf(e, d)
  }

  lemma HandlePublishApart(cfg: Config, e: Engine, d: Delivery, ok: bool, i: int)
    requires Shaped(e) && IsSlot(i) && d.qos <= 2
    requires d.qos == 2 ==> InboundPlace(e, d) != i
    ensures Apart(e, HandlePublish(cfg, e, d, ok).0, i)
  {
    var k := DuplicateOf(e, d);
    var e1 := if k == -1 then e.(delivered := e.delivered + [d]) else e;
    if d.qos == 2 {
      var (e2, j) := Track(cfg, e1, k, d.id);
      assert Apart(e, e2, i);
      CommonAckApart(cfg, e2, PUBREC, PUBREL, d.id, j, ok, i);
      ApartTransitive(e, e2, HandlePublish(cfg, e, d, ok).0, i);
    } else if d.qos == 1 {
      CommonAckApart(cfg, e1, PUBACK, -1, d.id, -1, ok, i);
      ApartTransitive(e, e1, HandlePublish(cfg, e, d, ok).0, i);
    }
  }

  lemma SendBackupApart(e: Engine, cfg: Config, j: int, ok: bool, i: int)
    requires Shaped(e) && IsSlot(i) && IsSlot(j) && j != i
    ensures Apart(e, SendBackup(e, cfg, j, ok).0, i)
  {
    var k := FindTag(e.backup, j);
    if k < |e.backup| && Room(cfg, e) >= FrameLen(e.backup[k]) {
      var e1 := SetDupInBackup(e, k);
      OfTagOne(e.enqueued, e1.backup[k], i);
      var e2 := Enqueue(e1, e1.backup[k]);
      var e3 := SetSlot(e2, j, e2.slots[j].(state := MWaiting));
      assert Apart(e, e3, i);
      TrySendApart(e3, ok, i);
      ApartTransitive(e, e3, TrySend(e3, ok).0, i);
    }
  }

  lemma DoRedeliverApart(cfg: Config, e: Engine, j: int, ok: bool, i: int)
    requires Shaped(e) && IsSlot(i) && IsSlot(j) && j != i
    ensures Apart(e, DoRedeliver(cfg, e, j, ok).0, i)
  {
    SendBackupApart(e, cfg, j, ok, i);
    CommonAckApart(cfg, e, PUBREL, PUBCOMP, e.slots[j].id, j, ok, i);
  }

  lemma RedeliverApart(cfg: Config, e: Engine, j: int, ok: bool, i: int, r: Engine)
    requires Shaped(e) && IsSlot(i) && IsSlot(j) && j != i && r == Redeliver(cfg, e, j, ok).0
    ensures Apart(e, r, i)
  {
    var s := e.slots[j];
    if s.state == MSent || s.state == MRedeliver {
      var e1 := SetSlot(e, j, s.(opt := s.opt + 1, state := MRedeliver));
      assert r == DoRedeliver(cfg, e1, j, ok).0;
      DoRedeliverApart(cfg, e1, j, ok, i);
      ApartTransitive(e, e1, r, i);
    }
  }

  lemma HandleTimeoutApart(cfg: Config, e: Engine, j: int, ok: bool, i: int, r: Engine)
    requires Shaped(e) && IsSlot(i) && IsSlot(j) && j != i && r == HandleTimeout(cfg, e, j, ok).0
    ensures Apart(e, r, i)
  {
    var s := e.slots[j];
    if CanRedeliver(cfg, s) {
      var e1 := SetSlot(e, j, s.(expired := e.tick + cfg.timeout));
      RedeliverApart(cfg, e1, j, ok, i, r);
      ApartTransitive(e, e1, r, i);
    } else {
      assert r == Release(e, j);
    }
  }

  lemma VisitSlotApart(cfg: Config, e: Engine, j: int, ok: bool, i: int)
    requires Shaped(e) && IsSlot(i) && IsSlot(j) && j != i
    ensures Apart(e, VisitSlot(cfg, e, j, ok).0, i)
  {
    hide HandleTimeout, DoRedeliver;
    HandleTimeoutApart(cfg, e, j, ok, i, HandleTimeout(cfg, e, j, ok).0);
    DoRedeliverApart(cfg, e, j, ok, i);
  }

  lemma DisconnectApart(cfg: Config, e: Engine, cb: bool, ok: bool, i: int)
    requires Shaped(e) && IsSlot(i) && i != 0
    ensures Apart(e, Disconnect(cfg, e, cb, ok).0, i)
  {
    if e.phase == Connected {
      var e1 := ClearBuffers(e);
      assert Apart(e, e1, i);
      var s := Slot(MWaiting, DISCONNECT, -1, 0, 0, e1.tick + cfg.timeout, cb);
      var e2 := Register(cfg, e1, 0, s, EmptyPacket(DISCONNECT));
      RegisterApart(cfg, e1, 0, s, EmptyPacket(DISCONNECT), i);
      ApartTransitive(e, e1, e2, i);
      TrySendApart(e2, ok, i);
      var r := Disconnect(cfg, e, cb, ok).0;
      assert Apart(e2, r, i) || Apart(e1, r, i);
      if Apart(e2, r, i) {
        ApartTransitive(e, e2, r, i);
      } else {
        ApartTransitive(e, e1, r, i);
      }
    }
  }

  // The step gives tracker i to another exchange, or ends the CONNECT in it.
  predicate Takes(e: Engine, s: Step, i: int)
    requires Shaped(e) && StepOk(s)
  {
    match s
    case DoRequest(_, _) => e.phase == Connected && FreeFrom(e.slots, 0) == i
    case InPublish(d, _) => d.qos == 2 && InboundPlace(e, d) == i
    case DoConnect(_, _, _) => i == 0
    case DoDisconnect(_, _) => i == 0
    case DoTcpUp(_) => i == 0
    case InConnack(_) => i == 0
    case _ => false
  }

  // The step is an acknowledgement for tracker i or the main loop's visit to it.
  predicate Concerns(e: Engine, s: Step, i: int)
    requires Shaped(e) && StepOk(s)
  {
    match s
    case InAck(t, id, _) => MatchFrom(e.slots, t, id, 0) == i
    case DoVisit(j, _) => j == i
    case _ => false
  }

  lemma NextApart(cfg: Config, e: Engine, s: Step, i: int)
    requires Shaped(e) && IsSlot(i) && StepOk(s) && !Takes(e, s, i) && !Concerns(e, s, i)
    ensures Apart(e, Next(cfg, e, s), i)
  {
    match s
    case DoRequest(req, ok) => SubmitApart(cfg, e, req, ok, i);
    case DoSend(ok) => TrySendApart(e, ok, i);
    case DoVisit(j, ok) => VisitSlotApart(cfg, e, j, ok, i);
    case DoPing(ok) =>
      var e1 := Enqueue(e, Frame(-1, PINGREQ, EmptyPacket(PINGREQ)));
      OfTagOne(e.enqueued, Frame(-1, PINGREQ, EmptyPacket(PINGREQ)), i);
      TrySendApart(e1, ok, i);
      ApartTransitive(e, e1, TrySend(e1, ok).0, i);
    case DoConnect(packet, cb, started) =>
      RegisterApart(cfg, e, 0, Slot(MWaiting, CONNECT, CONNACK, 0, 0, 0, cb), packet, i);
    case DoTcpUp(ok) =>
      TrySendApart(ConnectTimed(cfg, e), ok, i);
    case DoDisconnect(cb, ok) => DisconnectApart(cfg, e, cb, ok, i);
    case DoReset =>
    case InAck(t, id, ok) => HandleAckApart(cfg, e, t, id, ok, i);
    case InPublish(d, ok) => HandlePublishApart(cfg, e, d, ok, i);
    case InConnack(code) =>
    case SetTick(t) =>
    case SetPhase(p) =>
  }
}
