// Inbound QoS 2: a message is reported once, however often it is retransmitted.
module MqttInbound {
  import opened Bytes
  import opened MqttWire
  import opened MqttFrames
  import opened MqttEngine
  import opened MqttSlots

  // The tracker holds an inbound exchange that waits for its PUBREL.
  predicate Holding(s: Slot, id: nat) {
    s.state != MFree && s.state != MFinish && s.awaits == PUBREL && s.id == id
  }

  // A retransmission under packet id.
  predicate Retransmits(d: Delivery, id: nat) {
    d.dup && d.qos == 2 && d.id == id
  }

  function Reports(ds: seq<Delivery>, id: nat): nat {
    if ds == [] then 0 else (if Retransmits(ds[0], id) then 1 else 0) + Reports(ds[1..], id)
  }

  lemma {:induction false} ReportsAppend(ds: seq<Delivery>, d: Delivery, id: nat)
    ensures Reports(ds + [d], id) == Reports(ds, id) + (if Retransmits(d, id) then 1 else 0)
  {
    if ds == [] {
      assert ds + [d] == [d] && [d][1..] == [];
    } else {
      assert (ds + [d])[1..] == ds[1..] + [d];
      ReportsAppend(ds[1..], d, id);
    }
  }

  // The step ends the exchange of tracker i: its PUBREL, its expiry, or the end of the
  // connection.
  predicate Ends(e: Engine, s: Step, i: int)
    requires Shaped(e) && StepOk(s)
  {
    match s
    case InAck(t, id, _) => MatchFrom(e.slots, t, id, 0) == i
    case DoVisit(j, _) => j == i && e.tick > e.slots[i].expired
    case DoReset => true
    case DoDisconnect(_, _) => e.phase == Connected
    case DoConnect(_, _, _) => i == 0
    case InConnack(_) => i == 0
    case _ => false
  }

  // ---------- replies ----------

  // Between e and r the exchange of tracker i goes on.
  lemma SendHolds(e: Engine, ok: bool, i: int, id: nat)
    requires Shaped(e) && IsSlot(i) && Holding(e.slots[i], id)
    ensures Holding(TrySend(e, ok).0.slots[i], id)
    ensures TrySend(e, ok).0.delivered == e.delivered && TrySend(e, ok).0.enqueued == e.enqueued
  {
  }

  lemma CommonAckHolds(cfg: Config, e: Engine, ptype: nat, awaits: int, mid: nat, j: int, ok: bool, i: int, id: nat)
    requires Shaped(e) && IsSlot(i) && Holding(e.slots[i], id) && 0 < ptype < 16
    requires j == i ==> awaits == PUBREL
    ensures var r := CommonAck(cfg, e, ptype, awaits, mid, j, ok).0;
            && Holding(r.slots[i], id) && r.delivered == e.delivered
            && r.enqueued == if HEADER_LEN + |AckPacket(ptype, mid)| > Room(cfg, e) then e.enqueued
                             else e.enqueued + [Frame(if IsSlot(j) then j else -1, ptype, AckPacket(ptype, mid))]
  {
    var f := Frame(if IsSlot(j) then j else -1, ptype, AckPacket(ptype, mid));
    if HEADER_LEN + |f.packet| <= Room(cfg, e) {
      var e1 := Enqueue(e, f);
      var e2 := if IsSlot(j) then SetSlot(e1, j, e1.slots[j].(state := MWaiting, awaits := awaits)) else e1;
      SendHolds(e2, ok, i, id);
    }
  }

  // A retransmission for a held exchange is not reported again, and is answered with
  // PUBREC when the send buffer has room.
  lemma RetransmissionAnswered(cfg: Config, e: Engine, d: Delivery, ok: bool, i: int)
    requires Shaped(e) && IsSlot(i) && Holding(e.slots[i], d.id) && Retransmits(d, d.id)
    ensures var r := HandlePublish(cfg, e, d, ok).0;
            var j := MatchFrom(e.slots, PUBREL, d.id, 0);
            && IsSlot(j) && Holding(r.slots[i], d.id) && r.delivered == e.delivered
            && r.enqueued == if HEADER_LEN + |AckPacket(PUBREC, d.id)| > Room(cfg, e) then e.enqueued
                             else e.enqueued + [Frame(j, PUBREC, AckPacket(PUBREC, d.id))]
  {
    var j := MatchFrom(e.slots, PUBREL, d.id, 0);
    assert Matches(e.slots[i], PUBREL, d.id);
    assert j >= 0;
    var e2 := Track(cfg, e, j, d.id).0;
    CommonAckHolds(cfg, e2, PUBREC, PUBREL, d.id, j, ok, i, d.id);
  }

  // Any other PUBLISH leaves the exchange alone.
  lemma OtherPublishHolds(cfg: Config, e: Engine, d: Delivery, ok: bool, i: int, id: nat)
    requires Shaped(e) && IsSlot(i) && Holding(e.slots[i], id) && d.qos <= 2 && !Retransmits(d, id)
    ensures var r := HandlePublish(cfg, e, d, ok).0;
            Holding(r.slots[i], id) && (r.delivered == e.delivered || r.delivered == e.delivered + [d])
  {
    var k := DuplicateOf(e, d);
    var e1 := if k == -1 then e.(delivered := e.delivered + [d]) else e;
    if d.qos == 2 {
      var (e2, j) := Track(cfg, e1, k, d.id);
      assert j != i;
      CommonAckHolds(cfg, e2, PUBREC, PUBREL, d.id, j, ok, i, id);
    } else if d.qos == 1 {
      CommonAckHolds(cfg, e1, PUBACK, -1, d.id, -1, ok, i, id);
    }
  }

  lemma PublishHolds(cfg: Config, e: Engine, d: Delivery, ok: bool, i: int, id: nat)
    requires Shaped(e) && IsSlot(i) && Holding(e.slots[i], id) && d.qos <= 2
    ensures var r := HandlePublish(cfg, e, d, ok).0;
            Holding(r.slots[i], id) && Reports(r.delivered, id) == Reports(e.delivered, id)
  {
    if Retransmits(d, id) {
      RetransmissionAnswered(cfg, e, d, ok, i);
    } else {
      OtherPublishHolds(cfg, e, d, ok, i, id);
      ReportsAppend(e.delivered, d, id);
    }
  }

  // ---------- other steps ----------

  // Each of these neither reports nor frees nor takes a tracker that holds an exchange.
  lemma SubmitHolds(cfg: Config, e: Engine, req: Request, ok: bool, i: int, id: nat)
    requires Shaped(e) && IsSlot(i) && Holding(e.slots[i], id) && RequestOk(req)
    ensures Holding(Submit(cfg, e, req, ok).0.slots[i], id) && Submit(cfg, e, req, ok).0.delivered == e.delivered
  {
    hide TrySend, RequestPacket, RequestSlot, TotalLen;
    if e.phase == Connected {
      var e1 := Pack(cfg, e, req).0;
      assert Holding(e1.slots[i], id) && e1.delivered == e.delivered;
      SendHolds(e1, ok, i, id);
    }
  }

  lemma AckHolds(cfg: Config, e: Engine, ptype: nat, mid: nat, ok: bool, i: int, id: nat)
    requires Shaped(e) && IsSlot(i) && Holding(e.slots[i], id) && IsAckType(ptype)
    requires MatchFrom(e.slots, ptype, mid, 0) != i
    ensures Holding(HandleAck(cfg, e, ptype, mid, ok).0.slots[i], id)
            && HandleAck(cfg, e, ptype, mid, ok).0.delivered == e.delivered
  {
    hide CommonAck, RemoveTag, MatchFrom;
    var j := MatchFrom(e.slots, ptype, mid, 0);
    if j >= 0 {
      var e0 := SetSlot(e, j, Finished(e.slots[j]));
      CommonAckHolds(cfg, e, PUBREL, PUBCOMP, mid, j, ok, i, id);
      CommonAckHolds(cfg, e0, PUBCOMP, -1, mid, j, ok, i, id);
    }
  }

  lemma SendBackupHolds(cfg: Config, e: Engine, j: int, ok: bool, i: int, id: nat)
    requires Shaped(e) && IsSlot(i) && IsSlot(j) && j != i && Holding(e.slots[i], id)
    ensures Holding(SendBackup(e, cfg, j, ok).0.slots[i], id) && SendBackup(e, cfg, j, ok).0.delivered == e.delivered
  {
    var k := FindTag(e.backup, j);
    if k < |e.backup| {
      var e1 := SetDupInBackup(e, k);
      var e2 := Enqueue(e1, e1.backup[k]);
      SendHolds(SetSlot(e2, j, e2.slots[j].(state := MWaiting)), ok, i, id);
    }
  }

  lemma DoRedeliverHolds(cfg: Config, e: Engine, j: int, ok: bool, i: int, id: nat)
    requires Shaped(e) && IsSlot(i) && IsSlot(j) && Holding(e.slots[i], id)
    ensures Holding(DoRedeliver(cfg, e, j, ok).0.slots[i], id) && DoRedeliver(cfg, e, j, ok).0.delivered == e.delivered
  {
    if i != j {
      CommonAckHolds(cfg, e, PUBREL, PUBCOMP, e.slots[j].id, j, ok, i, id);
      SendBackupHolds(cfg, e, j, ok, i, id);
    }
  }

  lemma TimeoutHolds(cfg: Config, e: Engine, j: int, ok: bool, i: int, id: nat, r: Engine)
    requires Shaped(e) && IsSlot(i) && IsSlot(j) && j != i && Holding(e.slots[i], id)
    requires r == HandleTimeout(cfg, e, j, ok).0
    ensures Holding(r.slots[i], id) && r.delivered == e.delivered
  {
    hide DoRedeliver, WithoutTag, RemoveTag, Flagged, Count;
    var s := e.slots[j];
    if CanRedeliver(cfg, s) {
      var e1 := SetSlot(e, j, s.(expired := e.tick + cfg.timeout));
      if s.state == MSent || s.state == MRedeliver {
        var e2 := SetSlot(e1, j, e1.slots[j].(opt := s.opt + 1, state := MRedeliver));
        DoRedeliverHolds(cfg, e2, j, ok, i, id);
        assert r == DoRedeliver(cfg, e2, j, ok).0;
      }
    } else {
      assert r == Release(e, j);
    }
  }

  lemma VisitHolds(cfg: Config, e: Engine, j: int, ok: bool, i: int, id: nat)
    requires Shaped(e) && IsSlot(i) && IsSlot(j) && Holding(e.slots[i], id)
    requires j == i ==> e.tick <= e.slots[i].expired
    ensures Holding(VisitSlot(cfg, e, j, ok).0.slots[i], id) && VisitSlot(cfg, e, j, ok).0.delivered == e.delivered
  {
    hide HandleTimeout, DoRedeliver, Count;
    if j != i {
      TimeoutHolds(cfg, e, j, ok, i, id, HandleTimeout(cfg, e, j, ok).0);
    }
    DoRedeliverHolds(cfg, e, j, ok, i, id);
  }

  lemma NextHolds(cfg: Config, e: Engine, s: Step, i: int, id: nat)
    requires Shaped(e) && IsSlot(i) && Holding(e.slots[i], id) && StepOk(s) && !Ends(e, s, i)
    ensures Holding(Next(cfg, e, s).slots[i], id) && Reports(Next(cfg, e, s).delivered, id) == Reports(e.delivered, id)
  {
    match s
    case DoRequest(req, ok) => SubmitHolds(cfg, e, req, ok, i, id);
    case DoSend(ok) => SendHolds(e, ok, i, id);
    case DoVisit(j, ok) => VisitHolds(cfg, e, j, ok, i, id);
    case DoPing(ok) => SendHolds(Enqueue(e, Frame(-1, PINGREQ, EmptyPacket(PINGREQ))), ok, i, id);
    case DoConnect(packet, cb, started) =>
    case DoTcpUp(ok) => SendHolds(ConnectTimed(cfg, e), ok, i, id);
    case DoDisconnect(cb, ok) =>
    case InAck(t, mid, ok) => AckHolds(cfg, e, t, mid, ok, i, id);
    case InPublish(d, ok) => PublishHolds(cfg, e, d, ok, i, id);
    case InConnack(code) =>
    case SetTick(t) =>
    case SetPhase(p) =>
  }

  // ---------- runs ----------

  ghost predicate GoesOn(cfg: Config, e: Engine, steps: seq<Step>, i: int)
    requires Shaped(e) && LegalRun(cfg, e, steps)
    decreases |steps|
  {
    steps == [] || (!Ends(e, steps[0], i) && GoesOn(cfg, Next(cfg, e, steps[0]), steps[1..], i))
  }

  // Until the exchange ends, no retransmission under its packet id is reported.
  lemma {:induction false} ReportedOnce(cfg: Config, e: Engine, steps: seq<Step>, i: int, id: nat)
    requires Shaped(e) && LegalRun(cfg, e, steps) && IsSlot(i) && Holding(e.slots[i], id) && GoesOn(cfg, e, steps, i)
    ensures var r := Run(cfg, e, steps); Holding(r.slots[i], id) && Reports(r.delivered, id) == Reports(e.delivered, id)
    decreases |steps|
  {
    if steps != [] {
      NextHolds(cfg, e, steps[0], i, id);
      ReportedOnce(cfg, Next(cfg, e, steps[0]), steps[1..], i, id);
    }
  }

  // A first PUBLISH of QoS 2 is reported, and holds a tracker exactly when one is free;
  // otherwise no tracker changes beyond the frame that leaves.
  lemma FirstPublish(cfg: Config, e: Engine, d: Delivery, ok: bool)
    requires Shaped(e) && d.qos == 2 && !d.dup
    ensures var r := HandlePublish(cfg, e, d, ok).0;
            var i := FreeFrom(e.slots, 0);
            r.delivered == e.delivered + [d] && (i >= 0 ==> Holding(r.slots[i], d.id))
            && (i < 0 ==> forall j :: 0 <= j < SLOTS ==> Moved(e.slots[j], r.slots[j]))
  {
    var i := FreeFrom(e.slots, 0);
    var e1 := e.(delivered := e.delivered + [d]);
    var (e2, j) := Track(cfg, e1, -1, d.id);
    if i >= 0 {
      CommonAckHolds(cfg, e2, PUBREC, PUBREL, d.id, j, ok, i, d.id);
    } else {
      forall k | 0 <= k < SLOTS ensures Moved(e.slots[k], HandlePublish(cfg, e, d, ok).0.slots[k]) {
        HandlePublishApart(cfg, e, d, ok, k);
      }
    }
  }
}
