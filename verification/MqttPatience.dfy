// Sessions in which every connect that is queued also starts. Nothing piles up in the send
// buffer then, no release cuts a message and no released tracker revives.
module MqttPatience {
  import opened Bytes
  import opened MqttWire
  import opened MqttFrames
  import opened MqttEngine
  import opened MqttAgreement
  import opened MqttExact
  import opened MqttRelease
  import opened MqttClient
  import opened MqttTick

  predicate Refused(a: Action) {
    a.Call? && a.step.DoConnect? && !a.step.started
  }

  predicate Patient(acts: seq<Action>) {
    forall k :: 0 <= k < |acts| ==> !Refused(acts[k])
  }

  // ---------- an empty send buffer ----------

  // All that is queued leaves at once.
  ghost predicate Clear(cfg: Config, e: Engine) {
    Shaped(e) && Good(cfg, e, true) && e.send == []
  }

  lemma NextClear(cfg: Config, e: Engine, s: Step)
    requires Clear(cfg, e) && Legal(e, s) && !s.DoConnect?
    ensures Clear(cfg, Next(cfg, e, s))
  {
    NextGood(cfg, e, s, true);
    hide Good;
    NextEmpty(cfg, e, s);
  }

  lemma NextEmpty(cfg: Config, e: Engine, s: Step)
    requires Shaped(e) && StepOk(s) && e.send == [] && !s.DoConnect?
    ensures Next(cfg, e, s).send == []
  {
    match s
    case DoRequest(req, _) => SubmitEmpty(cfg, e, req, s.ok);
    case DoVisit(i, ok) => VisitEmpty(cfg, e, i, ok);
    case InAck(t, id, ok) => AckEmpty(cfg, e, t, id, ok);
    case InPublish(d, ok) => PublishEmpty(cfg, e, d, ok);
    case _ =>
  }

  lemma SubmitEmpty(cfg: Config, e: Engine, req: Request, ok: bool)
    requires Shaped(e) && RequestOk(req) && e.send == []
    ensures Submit(cfg, e, req, ok).0.send == []
  {
    hide RequestPacket, FreeFrom;
  }

  lemma CommonAckEmpty(cfg: Config, e: Engine, ptype: nat, awaits: int, id: nat, i: int, ok: bool)
    requires Shaped(e) && 0 < ptype < 16 && e.send == []
    ensures CommonAck(cfg, e, ptype, awaits, id, i, ok).0.send == []
  {
  }

  lemma SendBackupEmpty(cfg: Config, e: Engine, i: int, ok: bool)
    requires Shaped(e) && IsSlot(i) && e.send == []
    ensures SendBackup(e, cfg, i, ok).0.send == []
  {
  }

  lemma RedeliverEmpty(cfg: Config, e: Engine, i: int, ok: bool)
    requires Shaped(e) && IsSlot(i) && e.send == []
    ensures DoRedeliver(cfg, e, i, ok).0.send == []
  {
    hide CommonAck, SendBackup;
    SendBackupEmpty(cfg, e, i, ok);
    CommonAckEmpty(cfg, e, PUBREL, PUBCOMP, e.slots[i].id, i, ok);
  }

  lemma VisitEmpty(cfg: Config, e: Engine, i: int, ok: bool)
    requires Shaped(e) && IsSlot(i) && e.send == []
    ensures VisitSlot(cfg, e, i, ok).0.send == []
  {
    hide DoRedeliver;
    var s := e.slots[i];
    RedeliverEmpty(cfg, e, i, ok);
    var e1 := SetSlot(e, i, s.(expired := e.tick + cfg.timeout));
    RedeliverEmpty(cfg, SetSlot(e1, i, e1.slots[i].(opt := s.opt + 1, state := MRedeliver)), i, ok);
  }

  lemma AckEmpty(cfg: Config, e: Engine, ptype: nat, id: nat, ok: bool)
    requires Shaped(e) && IsAckType(ptype) && e.send == []
    ensures HandleAck(cfg, e, ptype, id, ok).0.send == []
  {
    hide CommonAck, MatchFrom;
    var i := MatchFrom(e.slots, ptype, id, 0);
    if i >= 0 {
      CommonAckEmpty(cfg, e, PUBREL, PUBCOMP, id, i, ok);
      CommonAckEmpty(cfg, SetSlot(e, i, Finished(e.slots[i])), PUBCOMP, -1, id, i, ok);
    }
  }

  lemma PublishEmpty(cfg: Config, e: Engine, d: Delivery, ok: bool)
    requires Shaped(e) && d.qos <= 2 && e.send == []
    ensures HandlePublish(cfg, e, d, ok).0.send == []
  {
    hide CommonAck, MatchFrom, FreeFrom;
    var i := DuplicateOf(e, d);
    var e1 := if i == -1 then e.(delivered := e.delivered + [d]) else e;
    var (e2, j) := Track(cfg, e1, i, d.id);
    CommonAckEmpty(cfg, e2, PUBREC, PUBREL, d.id, j, ok);
    CommonAckEmpty(cfg, e1, PUBACK, -1, d.id, -1, ok);
  }

  // ---------- one tick ----------

  lemma {:induction false} FeedClear(cfg: Config, e: Engine, s: seq<byte>, replies: seq<bool>)
    requires Clear(cfg, e)
    ensures Clear(cfg, Feed(cfg, e, s, replies).e)
    decreases |s|
  {
    hide Good, Dispatch, Next;
    if s != [] && ReadMessage(s).Whole? {
      var n := ReadMessage(s).len;
      WholeIsWellFormed(s);
      var (e1, v) := Dispatch(cfg, e, s[..n], Answer(replies));
      var steps := DispatchIsStep(cfg, e, s[..n], Answer(replies));
      if steps != [] {
        assert steps[0] in steps && steps[1..] == [];
        NextClear(cfg, e, steps[0]);
      }
      if v >= 0 {
        FeedClear(cfg, e1, s[n..], Later(replies));
      }
    }
  }

  lemma {:induction false} SweepClear(cfg: Config, e: Engine, k: nat, oks: seq<bool>)
    requires Clear(cfg, e) && k <= SLOTS && |oks| == SLOTS
    ensures Clear(cfg, Sweep(cfg, e, k, oks).0) && ExactSweep(cfg, e, k, oks)
    decreases SLOTS - k
  {
    hide Good, VisitSlot, Exact;
    if k < SLOTS {
      var e1 := VisitSlot(cfg, e, k, oks[k]).0;
      assert Legal(e, DoVisit(k, oks[k])) && Next(cfg, e, DoVisit(k, oks[k])) == e1;
      NextClear(cfg, e, DoVisit(k, oks[k]));
      NoneExact([], k);
      SweepClear(cfg, e1, k + 1, oks);
    }
  }

  lemma KeepaliveClear(u: Setup, s: Session, ok: bool)
    requires Clear(u.cfg, s.e)
    ensures Clear(u.cfg, Keepalive(u, s, ok).0.e)
  {
    hide Good;
    assert Legal(s.e, DoPing(ok));
    NextClear(u.cfg, s.e, DoPing(ok));
  }

  // Between ticks the buffer is empty, or it holds the CONNECT of a connection that is not
  // yet up.
  ghost predicate Waits(cfg: Config, e: Engine) {
    && Shaped(e) && Good(cfg, e, true)
    && (e.send == [] ||
        (&& |e.send| == 1 && e.send[0].tag == 0 && !Flagged(e.slots[0])
         && e.phase != NotConnected && e.phase != Connecting && e.phase != Connected))
  }

  lemma SendClears(cfg: Config, e: Engine, ok: bool)
    requires Waits(cfg, e)
    ensures Clear(cfg, TrySend(e, ok).0)
  {
    NextGood(cfg, e, DoSend(ok), true);
  }

  lemma PollClear(u: Setup, s: Session, a: Answers)
    requires Waits(u.cfg, s.e) && |a.visits| == SLOTS
    ensures Clear(u.cfg, Poll(u, s, a).0.e) && ExactPoll(u, s, a)
  {
    hide Good, TrySend, Feed, Sweep, Keepalive, ExactSweep;
    SendClears(u.cfg, s.e, a.send);
    var (e1, sent) := TrySend(s.e, a.send);
    if sent >= 0 {
      var f := Feed(u.cfg, e1, s.buf, a.replies);
      FeedClear(u.cfg, e1, s.buf, a.replies);
      SweepClear(u.cfg, f.e, 0, a.visits);
      var e2 := Sweep(u.cfg, f.e, 0, a.visits).0;
      KeepaliveClear(u, Session(e2, f.rest, s.packets + f.packets, s.last, s.waiting && !HasPong(f.packets)), a.ping);
    }
  }

  lemma TcpUpClear(cfg: Config, e: Engine, ok: bool)
    requires Waits(cfg, e) && e.phase == TcpConnected
    ensures Clear(cfg, TcpUp(cfg, e, ok).0)
  {
    NextGood(cfg, e, DoTcpUp(ok), true);
  }

  lemma TickedWaits(cfg: Config, e: Engine, now: nat)
    requires Waits(cfg, e)
    ensures Waits(cfg, e.(tick := now))
  {
    NextGood(cfg, e, SetTick(now), true);
  }

  lemma PassWaits(u: Setup, s: Session, now: nat, a: Answers)
    requires Waits(u.cfg, s.e) && |a.visits| == SLOTS
    ensures Waits(u.cfg, Pass(u, s, now, a).0.e) && ExactPass(u, s, now, a)
  {
    hide Good, Poll, TcpUp, ExactPoll;
    TickedWaits(u.cfg, s.e, now);
    var s1 := s.(e := s.e.(tick := now));
    var t := if s1.last == 0 then s1.(last := now) else s1;
    if s.e.phase == TcpConnected {
      TcpUpClear(u.cfg, s1.e, a.send);
    } else if Polls(s.e.phase) {
      PollClear(u, t, a);
      SamePoll(u, s1, t, a);
    }
  }

  lemma SamePoll(u: Setup, s: Session, t: Session, a: Answers)
    requires Shaped(s.e) && t.e == s.e && t.buf == s.buf && |a.visits| == SLOTS
    ensures ExactPoll(u, s, a) == ExactPoll(u, t, a)
  {
  }

  // ---------- sessions ----------

  lemma ConnectWaits(cfg: Config, e: Engine, packet: seq<byte>, cb: bool)
    requires Waits(cfg, e) && Legal(e, DoConnect(packet, cb, true))
    ensures Waits(cfg, Connect(cfg, e, packet, cb, true).0)
  {
    NextGood(cfg, e, DoConnect(packet, cb, true), true);
  }

  lemma DisconnectWaits(cfg: Config, e: Engine, cb: bool, ok: bool)
    requires Waits(cfg, e)
    ensures Waits(cfg, Disconnect(cfg, e, cb, ok).0)
  {
    NextGood(cfg, e, DoDisconnect(cb, ok), true);
    hide Good;
  }

  lemma ResetWaits(cfg: Config, e: Engine)
    requires Waits(cfg, e)
    ensures Waits(cfg, Reset(e))
  {
    NextGood(cfg, e, DoReset, true);
    NoneSending(cfg, e);
  }

  lemma NoneSending(cfg: Config, e: Engine)
    requires Good(cfg, e, true)
    ensures e.slots[0].state != MSending
  {
    assert SlotInv(cfg, e.slots[0]);
  }

  lemma CallWaits(cfg: Config, e: Engine, s: Step)
    requires Waits(cfg, e) && Outside(s) && Legal(e, s) && (s.DoConnect? ==> s.started)
    ensures Waits(cfg, Next(cfg, e, s))
  {
    match s
    case DoConnect(packet, cb, _) => ConnectWaits(cfg, e, packet, cb);
    case DoDisconnect(cb, ok) => DisconnectWaits(cfg, e, cb, ok);
    case DoReset => ResetWaits(cfg, e);
    case DoRequest(req, ok) =>
      if e.phase == Connected {
        NextClear(cfg, e, s);
      }
    case SetPhase(p) => NextGood(cfg, e, s, true);
  }

  lemma {:induction false} StaysPatient(u: Setup, s: Session, acts: seq<Action>)
    requires Fits(u, s) && Waits(u.cfg, s.e) && AllowedAll(u, s, acts) && Patient(acts)
    ensures Waits(u.cfg, ActAll(u, s, acts).e) && ExactSession(u, s, acts)
    decreases |acts|
  {
    hide Waits, Pass, Next, ExactPass, Legal;
    if acts != [] {
      var a := acts[0];
      assert !Refused(a);
      match a {
        case Call(step) => CallWaits(u.cfg, s.e, step);
        case Arrive(_) =>
        case Turn(now, answers) => PassWaits(u, s, now, answers);
      }
      StaysPatient(u, Act(u, s, a), acts[1..]);
    }
  }

  // Whatever else happens in a session: if no connect is refused after its packet has been
  // queued, no release cuts a message, trackers and backup buffer agree, and at most a
  // CONNECT is left in the send buffer.
  lemma PatientSession(u: Setup, acts: seq<Action>)
    requires CfgOk(u.cfg) && AllowedAll(u, Fresh(), acts) && Patient(acts)
    ensures ExactSession(u, Fresh(), acts)
    ensures var e := ActAll(u, Fresh(), acts).e; Agreement(e) && |e.send| <= 1
  {
    StartGood(u.cfg);
    StaysPatient(u, Fresh(), acts);
    AllAgreeIsAgreement(u.cfg, ActAll(u, Fresh(), acts).e);
  }
}
