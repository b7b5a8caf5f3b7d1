// The life of a connection, in bytes and ticks: connecting, repeating what is not answered,
// keeping alive, disconnecting.
module MqttLife {
  import opened Bytes
  import opened MqttWire
  import opened MqttFrames
  import opened MqttEngine
  import opened MqttAgreement
  import opened MqttAnswers
  import opened MqttTick

  // ---------- connecting ----------

  // CONNECT leaves when TCP is up, and its deadline starts then.
  lemma ConnectLeaves(cfg: Config, e: Engine, packet: seq<byte>, cb: bool, now: nat)
    requires Shaped(e) && e.phase == NotConnected && e.send == [] && 6 + |packet| <= cfg.sendSize
    ensures var e1 := Connect(cfg, e, packet, cb, true).0;
            var (r, ret) := TcpUp(cfg, e1.(phase := TcpConnected, tick := now), true);
            && e1.phase == TcpConnecting && e1.handed == e.handed
            && ret == 0 && r.phase == Connecting && r.send == [] && r.handed == e.handed + [Frame(0, 1, packet)]
            && Waits(r, 0, 2, 0) && r.slots[0].expired == now + cfg.timeout && r.slots[0].opt == 0
  {
    var e1 := Connect(cfg, e, packet, cb, true).0;
    assert [Frame(0, 1, packet)][1..] == [];
    assert e1.send == [Frame(0, 1, packet)];
  }

  // Without room nothing happens; if TCP does not start, CONNECT stays queued and stored in
  // its tracker, and the client unconnected.
  lemma ConnectFails(cfg: Config, e: Engine, packet: seq<byte>, cb: bool, started: bool)
    requires Shaped(e) && (!started || 6 + |packet| > cfg.sendSize - TotalLen(e.send))
    ensures var (r, ret) := Connect(cfg, e, packet, cb, started);
            && ret == -1 && r.phase == e.phase
            && if 6 + |packet| > cfg.sendSize - TotalLen(e.send) then r == e
               else r.send == e.send + [Frame(0, 1, packet)] && Waits(r, 0, 2, 0) && r.handed == e.handed
  {
    hide TotalLen;
  }

  // If the socket fails the client does not go on, although CONNECT has left the queue; a
  // deadline that is set is not moved; and nothing happens where TCP is not just up.
  lemma TcpUpElse(cfg: Config, e: Engine, ok: bool)
    requires Shaped(e)
    ensures var (r, ret) := TcpUp(cfg, e, ok);
            && (e.phase != TcpConnected ==> r == e && ret == 0)
            && (e.phase == TcpConnected && e.send != [] && !ok && e.send[0].tag == 0 && e.slots[0].awaits == 2 ==>
                  ret == -1 && r.phase == TcpConnected && r.send == e.send[1..])
            && (e.slots[0].expired != 0 ==> r.slots[0].expired == e.slots[0].expired)
  {
  }

  function Connack(session: byte, code: byte): seq<byte> {
    [0x20, 2, session, code]
  }

  lemma ConnackWhole(session: byte, code: byte)
    ensures WellFormed(Connack(session, code)) && ReadMessage(Connack(session, code)).bytes == 1
    ensures TypeOf(0x20) == CONNACK && Connack(session, code)[2..] == [session, code]
  {
    var p := Connack(session, code);
    assert RemLen(2) == [2];
    assert Packet(0x20, [session, code]) == p;
    PacketWellFormed(0x20, [session, code]);
  }

  // CONNACK connects exactly if its code is 0, and only a client that waits for it.
  lemma ConnackDecides(cfg: Config, e: Engine, session: byte, code: byte, ok: bool)
    requires Shaped(e)
    ensures WellFormed(Connack(session, code))
    ensures var (r, ret) := Dispatch(cfg, e, Connack(session, code), ok);
            if e.phase == Connecting
            then
              && ret == 0 && r.phase == (if code == 0 then Connected else Connecting)
              && (r.slots[0].state == MFree || r.slots[0].state == MFinish)
              && r.enqueued == e.enqueued && forall i :: 1 <= i < SLOTS ==> r.slots[i] == e.slots[i]
            else r == e && ret == -1
  {
    ConnackWhole(session, code);
    hide ReadMessage, HandleAck, HandlePublish, ParsePublish;
  }

  // ---------- deadlines ----------

  // A tracker is left alone until its deadline has passed.
  lemma NothingBeforeDeadline(cfg: Config, e: Engine, i: int, ok: bool)
    requires Shaped(e) && IsSlot(i) && e.tick <= e.slots[i].expired
    requires e.slots[i].state == MWaiting || e.slots[i].state == MSent
    ensures VisitSlot(cfg, e, i, ok) == (e, 0)
  {
  }

  lemma SubmitStores(cfg: Config, e: Engine, req: Request, ok: bool, i: int, f: Frame)
    requires Shaped(e) && RequestOk(req) && NeedsId(req) && CountTag(e.backup, i) == 0
    requires Submit(cfg, e, req, ok).0.enqueued == e.enqueued + [f] && f.tag == i
    ensures var r := Submit(cfg, e, req, ok).0;
            var stored := 6 + |f.packet| <= cfg.backupSize - TotalLen(e.backup);
            && IsSlot(i) && r.slots[i].expired == e.tick + cfg.timeout
            && r.slots[i].opt == (if stored then 16 else 0)
            && r.backup == if stored then e.backup + [f] else e.backup
  {
    hide RequestPacket, TotalLen, FreeFrom, CountTag, TrySend;
    var e1 := Pack(cfg, e, req).0;
    var j := FreeFrom(e.slots, 0);
    SendEnqueues(e1, ok);
    SendKeepsBackup(e1, ok, j);
    assert Submit(cfg, e, req, ok).0.enqueued[|e.enqueued|] == f;
    assert e1.enqueued[|e.enqueued|].tag == j;
  }

  // A finished tracker is freed by the next visit, and with DISCONNECT the connection ends.
  lemma FinishedIsFreed(cfg: Config, e: Engine, i: int, ok: bool)
    requires Shaped(e) && IsSlot(i) && e.slots[i].state == MFinish
    ensures var (r, ret) := VisitSlot(cfg, e, i, ok);
            && ret == 0 && r.slots == e.slots[i := e.slots[i].(state := MFree)] && r.enqueued == e.enqueued
            && r.phase == if e.slots[i].mtype == 14 then NotConnected else e.phase
  {
  }

  // An accepted request has its deadline, and its packet is stored where there is room.
  lemma RequestIsStored(cfg: Config, e: Engine, req: Request, ok: bool, i: int, id: nat)
    requires Asked(cfg, e, req, ok, i, id) && NeedsId(req)
    ensures var r := Submit(cfg, e, req, ok).0;
            var f := Frame(i, KindOf(req), RequestPacket(req, id));
            var stored := 6 + |f.packet| <= cfg.backupSize - TotalLen(e.backup);
            && IsSlot(i) && Shaped(r) && r.slots[i].expired == e.tick + cfg.timeout
            && r.slots[i].opt == (if stored then 16 else 0)
            && r.backup == (if stored then e.backup + [f] else e.backup)
            && (stored ==> FindTag(r.backup, i) == |e.backup|)
  {
    ReachableGood(cfg, e);
    assert e.nextId <= 65535;
    var f := Frame(i, KindOf(req), RequestPacket(req, id));
    var j, d := RequestAccepted(cfg, e, req, ok);
    hide Submit, Good, Reachable, TotalLen, FindTag;
    assert Submit(cfg, e, req, ok).0.enqueued[|e.enqueued|] == f;
    GoodNoFrame(cfg, e, i);
    SubmitStores(cfg, e, req, ok, i, f);
    CountZero(e.backup, i);
    FoundBehind(e.backup, f);
  }

  lemma FoundBehind(fs: seq<Frame>, f: Frame)
    requires FindTag(fs, f.tag) == |fs|
    ensures FindTag(fs + [f], f.tag) == |fs|
  {
    var gs := fs + [f];
    var j, k := FindTag(fs, f.tag), FindTag(gs, f.tag);
    hide FindTag;
    assert gs[|fs|] == f;
    assert forall m :: 0 <= m < |fs| ==> gs[m] == fs[m];
  }

  // Packet q is p, with the bit for a duplicate set if it is a PUBLISH.
  predicate Repeats(mtype: int, p: seq<byte>, q: seq<byte>) {
    && |p| == |q| > 0 && p[1..] == q[1..]
    && (if mtype == 3 then q[0] == p[0] || q[0] as int == p[0] as int + 8 else q[0] == p[0])
    && (mtype == 3 ==> q[0] as int / 8 % 2 == 1)
  }

  // The deadline of a stored request has passed, it may be sent once more, and there is room.
  predicate Due(cfg: Config, e: Engine, i: int, k: nat)
    requires Shaped(e)
  {
    && IsSlot(i) && k < |e.backup| && e.backup[k].tag == i && k == FindTag(e.backup, i)
    && var s := e.slots[i];
       && s.state == MSent && s.opt >= 16 && s.opt % 16 < cfg.count && e.tick > s.expired
       && s.awaits in {4, 5, 9, 11}
       && |e.backup[k].packet| > 0 && 6 + |e.backup[k].packet| <= cfg.sendSize - TotalLen(e.send)
  }

  // It is sent again, a PUBLISH as a duplicate, gets a new deadline and one attempt less.
  lemma RepeatedWhenDue(cfg: Config, e: Engine, i: int, k: nat, ok: bool)
    requires Shaped(e) && Due(cfg, e, i, k)
    ensures var (r, ret) := VisitSlot(cfg, e, i, ok);
            var f := e.backup[k];
            && |r.enqueued| == |e.enqueued| + 1
            && var g := r.enqueued[|e.enqueued|];
               && r.enqueued == e.enqueued + [g] && g.tag == i && g.mtype == f.mtype
               && Repeats(f.mtype, f.packet, g.packet)
               && r.backup == e.backup[k := g]
               && r.slots[i] == e.slots[i].(expired := e.tick + cfg.timeout, opt := e.slots[i].opt + 1,
                                            state := r.slots[i].state)
               && (r.slots[i].state == MWaiting || r.slots[i].state == MSent)
               && ret == (if ok then 0 else -1)
  {
    hide TotalLen, FindTag, TrySend, VisitSlot, SendBackup, Repeats;
    var s := e.slots[i];
    VisitSendsBackup(cfg, e, i, ok);
    var e1 := SetSlot(e, i, s.(expired := e.tick + cfg.timeout, opt := s.opt + 1, state := MRedeliver));
    BackupRepeated(cfg, e1, i, k, ok);
  }

  lemma BackupRepeated(cfg: Config, e: Engine, i: int, k: nat, ok: bool)
    requires Shaped(e) && IsSlot(i) && k < |e.backup| && k == FindTag(e.backup, i) && e.slots[i].awaits != -1
    requires |e.backup[k].packet| > 0 && 6 + |e.backup[k].packet| <= cfg.sendSize - TotalLen(e.send)
    ensures var (r, ret) := SendBackup(e, cfg, i, ok);
            var f := e.backup[k];
            && |r.enqueued| == |e.enqueued| + 1
            && var g := r.enqueued[|e.enqueued|];
               && r.enqueued == e.enqueued + [g] && g.tag == f.tag && g.mtype == f.mtype
               && Repeats(f.mtype, f.packet, g.packet)
               && r.backup == e.backup[k := g]
               && r.slots[i] == e.slots[i].(state := r.slots[i].state)
               && (r.slots[i].state == MWaiting || r.slots[i].state == MSent)
               && ret == (if ok then 0 else -1)
  {
    hide TotalLen, FindTag, TrySend, SetDup;
    SetDupRepeats(e.backup[k].packet);
    var e2 := SetDupInBackup(e, k);
    var e3 := Enqueue(e2, e2.backup[k]);
    var e4 := SetSlot(e3, i, e3.slots[i].(state := MWaiting));
    assert SendBackup(e, cfg, i, ok) == TrySend(e4, ok);
    SendKeepsBackup(e4, ok, i);
    SendAnswers(e4, ok);
    assert e.backup[k := e.backup[k]] == e.backup;
  }

  lemma VisitSendsBackup(cfg: Config, e: Engine, i: int, ok: bool)
    requires Shaped(e) && IsSlot(i)
    requires var s := e.slots[i];
             && s.state == MSent && s.opt >= 16 && s.opt % 16 < cfg.count && e.tick > s.expired
             && s.awaits in {4, 5, 9, 11}
    ensures var s := e.slots[i];
            VisitSlot(cfg, e, i, ok)
            == SendBackup(SetSlot(e, i, s.(expired := e.tick + cfg.timeout, opt := s.opt + 1, state := MRedeliver)),
                          cfg, i, ok)
  {
    hide SendBackup;
    var s := e.slots[i];
    var e1 := SetSlot(e, i, s.(expired := e.tick + cfg.timeout));
    assert SetSlot(e1, i, e1.slots[i].(opt := s.opt + 1, state := MRedeliver))
        == SetSlot(e, i, s.(expired := e.tick + cfg.timeout, opt := s.opt + 1, state := MRedeliver));
  }

  lemma SetDupRepeats(p: seq<byte>)
    requires |p| > 0
    ensures Repeats(3, p, SetDup(p))
  {
    if !DupOf(p[0]) {
      DupBit(p[0]);
    }
  }

  lemma SendKeepsBackup(e: Engine, ok: bool, i: int)
    requires Shaped(e) && IsSlot(i) && e.slots[i].awaits != -1
    ensures var r := TrySend(e, ok).0;
            && r.backup == e.backup && r.enqueued == e.enqueued
            && r.slots[i] == e.slots[i].(state := r.slots[i].state)
            && (r.slots[i].state == e.slots[i].state || r.slots[i].state == MSent)
  {
  }

  // For a publication that is the duplicate of the same message.
  lemma PublicationRepeated(cfg: Config, e: Engine, i: int, k: nat, ok: bool, dup: bool, qos: nat, retain: bool,
                            id: nat, topic: seq<byte>, payload: seq<byte>)
    requires Shaped(e) && Due(cfg, e, i, k) && qos <= 2
    requires e.backup[k] == Frame(i, 3, PublishPacket(dup, qos, retain, id, topic, payload))
    ensures VisitSlot(cfg, e, i, ok).0.enqueued
            == e.enqueued + [Frame(i, 3, PublishPacket(true, qos, retain, id, topic, payload))]
  {
    RepeatedWhenDue(cfg, e, i, k, ok);
    var p := PublishPacket(dup, qos, retain, id, topic, payload);
    var q := VisitSlot(cfg, e, i, ok).0.enqueued[|e.enqueued|].packet;
    SetDupIsDuplicate(dup, qos, retain, id, topic, payload);
    hide VisitSlot, PublishPacket, Due;
    OneRepeat(p, q);
  }

  lemma OneRepeat(p: seq<byte>, q: seq<byte>)
    requires Repeats(3, p, q)
    ensures q == SetDup(p)
  {
    assert q == [q[0]] + q[1..] && p == [p[0]] + p[1..];
    var a, b := p[0] as int, q[0] as int;
    if b == a + 8 {
      assert b / 8 == a / 8 + 1;
    }
  }

  // PUBREL is repeated as it is.
  lemma PubrelRepeated(cfg: Config, e: Engine, i: int, id: nat, ok: bool)
    requires Shaped(e) && IsSlot(i) && id < 65536
    requires var s := e.slots[i];
             s.state == MSent && s.awaits == 7 && s.id == id && s.opt % 16 < cfg.count && e.tick > s.expired
    requires 10 <= cfg.sendSize - TotalLen(e.send)
    ensures var r := VisitSlot(cfg, e, i, ok).0;
            && r.enqueued == e.enqueued + [Frame(i, 6, [0x62, 2, id / 256, id % 256])]
            && Waits(r, i, 7, id) && r.slots[i].expired == e.tick + cfg.timeout && r.slots[i].opt == e.slots[i].opt + 1
  {
    hide TotalLen, TrySend, AckPacket;
    PubRelBytes(id);
    var s := e.slots[i];
    var e1 := SetSlot(e, i, s.(expired := e.tick + cfg.timeout));
    var e2 := SetSlot(e1, i, e1.slots[i].(opt := s.opt + 1, state := MRedeliver));
    var e3 := Enqueue(e2, Frame(i, PUBREL, AckPacket(PUBREL, id)));
    var e4 := SetSlot(e3, i, e3.slots[i].(state := MWaiting, awaits := PUBCOMP));
    assert VisitSlot(cfg, e, i, ok) == TrySend(e4, ok);
    SendKeepsBackup(e4, ok, i);
  }

  // What is still queued past its deadline is counted but not queued once more.
  lemma QueuedIsCounted(cfg: Config, e: Engine, i: int, ok: bool)
    requires Shaped(e) && IsSlot(i) && e.slots[i].state == MWaiting && e.tick > e.slots[i].expired
    requires e.slots[i].opt % 16 < cfg.count && (e.slots[i].opt >= 16 || e.slots[i].awaits == 7)
    ensures var s := e.slots[i].(expired := e.tick + cfg.timeout, opt := e.slots[i].opt + 1);
            VisitSlot(cfg, e, i, ok) == (e.(slots := e.slots[i := s]), 0)
  {
    var s := e.slots[i];
    assert e.slots[i := s.(expired := e.tick + cfg.timeout)][i := s.(expired := e.tick + cfg.timeout, opt := s.opt + 1)]
        == e.slots[i := s.(expired := e.tick + cfg.timeout, opt := s.opt + 1)];
  }

  // Without room the repetition is counted and postponed.
  lemma PostponedWithoutRoom(cfg: Config, e: Engine, i: int, k: nat, ok: bool)
    requires Shaped(e) && IsSlot(i) && k < |e.backup| && k == FindTag(e.backup, i)
    requires var s := e.slots[i];
             && s.state == MSent && s.opt >= 16 && s.opt % 16 < cfg.count && e.tick > s.expired
             && s.awaits in {4, 5, 9, 11}
    requires 6 + |e.backup[k].packet| > cfg.sendSize - TotalLen(e.send)
    ensures var s := e.slots[i];
            VisitSlot(cfg, e, i, ok)
            == (SetSlot(e, i, s.(expired := e.tick + cfg.timeout, opt := s.opt + 1, state := MRedeliver)), 0)
  {
    VisitSendsBackup(cfg, e, i, ok);
  }

  // It is made up for before the next deadline, without being counted again, unless it was
  // the last.
  lemma PostponedIsSent(cfg: Config, e: Engine, i: int, k: nat, ok: bool)
    requires Shaped(e) && IsSlot(i) && k < |e.backup| && k == FindTag(e.backup, i)
    requires e.slots[i].state == MRedeliver && e.tick <= e.slots[i].expired && e.slots[i].awaits in {4, 5, 9, 11}
    requires |e.backup[k].packet| > 0 && 6 + |e.backup[k].packet| <= cfg.sendSize - TotalLen(e.send)
    ensures var (r, ret) := VisitSlot(cfg, e, i, ok);
            if e.slots[i].opt % 16 >= cfg.count then r == e && ret == 0
            else
              && |r.enqueued| == |e.enqueued| + 1
              && var g := r.enqueued[|e.enqueued|];
                 && r.enqueued == e.enqueued + [g] && g.tag == i
                 && Repeats(e.backup[k].mtype, e.backup[k].packet, g.packet)
                 && r.slots[i] == e.slots[i].(state := r.slots[i].state)
                 && (r.slots[i].state == MWaiting || r.slots[i].state == MSent)
  {
    hide TotalLen, FindTag, TrySend, SendBackup, Repeats;
    if e.slots[i].opt % 16 < cfg.count {
      BackupRepeated(cfg, e, i, k, ok);
    }
  }

  // What may not be sent again is given up, and with CONNECT the connection.
  lemma GivenUp(cfg: Config, e: Engine, i: int, ok: bool)
    requires Shaped(e) && IsSlot(i) && e.tick > e.slots[i].expired
    requires e.slots[i].state == MWaiting || e.slots[i].state == MSent
    requires e.slots[i].opt % 16 >= cfg.count || (e.slots[i].opt < 16 && e.slots[i].awaits != 7)
    ensures var (r, ret) := VisitSlot(cfg, e, i, ok);
            && ret == 0 && r.slots[i].state == MFree && r.enqueued == e.enqueued
            && r.phase == (if e.slots[i].awaits == 2 then ConnectError else e.phase)
            && r.send == (if e.slots[i].state == MWaiting then WithoutTag(e.send, i) else e.send)
            && r.backup == (if e.slots[i].opt >= 16 then RemoveTag(e.backup, i) else e.backup)
  {
    hide WithoutTag, RemoveTag;
  }

  // ---------- keeping alive ----------

  lemma PingBytes()
    ensures EmptyPacket(PINGREQ) == [0xC0, 0] && EmptyPacket(DISCONNECT) == [0xE0, 0]
  {
    assert RemLen(0) == [0];
  }

  // A ping that finds no room counts as sent: the next interval gives the connection up.
  lemma PingWithoutRoom(u: Setup, s: Session, ok: bool)
    requires Shaped(s.e) && u.cfg.sendSize - TotalLen(s.e.send) < 8
    requires s.e.tick > s.last + u.keepalive && !s.waiting
    ensures var (r, ret) := Keepalive(u, s, ok);
            ret == -1 && r.waiting && r.e == s.e && r.last == s.e.tick
  {
    hide TotalLen, EmptyPacket;
    PingBytes();
  }

  // Nothing is done within the interval; after it a ping is queued, unless one is already
  // unanswered: then the connection is given up.
  lemma PingAfterInterval(u: Setup, s: Session, ok: bool)
    requires Shaped(s.e) && 8 <= u.cfg.sendSize - TotalLen(s.e.send)
    ensures var (r, ret) := Keepalive(u, s, ok);
            if s.e.tick <= s.last + u.keepalive then r == s && ret == 0
            else if s.waiting then r.e == s.e && ret == -1
            else
              && r.e.enqueued == s.e.enqueued + [Frame(-1, 12, [0xC0, 0])]
              && r.last == s.e.tick && r.waiting == ok && ret == (if ok then 0 else -1)
  {
    hide TotalLen, TrySend, EmptyPacket;
    PingBytes();
    var e1 := Enqueue(s.e, Frame(-1, PINGREQ, EmptyPacket(PINGREQ)));
    SendEnqueues(e1, ok);
    SendAnswers(e1, ok);
  }

  // No tracker is in use and nothing is queued.
  predicate Idle(e: Engine) {
    Shaped(e) && e.send == [] && forall i :: 0 <= i < SLOTS ==> e.slots[i].state == MFree
  }

  lemma {:induction false} SweepOfFree(cfg: Config, e: Engine, k: nat, oks: seq<bool>)
    requires Shaped(e) && k <= SLOTS && |oks| == SLOTS
    requires forall i :: k <= i < SLOTS ==> e.slots[i].state == MFree
    ensures Sweep(cfg, e, k, oks) == (e, 0)
    decreases SLOTS - k
  {
    if k < SLOTS {
      SweepOfFree(cfg, e, k + 1, oks);
    }
  }

  lemma FeedNothing(cfg: Config, e: Engine, replies: seq<bool>)
    requires Shaped(e)
    ensures Feed(cfg, e, [], replies) == Fed(e, [], [], [])
  {
  }

  lemma NoPong()
    ensures !HasPong([])
  {
  }

  lemma FeedPong(cfg: Config, e: Engine, replies: seq<bool>)
    requires Shaped(e)
    ensures Feed(cfg, e, [0xD0, 0], replies) == Fed(e, [[0xD0, 0]], [0], [])
    ensures HasPong([[0xD0, 0]])
  {
    var p: seq<byte> := [0xD0, 0];
    assert RemLen(0) == [0];
    assert Packet(0xD0, []) == p;
    PacketWellFormed(0xD0, []);
    assert p[..2] == p && p[2..] == [];
    assert Dispatch(cfg, e, p, Answer(replies)) == (e, 0);
    FeedNothing(cfg, e, Later(replies));
    assert [p] + [] == [p] && [0] + [] == [0];
  }

  // A tick of a connected client with nothing to do: it pings after the interval, fails if
  // the ping before is still unanswered, and PINGRESP answers it.
  lemma IdleTick(u: Setup, s: Session, now: nat, a: Answers)
    requires Idle(s.e) && s.e.phase == Connected && |a.visits| == SLOTS && 8 <= u.cfg.sendSize
    requires s.buf == [] || s.buf == [0xD0, 0]
    ensures var (t, ret) := Pass(u, s, now, a);
            var unanswered := s.waiting && s.buf == [];
            var due := now > (if s.last == 0 then now else s.last) + u.keepalive;
            && t.buf == [] && t.e.phase == Connected
            && ret == (if due && (unanswered || !a.ping) then -1 else 0)
            && t.waiting == (if due && !unanswered then a.ping else unanswered)
            && t.e.enqueued == s.e.enqueued + (if due && !unanswered then [Frame(-1, 12, [0xC0, 0])] else [])
            && t.e.handed == s.e.handed + (if due && !unanswered then [Frame(-1, 12, [0xC0, 0])] else [])
  {
    hide Feed, Sweep, Keepalive, EmptyPacket, HasPong;
    var e := s.e.(tick := now);
    FeedNothing(u.cfg, e, a.replies);
    FeedPong(u.cfg, e, a.replies);
    SweepOfFree(u.cfg, e, 0, a.visits);
    NoPong();
    var pong := s.buf != [];
    var t := Session(e, [], s.packets + (if pong then [[0xD0, 0]] else []), if s.last == 0 then now else s.last,
                     s.waiting && !pong);
    assert ClientTick(u, s.(e := e), a) == Keepalive(u, t, a.ping);
    IdlePing(u, t, a.ping);
    assert s.e.enqueued + [] == s.e.enqueued && s.e.handed + [] == s.e.handed;
  }

  lemma IdlePing(u: Setup, s: Session, ok: bool)
    requires Shaped(s.e) && s.e.send == [] && 8 <= u.cfg.sendSize
    ensures var (r, ret) := Keepalive(u, s, ok);
            var due := s.e.tick > s.last + u.keepalive;
            && r.buf == s.buf && r.e.phase == s.e.phase
            && ret == (if due && (s.waiting || !ok) then -1 else 0)
            && r.waiting == (if due && !s.waiting then ok else s.waiting)
            && r.e.enqueued == s.e.enqueued + (if due && !s.waiting then [Frame(-1, 12, [0xC0, 0])] else [])
            && r.e.handed == s.e.handed + (if due && !s.waiting then [Frame(-1, 12, [0xC0, 0])] else [])
  {
    hide EmptyPacket;
    PingBytes();
    assert s.e.enqueued + [] == s.e.enqueued && s.e.handed + [] == s.e.handed;
  }

  // What arrives puts off the ping: there is none for another interval.
  lemma ArrivalPutsOffPing(u: Setup, s: Session, now: nat, a: Answers)
    requires Fits(u, s) && u.recvSize >= 8 && s.buf == [] && s.e.tick > 0
    requires Idle(s.e) && s.e.phase == Connected && |a.visits| == SLOTS && 8 <= u.cfg.sendSize
    requires s.e.tick <= now <= s.e.tick + u.keepalive
    ensures var t := Act(u, s, Arrive([0xD0, 0]));
            var (r, ret) := Pass(u, t, now, a);
            t.buf == [0xD0, 0] && ret == 0 && r.e.enqueued == s.e.enqueued && !r.waiting
  {
    var t := Act(u, s, Arrive([0xD0, 0]));
    R.AppendIsPrefix(s.buf, [0xD0, 0], u.recvSize);
    assert t.buf == [0xD0, 0] && t.last == s.e.tick;
    hide Pass;
    IdleTick(u, t, now, a);
    assert s.e.enqueued + [] == s.e.enqueued;
  }

  // A TCP connection that does not come up in time is an error, as is any that failed; both
  // are left to the application.
  lemma TcpFails(u: Setup, s: Session, now: nat, a: Answers)
    requires Shaped(s.e) && |a.visits| == SLOTS
    requires s.e.phase == TcpConnecting || s.e.phase == ConnectError || s.e.phase == NotConnected
    ensures var (r, ret) := Pass(u, s, now, a);
            && r.e == s.e.(tick := now) && r.buf == s.buf
            && (ret == -1 <==> s.e.phase == ConnectError
                               || (s.e.phase == TcpConnecting && s.last != 0 && now > s.last + u.cfg.timeout))
            && (ret == -1 || ret == 0)
  {
  }

  // A reset frees all trackers and forgets what is stored, buffered or unanswered.
  lemma ResetForgets(u: Setup, s: Session)
    requires Shaped(s.e)
    ensures var r := Called(u, s, DoReset);
            && r.e.phase == NotConnected && r.buf == [] && !r.waiting && r.e.backup == []
            && (forall i :: 0 <= i < 24 ==> r.e.slots[i].state == MFree)
            && (r.e.send == [] || (s.e.send != [] && r.e.send == [s.e.send[0].(tag := -1)]))
  {
  }

  // Starting to connect and being connected by TCP restart the clock of the keepalive; the
  // other calls do not touch it.
  lemma ClockRestarts(u: Setup, s: Session, step: Step)
    requires Shaped(s.e) && StepOk(step) && Outside(step)
    ensures var started := step.DoConnect? && Connect(u.cfg, s.e, step.packet, step.cb, step.started).1 == 0;
            Called(u, s, step).last
            == if started || step == SetPhase(TcpConnected) then s.e.tick else s.last
  {
  }

  // A poll whose first send fails does nothing else.
  lemma SendFailureStops(u: Setup, s: Session, a: Answers)
    requires Shaped(s.e) && |a.visits| == SLOTS && s.e.send != [] && !a.send
    ensures Poll(u, s, a) == (s.(e := TrySend(s.e, false).0), -1)
  {
    hide Feed, Sweep, Keepalive;
    SendAnswers(s.e, false);
  }

  // ---------- disconnecting ----------

  // Before the client is connected, disconnecting only turns it away; without a connection,
  // and a second time, it is refused.
  lemma DisconnectEarly(cfg: Config, e: Engine, cb: bool, ok: bool)
    requires Shaped(e) && e.phase != Connected
    ensures Disconnect(cfg, e, cb, ok)
            == if e.phase == NotConnected || e.phase == Disconnecting then (e, -5) else (e.(phase := Disconnecting), 0)
  {
  }

  // The first frame of the queue belongs to no tracker, so that it is kept.
  predicate KeepsFirst(e: Engine) {
    e.send != [] && e.send[0].tag == -1
  }

  function Bye(): Frame {
    Frame(0, 14, [0xE0, 0])
  }

  // After disconnecting: only tracker 0 may be in use, for DISCONNECT, which is still queued
  // if a frame was kept.
  predicate Leaving(e: Engine, cb: bool, kept: bool) {
    && Shaped(e) && e.phase == Disconnecting && (forall i :: 1 <= i < SLOTS ==> e.slots[i].state == MFree)
    && var s := e.slots[0];
       && s.mtype == 14 && s.awaits == -1 && s.cb == cb
       && s.state == (if kept then MWaiting else if cb then MFinish else MFree)
       && e.send == if kept then [Bye()] else []
  }

  lemma GoodbyeSaid(cfg: Config, e: Engine, cb: bool)
    requires Good(cfg, e, false) && e.phase == Connected
    requires 8 + (if KeepsFirst(e) then FrameLen(e.send[0]) else 0) <= cfg.sendSize
    ensures var (r, ret) := Disconnect(cfg, e, cb, true);
            && ret == 0 && Leaving(r, cb, KeepsFirst(e)) && r.enqueued == e.enqueued + [Bye()]
            && r.handed == e.handed + [if KeepsFirst(e) then e.send[0] else Bye()]
  {
    hide EmptyPacket;
    var e1 := ClearBuffers(e);
    assert e1.send == if KeepsFirst(e) then [e.send[0]] else [] by {
      if e.send != [] && IsSlot(e.send[0].tag) {
        assert SlotInv(cfg, e.slots[e.send[0].tag]);
      }
    }
    assert forall i :: 0 <= i < SLOTS ==> e1.slots[i].state == MFree;
    assert e1.enqueued == e.enqueued && e1.handed == e.handed;
    hide Good, ClearBuffers, FrameLen;
    PingBytes();
    OneLength(e1.send);
    var e2 := Register(cfg, e1, 0, Slot(MWaiting, DISCONNECT, -1, 0, 0, e1.tick + cfg.timeout, cb), [0xE0, 0]);
    assert e2.send == e1.send + [Bye()];
    assert [Bye()][1..] == [];
    assert KeepsFirst(e) ==> ([e.send[0]] + [Bye()])[1..] == [Bye()];
    assert Disconnect(cfg, e, cb, true).0 == TrySend(e2, true).0.(phase := Disconnecting);
  }

  lemma OneLength(fs: seq<Frame>)
    requires |fs| <= 1
    ensures TotalLen(fs) == if fs == [] then 0 else FrameLen(fs[0])
  {
    if |fs| == 1 {
      assert fs[1..] == [];
    }
  }

  lemma LastTick(u: Setup, s: Session, cb: bool, kept: bool, now: nat, a: Answers)
    requires Leaving(s.e, cb, kept) && s.buf == [] && |a.visits| == SLOTS && a.send
    ensures var r := Pass(u, s, now, a).0;
            && r.e.handed == s.e.handed + (if kept then [Bye()] else [])
            && r.e.phase == (if cb || kept then NotConnected else Disconnecting)
  {
    hide Feed, Sweep, Keepalive, HasPong;
    var e := s.e.(tick := now);
    var e1 := TrySend(e, true).0;
    assert [Bye()][1..] == [] && e.handed + [] == e.handed;
    assert e1.slots[0].state == (if cb then MFinish else MFree) && e1.slots[0].mtype == 14;
    FeedNothing(u.cfg, e1, a.replies);
    LastSweep(u.cfg, e1, a.visits);
  }

  lemma LastSweep(cfg: Config, e: Engine, oks: seq<bool>)
    requires Shaped(e) && |oks| == SLOTS && (forall i :: 1 <= i < SLOTS ==> e.slots[i].state == MFree)
    requires e.slots[0].state == MFree || (e.slots[0].state == MFinish && e.slots[0].mtype == 14)
    ensures var (r, ret) := Sweep(cfg, e, 0, oks);
            && ret == 0 && r.handed == e.handed
            && r.phase == if e.slots[0].state == MFinish then NotConnected else e.phase
  {
    var e1 := VisitSlot(cfg, e, 0, oks[0]).0;
    SweepOfFree(cfg, e1, 1, oks);
  }

  // DISCONNECT leaves at once, or behind the one frame that is kept; the tick after it ends
  // the connection, but only if a frame was kept or the application asked to be told:
  // otherwise the client stays disconnecting.
  lemma DisconnectEnds(u: Setup, s: Session, cb: bool, now: nat, a: Answers)
    requires Reachable(u.cfg, s.e) && Shaped(s.e) && s.e.phase == Connected && |a.visits| == SLOTS && a.send
    requires 8 + (if KeepsFirst(s.e) then FrameLen(s.e.send[0]) else 0) <= u.cfg.sendSize
    ensures var t := Called(u, s, DoDisconnect(cb, true));
            var r := Pass(u, t, now, a).0;
            && t.e.enqueued == s.e.enqueued + [Bye()] && t.buf == []
            && t.e.phase == Disconnecting
            && r.e.handed == s.e.handed + (if KeepsFirst(s.e) then [s.e.send[0]] else []) + [Bye()]
            && (r.e.phase == NotConnected <==> cb || KeepsFirst(s.e))
            && (r.e.phase == NotConnected || r.e.phase == Disconnecting)
  {
    ReachableGood(u.cfg, s.e);
    var t := Called(u, s, DoDisconnect(cb, true));
    hide Reachable;
    GoodbyeSaid(u.cfg, s.e, cb);
    hide Good, FrameLen, Pass;
    assert t.e == Disconnect(u.cfg, s.e, cb, true).0 && t.buf == [];
    hide Called, Disconnect;
    LastTick(u, t, cb, KeepsFirst(s.e), now, a);
    HandedInTurn(s.e.handed, if KeepsFirst(s.e) then s.e.send[0] else Bye());
  }

  lemma HandedInTurn(h: seq<Frame>, f: Frame)
    ensures (h + [f]) + [Bye()] == h + [f] + [Bye()]
    ensures h + [] + [Bye()] == h + [Bye()] && (h + [Bye()]) + [] == h + [] + [Bye()]
  {
  }

  lemma QuietTick(u: Setup, s: Session, now: nat, a: Answers)
    requires Idle(s.e) && s.e.phase == Disconnecting && s.buf == [] && |a.visits| == SLOTS
    ensures var r := Pass(u, s, now, a).0; Idle(r.e) && r.e.phase == Disconnecting && r.buf == []
  {
    hide Feed, Sweep, Keepalive, HasPong;
    var e := s.e.(tick := now);
    FeedNothing(u.cfg, e, a.replies);
    SweepOfFree(u.cfg, e, 0, a.visits);
  }

  // It stays so for all ticks to come, as long as nothing arrives.
  lemma {:induction false} StaysDisconnecting(u: Setup, s: Session, acts: seq<Action>)
    requires Fits(u, s) && AllowedAll(u, s, acts) && forall k :: 0 <= k < |acts| ==> acts[k].Turn?
    requires Idle(s.e) && s.e.phase == Disconnecting && s.buf == []
    ensures ActAll(u, s, acts).e.phase == Disconnecting
    decreases |acts|
  {
    if acts != [] {
      QuietTick(u, s, acts[0].now, acts[0].answers);
      hide Pass, Idle;
      StaysDisconnecting(u, Act(u, s, acts[0]), acts[1..]);
    }
  }
}
