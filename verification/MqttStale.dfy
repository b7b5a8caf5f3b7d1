// A session, tick by tick, in which a tracker released by timeout comes back to life
// without its backup.
module MqttStale {
  import opened Options
  import opened Bytes
  import opened MqttConnect
  import opened MqttWire
  import opened MqttFrames
  import opened MqttEngine
  import opened MqttAgreement
  import opened MqttTick

  const CFG := Config(1000, 1000, 10, 2)
  const SETUP := Setup(CFG, 1000, 30)
  const ACCOUNT := ConnectData(4, Some([99]), 30, true, false, Will(0, false, None, []), None, None)
  const CONNACK_PACKET: seq<byte> := [32, 2, 0, 0]

  function Publication(): Request {
    PublishReq(1, false, [65], [], false)
  }

  function Stored(): (p: seq<byte>)
    ensures |p| == 7 && p[0] == 50
  {
    PublishPacket(false, 1, false, 1, [65], [])
  }

  function First(): Frame {
    Frame(0, PUBLISH, Stored())
  }

  function Again(): Frame {
    Frame(0, PUBLISH, SetDup(Stored()))
  }

  function PingFrame(): Frame {
    Frame(-1, PINGREQ, EmptyPacket(PINGREQ))
  }

  function ConnectPacket(): (p: seq<byte>)
    ensures |p| == 15
  {
    ConnectBytes(ACCOUNT)
  }

  lemma ConnectPacketIs()
    ensures IsConnect(ConnectPacket()) && FrameOk(ConnectFrame())
  {
    assert ConnectLen(ACCOUNT) == 13 && PacketLen(13) == 15;
  }

  function ConnectFrame(): Frame {
    Frame(0, CONNECT, ConnectPacket())
  }

  // n packets of refused connects.
  function Connects(n: nat): (s: seq<Frame>)
    ensures |s| == n && forall i :: 0 <= i < n ==> s[i] == ConnectFrame()
  {
    if n == 0 then [] else [ConnectFrame()] + Connects(n - 1)
  }

  lemma {:induction false} ConnectsGrow(n: nat)
    ensures Connects(n) + [ConnectFrame()] == Connects(n + 1) && TotalLen(Connects(n)) == 21 * n
  {
    if n > 0 {
      ConnectsGrow(n - 1);
      assert Connects(n)[1..] == Connects(n - 1);
      assert Connects(n) + [ConnectFrame()] == [ConnectFrame()] + (Connects(n - 1) + [ConnectFrame()]);
    }
  }

  // Everything works: sockets take what they are given.
  const YES := Answers(true, [], seq(SLOTS, (i: nat) => true), true)

  // All trackers but the first are free, nothing is received, no ping is out.
  ghost predicate At(s: Session, phase: Phase, tick: nat, t: Slot, send: seq<Frame>, backup: seq<Frame>, last: nat) {
    && Fits(SETUP, s) && s.e.phase == phase && s.e.tick == tick && s.e.slots[0] == t
    && (forall i :: 1 <= i < SLOTS ==> s.e.slots[i].state == MFree)
    && s.e.send == send && s.e.backup == backup && s.buf == [] && s.last == last && !s.waiting
  }

  function Connecter(state: MsgState, expired: nat): Slot {
    Slot(state, CONNECT, CONNACK, 0, 0, expired, false)
  }

  function Publishing(state: MsgState, opt: nat, expired: nat): Slot {
    Slot(state, PUBLISH, PUBACK, opt, 1, expired, false)
  }

  // ---------- visiting one tracker ----------

  lemma {:induction false} SweepFree(e: Engine, k: nat, oks: seq<bool>)
    requires Shaped(e) && k <= SLOTS && |oks| == SLOTS && forall i :: k <= i < SLOTS ==> e.slots[i].state == MFree
    ensures Sweep(CFG, e, k, oks) == (e, STAT_OK)
    decreases SLOTS - k
  {
    if k < SLOTS {
      SweepFree(e, k + 1, oks);
    }
  }

  lemma SweepFirst(e: Engine, r: Engine)
    requires Shaped(e) && VisitSlot(CFG, e, 0, true) == (r, STAT_OK)
    requires forall i :: 1 <= i < SLOTS ==> r.slots[i].state == MFree
    ensures Sweep(CFG, e, 0, YES.visits) == (r, STAT_OK)
  {
    SweepFree(r, 1, YES.visits);
  }

  // A tick in which nothing has arrived and that brings the tracker from e1 to r.
  lemma QuietTurn(s: Session, now: nat, e1: Engine, r: Engine)
    requires Fits(SETUP, s) && s.buf == [] && s.last > 0 && Polls(s.e.phase)
    requires TrySend(s.e.(tick := now), true) == (e1, STAT_OK)
    requires VisitSlot(CFG, e1, 0, true) == (r, STAT_OK)
    requires forall i :: 1 <= i < SLOTS ==> r.slots[i].state == MFree
    ensures var t := s.(e := r);
            Pass(SETUP, s, now, YES).0 == if r.phase == Connected then Keepalive(SETUP, t, true).0 else t
  {
    SweepFirst(e1, r);
    assert s.packets + [] == s.packets;
  }

  // ---------- connecting ----------

  lemma ConnectAct(s: Session, t: Slot, n: nat, started: bool)
    requires At(s, NotConnected, 0, t, Connects(n), [], 0) && n <= 40
    ensures var a := Call(DoConnect(ConnectPacket(), false, started));
            && Allowed(s, a) && Act(SETUP, s, a).e.nextId == s.e.nextId
            && At(Act(SETUP, s, a), if started then TcpConnecting else NotConnected, 0, Connecter(MWaiting, 0),
                  Connects(n + 1), [], 0)
  {
    ConnectPacketIs();
    ConnectsGrow(n);
  }

  lemma UpAct(s: Session, t: Slot, send: seq<Frame>)
    requires At(s, TcpConnecting, 0, t, send, [], 0)
    ensures var a := Call(SetPhase(TcpConnected));
            && Allowed(s, a) && Act(SETUP, s, a).e.nextId == s.e.nextId
            && At(Act(SETUP, s, a), TcpConnected, 0, t, send, [], 0)
  {
  }

  lemma TcpUpAct(s: Session, n: nat)
    requires At(s, TcpConnected, 0, Connecter(MWaiting, 0), Connects(n + 1), [], 0)
    ensures var a := Turn(1, YES);
            && Allowed(s, a) && Act(SETUP, s, a).e.nextId == s.e.nextId
            && At(Act(SETUP, s, a), Connecting, 1, Connecter(MSent, 11), Connects(n), [], 1)
  {
    assert Connects(n + 1)[1..] == Connects(n);
  }

  lemma ConnackFed(e: Engine) returns (r: Engine)
    requires Shaped(e) && e.phase == Connecting && e.slots[0] == Connecter(MSent, 11)
    ensures Feed(CFG, e, CONNACK_PACKET, []) == Fed(r, [CONNACK_PACKET], [STAT_OK], [])
    ensures r == SetSlot(e.(phase := Connected), 0, Connecter(MFree, 11))
  {
    ConnackRead();
    r := Dispatch(CFG, e, CONNACK_PACKET, true).0;
    assert CONNACK_PACKET[..4] == CONNACK_PACKET && CONNACK_PACKET[4..] == [];
    assert [CONNACK_PACKET] + [] == [CONNACK_PACKET] && [STAT_OK] + [] == [STAT_OK];
  }

  // The CONNACK arrives and is dispatched in the next tick, behind one more send.
  lemma ConnackActs(s: Session, n: nat) returns (r: Session)
    requires At(s, Connecting, 1, Connecter(MSent, 11), Connects(n + 1), [], 1)
    ensures Allowed(s, Arrive(CONNACK_PACKET)) && Allowed(Act(SETUP, s, Arrive(CONNACK_PACKET)), Turn(2, YES))
    ensures r == Act(SETUP, Act(SETUP, s, Arrive(CONNACK_PACKET)), Turn(2, YES)) && r.e.nextId == s.e.nextId
    ensures At(r, Connected, 2, Connecter(MFree, 11), Connects(n), [], 1)
  {
    hide Feed, Dispatch, ReadMessage;
    var m := Act(SETUP, s, Arrive(CONNACK_PACKET));
    assert [] + CONNACK_PACKET[..4] == CONNACK_PACKET;
    r := Act(SETUP, m, Turn(2, YES));
    var (e1, sent) := TrySend(m.e.(tick := 2), true);
    assert Connects(n + 1)[1..] == Connects(n);
    var e2 := ConnackFed(e1);
    SweepFirst(e2, e2);
  }

  lemma ConnackRead()
    ensures ReadMessage(CONNACK_PACKET) == Whole(4, 1) && CONNACK_PACKET[2..] == [0, 0]
  {
    assert CONNACK_PACKET[1..][0] == 2;
  }

  // ---------- publishing and resending ----------

  lemma PublishAct(s: Session)
    requires At(s, Connected, 2, Connecter(MFree, 11), Connects(4), [], 1) && s.e.nextId == 0
    ensures var a := Call(DoRequest(Publication(), true));
            Allowed(s, a) && At(Act(SETUP, s, a), Connected, 2, Publishing(MSent, 16, 12),
                                [ConnectFrame(), ConnectFrame(), ConnectFrame(), First()], [First()], 1)
  {
    ConnectsGrow(4);
    assert RequestPacket(Publication(), 1) == Stored();
    var q := Connects(4) + [First()];
    assert q[1..] == [ConnectFrame(), ConnectFrame(), ConnectFrame(), First()];
    assert Pack(CFG, s.e, Publication()).0.send == q;
  }

  lemma DuplicateOfStored()
    ensures SetDup(SetDup(Stored())) == SetDup(Stored()) && |SetDup(Stored())| == 7
  {
  }

  lemma ResendFrame(e: Engine, opt: nat, expired: nat, q: seq<Frame>, g: Frame)
    requires Shaped(e) && e.slots[0] == Publishing(MRedeliver, opt, expired)
    requires (g == First() || g == Again()) && e.send == q && e.backup == [g]
    requires q != [] && q[0].tag == 0 && TotalLen(q) <= 900
    ensures var (r, ret) := SendBackup(e, CFG, 0, true);
            && ret == STAT_OK && r.phase == e.phase && r.tick == e.tick
            && r.slots == e.slots[0 := Publishing(MSent, opt, expired)]
            && r.send == q[1..] + [Again()] && r.backup == [Again()]
  {
    DuplicateOfStored();
    hide Stored, SetDup, TotalLen;
    assert FindTag([g], 0) == 0;
    assert [g][0 := Again()] == [Again()];
    assert SetDupInBackup(e, 0).backup == [Again()];
    assert (q + [Again()])[1..] == q[1..] + [Again()];
  }

  // A timeout: the stored packet goes behind the queue, and its head leaves.
  lemma ResendVisit(e: Engine, opt: nat, expired: nat, q: seq<Frame>, g: Frame) returns (r: Engine)
    requires Shaped(e) && e.slots[0] == Publishing(MSent, opt, expired) && e.tick > expired && 16 <= opt < 18
    requires (g == First() || g == Again()) && e.send == q && e.backup == [g]
    requires q != [] && q[0].tag == 0 && TotalLen(q) <= 900
    ensures VisitSlot(CFG, e, 0, true) == (r, STAT_OK) && r.phase == e.phase && r.tick == e.tick
    ensures r.slots == e.slots[0 := Publishing(MSent, opt + 1, e.tick + 10)]
    ensures r.send == q[1..] + [Again()] && r.backup == [Again()]
  {
    hide SendBackup, TotalLen, SetDup, Stored;
    var s := e.slots[0];
    assert CanRedeliver(CFG, s);
    var e1 := SetSlot(e, 0, s.(expired := e.tick + CFG.timeout));
    var e2 := SetSlot(e1, 0, e1.slots[0].(opt := opt + 1, state := MRedeliver));
    ResendFrame(e2, opt + 1, e.tick + 10, q, g);
    assert HandleTimeout(CFG, e, 0, true) == Redeliver(CFG, e1, 0, true) == SendBackup(e2, CFG, 0, true);
    r := SendBackup(e2, CFG, 0, true).0;
  }

  lemma ResendAct(s: Session, tick: nat, opt: nat, expired: nat, q: seq<Frame>, g: Frame)
    requires At(s, Connected, tick, Publishing(MSent, opt, expired), q, [g], 1) && 16 <= opt < 18
    requires (g == First() || g == Again()) && |q| >= 2 && q[0].tag == 0 && q[1].tag == 0 && TotalLen(q[1..]) <= 900
    requires tick <= expired + 1 <= 31
    ensures var a := Turn(expired + 1, YES);
            Allowed(s, a) && At(Act(SETUP, s, a), Connected, expired + 1, Publishing(MSent, opt + 1, expired + 11),
                                q[2..] + [Again()], [Again()], 1)
  {
    var e1 := TrySend(s.e.(tick := expired + 1), true).0;
    assert e1.slots == s.e.slots;
    var r := ResendVisit(e1, opt, expired, q[1..], g);
    QuietTurn(s, expired + 1, e1, r);
    assert q[1..][1..] == q[2..];
  }

  // ---------- release and revival ----------

  lemma ReleaseVisit(e: Engine, expired: nat) returns (r: Engine)
    requires Shaped(e) && e.slots[0] == Publishing(MSent, 18, expired) && e.tick > expired && e.backup == [Again()]
    ensures VisitSlot(CFG, e, 0, true) == (r, STAT_OK) && r.phase == e.phase && r.tick == e.tick
    ensures r.slots == e.slots[0 := Publishing(MFree, 18, expired)] && r.send == e.send && r.backup == []
  {
    assert FindTag([Again()], 0) == 0;
    assert [Again()][..0] + [Again()][1..] == [];
    r := Release(e, 0);
  }

  // The last timeout releases the tracker while a frame of it is queued; the ping of the
  // same tick sends that frame.
  lemma RevivalAct(s: Session)
    requires At(s, Connected, 24, Publishing(MSent, 18, 34), [Again(), Again()], [Again()], 1)
    ensures Allowed(s, Turn(35, YES))
    ensures var r := Act(SETUP, s, Turn(35, YES)).e;
            r.slots[0] == Publishing(MSent, 18, 34) && r.backup == [] && r.send == [PingFrame()]
  {
    var e1 := TrySend(s.e.(tick := 35), true).0;
    assert [Again(), Again()][1..] == [Again()];
    assert e1.slots == s.e.slots;
    var e2 := ReleaseVisit(e1, 34);
    QuietTurn(s, 35, e1, e2);
    assert TotalLen([Again()]) == 13 by {
      assert [Again()][1..] == [];
    }
    assert ([Again()] + [PingFrame()])[1..] == [PingFrame()];
  }

  // ---------- the session ----------

  ghost predicate Reached(acts: seq<Action>, s: Session) {
    AllowedAll(SETUP, Fresh(), acts) && ActAll(SETUP, Fresh(), acts) == s
  }

  lemma {:induction false} OneMore(s: Session, acts: seq<Action>, a: Action)
    requires Fits(SETUP, s) && AllowedAll(SETUP, s, acts) && Allowed(ActAll(SETUP, s, acts), a)
    ensures AllowedAll(SETUP, s, acts + [a])
    ensures ActAll(SETUP, s, acts + [a]) == Act(SETUP, ActAll(SETUP, s, acts), a)
    decreases |acts|
  {
    var t := acts + [a];
    if acts == [] {
      assert t[1..] == [];
      assert AllowedAll(SETUP, Act(SETUP, s, a), []);
    } else {
      assert t[1..] == acts[1..] + [a];
      OneMore(Act(SETUP, s, acts[0]), acts[1..], a);
    }
  }

  lemma Extend(acts: seq<Action>, s: Session, a: Action) returns (more: seq<Action>, r: Session)
    requires Reached(acts, s) && Allowed(s, a)
    ensures Reached(more, r) && r == Act(SETUP, s, a)
  {
    OneMore(Fresh(), acts, a);
    more, r := acts + [a], Act(SETUP, s, a);
  }

  // n refused connects.
  lemma {:induction false} RefusedConnects(n: nat) returns (acts: seq<Action>, s: Session)
    requires n <= 40
    ensures Reached(acts, s) && s.e.nextId == 0 && exists t :: At(s, NotConnected, 0, t, Connects(n), [], 0)
  {
    if n == 0 {
      acts, s := [], Fresh();
      assert At(s, NotConnected, 0, s.e.slots[0], Connects(0), [], 0);
    } else {
      acts, s := RefusedConnects(n - 1);
      var t :| At(s, NotConnected, 0, t, Connects(n - 1), [], 0);
      ConnectAct(s, t, n - 1, false);
      acts, s := Extend(acts, s, Call(DoConnect(ConnectPacket(), false, false)));
    }
  }

  lemma Opening() returns (acts: seq<Action>, s: Session)
    ensures Reached(acts, s) && s.e.nextId == 0 && At(s, Connected, 2, Connecter(MFree, 11), Connects(4), [], 1)
  {
    hide Reached, Act, Allowed;
    acts, s := RefusedConnects(5);
    var t :| At(s, NotConnected, 0, t, Connects(5), [], 0);
    ConnectAct(s, t, 5, true);
    acts, s := Extend(acts, s, Call(DoConnect(ConnectPacket(), false, true)));
    UpAct(s, Connecter(MWaiting, 0), Connects(6));
    acts, s := Extend(acts, s, Call(SetPhase(TcpConnected)));
    TcpUpAct(s, 5);
    acts, s := Extend(acts, s, Turn(1, YES));
    var r := ConnackActs(s, 4);
    acts, s := Extend(acts, s, Arrive(CONNACK_PACKET));
    acts, s := Extend(acts, s, Turn(2, YES));
  }

  // Agreement cannot be had without a proviso: here is a session, tick by tick, after
  // which tracker 0 is in use and flagged while the backup buffer is empty. Five connects
  // are refused before one succeeds, so that every packet leaves late.
  lemma ReleasedTrackerRevives() returns (acts: seq<Action>)
    ensures CfgOk(CFG) && AllowedAll(SETUP, Fresh(), acts)
    ensures var e := ActAll(SETUP, Fresh(), acts).e;
            Live(e.slots[0]) && Flagged(e.slots[0]) && e.backup == [] && !Agreement(e)
  {
    hide Act, Allowed;
    var s;
    acts, s := Opening();
    PublishAct(s);
    acts, s := Extend(acts, s, Call(DoRequest(Publication(), true)));
    Lengths();
    ResendAct(s, 2, 16, 12, [ConnectFrame(), ConnectFrame(), ConnectFrame(), First()], First());
    acts, s := Extend(acts, s, Turn(13, YES));
    ResendAct(s, 13, 17, 23, [ConnectFrame(), First(), Again()], Again());
    acts, s := Extend(acts, s, Turn(24, YES));
    RevivalAct(s);
    acts, s := Extend(acts, s, Turn(35, YES));
  }

  lemma Lengths()
    ensures [ConnectFrame(), ConnectFrame(), ConnectFrame(), First()][2..] + [Again()]
            == [ConnectFrame(), First(), Again()]
    ensures [ConnectFrame(), First(), Again()][2..] + [Again()] == [Again(), Again()]
    ensures TotalLen([ConnectFrame(), ConnectFrame(), ConnectFrame(), First()][1..]) <= 900
    ensures TotalLen([ConnectFrame(), First(), Again()][1..]) <= 900
  {
    var a, b := [ConnectFrame(), ConnectFrame(), First()], [First(), Again()];
    assert [ConnectFrame(), ConnectFrame(), ConnectFrame(), First()][1..] == a;
    assert a[1..] == [ConnectFrame(), First()] && a[1..][1..] == [First()] && a[1..][1..][1..] == [];
    assert [ConnectFrame(), First(), Again()][1..] == b && b[1..] == [Again()] && b[1..][1..] == [];
  }
}
