// One tick of the client and whole sessions: what the socket delivers, what the API is
// asked for, and ticks that send, dispatch what has arrived, visit the trackers and keep
// the connection alive, in that order.
module MqttTick {
  import opened Bytes
  import opened MqttWire
  import opened MqttFrames
  import opened MqttEngine
  import opened MqttClient
  import opened MqttRelease
  import R = MqttReceive

  // keepalive is the interval of the connection.
  datatype Setup = Setup(cfg: Config, recvSize: nat, keepalive: nat)

  // last is last_keepalive_tick, waiting is ping_outstanding; packets records what has
  // been dispatched.
  datatype Session = Session(e: Engine, buf: seq<byte>, packets: seq<seq<byte>>, last: nat, waiting: bool)

  // What the socket answers during a tick: to the first send, to the replies to inbound
  // packets (true beyond the end), to the sends of the trackers and to the ping.
  datatype Answers = Answers(send: bool, replies: seq<bool>, visits: seq<bool>, ping: bool)

  predicate Fits(u: Setup, s: Session) {
    Shaped(s.e) && |s.buf| <= u.recvSize
  }

  // ---------- inbound packets ----------

  lemma {:induction false} LengthInPrefix(s: seq<byte>, k: nat, m: nat)
    requires k <= 4 && k <= m <= |s|
    requires ReadRemLenFrom(s, k).Got? && ReadRemLenFrom(s, k).bytes <= m
    ensures ReadRemLenFrom(s[..m], k) == ReadRemLenFrom(s, k)
    decreases 4 - k
  {
    ReadPrefixFrom(s, [], k);
    if s[k] >= 128 {
      ReadPrefixFrom(s, [], k + 1);
      LengthInPrefix(s, k + 1, m);
    }
  }

  // What is read as a whole packet is a well-formed packet.
  lemma WholeIsWellFormed(s: seq<byte>)
    requires ReadMessage(s).Whole?
    ensures WellFormed(s[..ReadMessage(s).len])
  {
    var n := ReadMessage(s).len;
    LengthInPrefix(s[1..], 0, n - 1);
    assert s[..n][1..] == s[1..][..n - 1];
  }

  // The engine after the pass, what was dispatched with which verdicts, what is kept.
  datatype Fed = Fed(e: Engine, packets: seq<seq<byte>>, verdicts: seq<int>, rest: seq<byte>)

  function Answer(replies: seq<bool>): bool {
    replies == [] || replies[0]
  }

  function Later(replies: seq<bool>): seq<bool> {
    if replies == [] then [] else replies[1..]
  }

  // mqtt_handle_messages with the real dispatcher.
  function Feed(cfg: Config, e: Engine, s: seq<byte>, replies: seq<bool>): (r: Fed)
    requires Shaped(e)
    ensures Shaped(r.e) && |r.rest| <= |s|
    decreases |s|
  {
    if s == [] then Fed(e, [], [], [])
    else
      match ReadMessage(s)
      case Partial => Fed(e, [], [], s)
      case Malformed => Fed(e, [], [], [])
      case Whole(n, _) =>
        WholeIsWellFormed(s);
        var (e1, v) := Dispatch(cfg, e, s[..n], Answer(replies));
        if v < 0 then Fed(e1, [s[..n]], [v], if v == -1 then [] else s[n..])
        else
          var r := Feed(cfg, e1, s[n..], Later(replies));
          r.(packets := [s[..n]] + r.packets, verdicts := [v] + r.verdicts)
  }

  // The verdicts the receiver acts on are those of the dispatcher.
  lemma {:induction false} FeedIsHandle(cfg: Config, e: Engine, s: seq<byte>, replies: seq<bool>)
    requires Shaped(e)
    ensures var r, h := Feed(cfg, e, s, replies), R.Handle(s, Feed(cfg, e, s, replies).verdicts);
            r.packets == h.packets && r.rest == h.rest
    decreases |s|
  {
    if s != [] && ReadMessage(s).Whole? {
      var n := ReadMessage(s).len;
      WholeIsWellFormed(s);
      var (e1, v) := Dispatch(cfg, e, s[..n], Answer(replies));
      if v >= 0 {
        FeedIsHandle(cfg, e1, s[n..], Later(replies));
        var r := Feed(cfg, e1, s[n..], Later(replies));
        assert ([v] + r.verdicts)[1..] == r.verdicts;
      }
    }
  }

  predicate IsPong(packet: seq<byte>) {
    packet != [] && TypeOf(packet[0]) == PINGRESP
  }

  function HasPong(packets: seq<seq<byte>>): bool {
    packets != [] && (IsPong(packets[0]) || HasPong(packets[1..]))
  }

  // ---------- one tick ----------

  // mqtt_keepalive.
  function Keepalive(u: Setup, s: Session, ok: bool): (r: (Session, int))
    requires Shaped(s.e)
    ensures Shaped(r.0.e) && r.0.buf == s.buf && r.0.packets == s.packets
  {
    if s.e.tick <= s.last + u.keepalive then (s, STAT_OK)
    else
      var t := s.(last := s.e.tick);
      if s.waiting then (t, ERROR)
      else
        var (e, ret) := Ping(u.cfg, s.e, ok);
        (t.(e := e, waiting := ret != ERROR), if ret < 0 then ERROR else STAT_OK)
  }

  // mqtt_poll_all_event.
  function Poll(u: Setup, s: Session, a: Answers): (r: (Session, int))
    requires Shaped(s.e) && |a.visits| == SLOTS
    ensures Shaped(r.0.e) && |r.0.buf| <= |s.buf|
  {
    var (e1, sent) := TrySend(s.e, a.send);
    if sent < 0 then (s.(e := e1), ERROR)
    else
      var f := Feed(u.cfg, e1, s.buf, a.replies);
      var (e2, swept) := Sweep(u.cfg, f.e, 0, a.visits);
      var t := Session(e2, f.rest, s.packets + f.packets, s.last, s.waiting && !HasPong(f.packets));
      if swept < 0 then (t, ERROR)
      else if e2.phase == Connected then Keepalive(u, t, a.ping)
      else (t, STAT_OK)
  }

  predicate Polls(p: Phase) {
    p == Connecting || p == Connected || p == Disconnecting
  }

  // mqtt_client_tick, with the keepalive clock started by the first tick.
  function ClientTick(u: Setup, s: Session, a: Answers): (r: (Session, int))
    requires Shaped(s.e) && |a.visits| == SLOTS
    ensures Shaped(r.0.e) && |r.0.buf| <= |s.buf|
  {
    var t := if s.last == 0 then s.(last := s.e.tick) else s;
    if t.e.phase == TcpConnected then
      var (e, ret) := TcpUp(u.cfg, t.e, a.send);
      (t.(e := e), ret)
    else if Polls(t.e.phase) then Poll(u, t, a)
    else (t, STAT_OK)
  }

  // sakura_mqtt_client_tick.
  function Pass(u: Setup, s: Session, now: nat, a: Answers): (r: (Session, int))
    requires Shaped(s.e) && |a.visits| == SLOTS
    ensures Shaped(r.0.e) && |r.0.buf| <= |s.buf|
  {
    var s1 := s.(e := s.e.(tick := now));
    if s.e.phase == ConnectError then (s1, ERROR)
    else
      var (t, ret) := ClientTick(u, s1, a);
      (t, if ret < 0 || (t.e.phase == TcpConnecting && now > t.last + u.cfg.timeout) then ERROR else STAT_OK)
  }

  // ---------- ticks that cut no message ----------

  ghost predicate ExactPoll(u: Setup, s: Session, a: Answers)
    requires Shaped(s.e) && |a.visits| == SLOTS
  {
    var (e1, sent) := TrySend(s.e, a.send);
    sent >= 0 ==> ExactSweep(u.cfg, Feed(u.cfg, e1, s.buf, a.replies).e, 0, a.visits)
  }

  ghost predicate ExactPass(u: Setup, s: Session, now: nat, a: Answers)
    requires Shaped(s.e) && |a.visits| == SLOTS
  {
    Polls(s.e.phase) ==> ExactPoll(u, s.(e := s.e.(tick := now)), a)
  }

  // ---------- sessions ----------

  datatype Action = Call(step: Step) | Arrive(chunk: seq<byte>) | Turn(now: nat, answers: Answers)

  // What the API and the socket callbacks do outside ticks.
  predicate Outside(step: Step) {
    step.DoRequest? || step.DoConnect? || step.DoDisconnect? || step.DoReset? || step.SetPhase?
  }

  // Starting to connect and being connected restart the keepalive clock; disconnecting
  // and a reset empty the receive buffer, and a reset forgets the ping.
  function Called(u: Setup, s: Session, step: Step): (r: Session)
    requires Shaped(s.e) && StepOk(step)
    ensures Shaped(r.e) && |r.buf| <= |s.buf|
  {
    var t := s.(e := Next(u.cfg, s.e, step));
    match step
    case DoConnect(packet, cb, started) =>
      if Connect(u.cfg, s.e, packet, cb, started).1 == STAT_OK then t.(last := s.e.tick) else t
    case SetPhase(p) => if p == TcpConnected then t.(last := s.e.tick) else t
    case DoDisconnect(_, _) => if s.e.phase == Connected then t.(buf := []) else t
    case DoReset => t.(buf := [], waiting := false)
    case _ => t
  }

  function Act(u: Setup, s: Session, a: Action): (r: Session)
    requires Fits(u, s) && Allowed(s, a)
    ensures Fits(u, r)
  {
    match a
    case Call(step) => Called(u, s, step)
    case Arrive(chunk) =>
      if chunk == [] then s else s.(buf := R.Append(s.buf, chunk, u.recvSize), last := s.e.tick)
    case Turn(now, answers) => Pass(u, s, now, answers).0
  }

  // Calls are legal steps, and time does not run backwards.
  ghost predicate Allowed(s: Session, a: Action) {
    match a
    case Call(step) => Outside(step) && Legal(s.e, step)
    case Arrive(_) => true
    case Turn(now, answers) => s.e.tick <= now && |answers.visits| == SLOTS
  }

  ghost predicate AllowedAll(u: Setup, s: Session, acts: seq<Action>)
    requires Fits(u, s)
    decreases |acts|
  {
    acts == [] || (Allowed(s, acts[0]) && AllowedAll(u, Act(u, s, acts[0]), acts[1..]))
  }

  ghost function ActAll(u: Setup, s: Session, acts: seq<Action>): (r: Session)
    requires Fits(u, s) && AllowedAll(u, s, acts)
    ensures Fits(u, r)
    decreases |acts|
  {
    if acts == [] then s else ActAll(u, Act(u, s, acts[0]), acts[1..])
  }

  // No release in the session cuts a queued message.
  ghost predicate ExactSession(u: Setup, s: Session, acts: seq<Action>)
    requires Fits(u, s) && AllowedAll(u, s, acts)
    decreases |acts|
  {
    acts == [] ||
      (&& (acts[0].Turn? ==> ExactPass(u, s, acts[0].now, acts[0].answers))
       && ExactSession(u, Act(u, s, acts[0]), acts[1..]))
  }

  function Fresh(): Session {
    Session(Start(), [], [], 0, false)
  }

  // ---------- sessions are runs of the engine ----------

  // A legal run leads from e to r.
  ghost predicate Reaches(cfg: Config, e: Engine, steps: seq<Step>, r: Engine) {
    Shaped(e) && LegalRun(cfg, e, steps) && Run(cfg, e, steps) == r
  }

  lemma {:induction false} ReachesOn(cfg: Config, e: Engine, a: seq<Step>, m: Engine, b: seq<Step>, r: Engine)
    requires Reaches(cfg, e, a, m) && Reaches(cfg, m, b, r)
    ensures Reaches(cfg, e, a + b, r)
    decreases |a|
  {
    if a == [] {
      assert a + b == b;
    } else {
      assert (a + b)[1..] == a[1..] + b;
      ReachesOn(cfg, Next(cfg, e, a[0]), a[1..], m, b, r);
    }
  }

  lemma ReachesOne(cfg: Config, e: Engine, s: Step)
    requires Shaped(e) && Legal(e, s)
    ensures Reaches(cfg, e, [s], Next(cfg, e, s))
  {
    assert [s][1..] == [];
    assert LegalRun(cfg, Next(cfg, e, s), []);
  }

  predicate IsInbound(s: Step) {
    s.InConnack? || s.InPublish? || s.InAck?
  }

  lemma {:induction false} FeedIsRun(cfg: Config, e: Engine, s: seq<byte>, replies: seq<bool>)
    returns (steps: seq<Step>)
    requires Shaped(e)
    ensures Reaches(cfg, e, steps, Feed(cfg, e, s, replies).e)
    ensures forall k :: 0 <= k < |steps| ==> IsInbound(steps[k])
    decreases |s|
  {
    steps := [];
    if s != [] && ReadMessage(s).Whole? {
      var n := ReadMessage(s).len;
      WholeIsWellFormed(s);
      var (e1, v) := Dispatch(cfg, e, s[..n], Answer(replies));
      steps := DispatchIsStep(cfg, e, s[..n], Answer(replies));
      if v >= 0 {
        var more := FeedIsRun(cfg, e1, s[n..], Later(replies));
        ReachesOn(cfg, e, steps, e1, more, Feed(cfg, e1, s[n..], Later(replies)).e);
        steps := steps + more;
      }
    }
  }

  lemma KeepaliveIsRun(u: Setup, s: Session, ok: bool) returns (steps: seq<Step>)
    requires Shaped(s.e)
    ensures Reaches(u.cfg, s.e, steps, Keepalive(u, s, ok).0.e)
    ensures steps == [] || steps == [DoPing(ok)]
  {
    steps := [];
    if s.e.tick > s.last + u.keepalive && !s.waiting {
      ReachesOne(u.cfg, s.e, DoPing(ok));
      steps := [DoPing(ok)];
    }
  }

  lemma SweepReaches(cfg: Config, e: Engine, oks: seq<bool>) returns (n: nat)
    requires Shaped(e) && |oks| == SLOTS
    ensures n <= SLOTS && Reaches(cfg, e, Visits(0, n, oks), Sweep(cfg, e, 0, oks).0)
    ensures Sweep(cfg, e, 0, oks).1 >= 0 ==> n == SLOTS
  {
    n := SweepIsRun(cfg, e, 0, oks);
  }

  // The steps are one send, i inbound packets, visits to the first n trackers in turn, and
  // then at most one ping.
  ghost predicate InTurn(steps: seq<Step>, a: Answers, i: nat, n: nat) {
    && |a.visits| == SLOTS && n <= SLOTS && 1 + i + n <= |steps| <= 2 + i + n
    && steps[0] == DoSend(a.send)
    && (forall k :: 1 <= k < 1 + i ==> IsInbound(steps[k]))
    && steps[1 + i..1 + i + n] == Visits(0, n, a.visits)
    && (|steps| == 2 + i + n ==> steps[1 + i + n] == DoPing(a.ping))
  }

  lemma TurnParts(fed: seq<Step>, n: nat, ping: seq<Step>, a: Answers) returns (steps: seq<Step>)
    requires |a.visits| == SLOTS && n <= SLOTS && (forall k :: 0 <= k < |fed| ==> IsInbound(fed[k]))
    requires ping == [] || ping == [DoPing(a.ping)]
    ensures steps == [DoSend(a.send)] + fed + Visits(0, n, a.visits) + ping && InTurn(steps, a, |fed|, n)
  {
    var visits := Visits(0, n, a.visits);
    steps := [DoSend(a.send)] + fed + visits + ping;
    assert steps[1 + |fed|..1 + |fed| + n] == visits;
  }

  lemma NoVisits(oks: seq<bool>)
    ensures Visits(0, 0, oks) == []
  {
  }

  // The steps of one poll.
  lemma PollIsRun(u: Setup, s: Session, a: Answers) returns (steps: seq<Step>, i: nat, n: nat)
    requires Shaped(s.e) && |a.visits| == SLOTS
    ensures Reaches(u.cfg, s.e, steps, Poll(u, s, a).0.e) && InTurn(steps, a, i, n)
  {
    hide TrySend, Sweep, Feed, Keepalive, Run, LegalRun, Reaches, InTurn, Visits;
    ReachesOne(u.cfg, s.e, DoSend(a.send));
    var send := [DoSend(a.send)];
    var fed, ping := [], [];
    n := 0;
    var (e1, sent) := TrySend(s.e, a.send);
    if sent >= 0 {
      var f := Feed(u.cfg, e1, s.buf, a.replies);
      var (e2, swept) := Sweep(u.cfg, f.e, 0, a.visits);
      var t := Session(e2, f.rest, s.packets + f.packets, s.last, s.waiting && !HasPong(f.packets));
      fed := FeedIsRun(u.cfg, e1, s.buf, a.replies);
      ReachesOn(u.cfg, s.e, send, e1, fed, f.e);
      n := SweepReaches(u.cfg, f.e, a.visits);
      var visits := Visits(0, n, a.visits);
      ReachesOn(u.cfg, s.e, send + fed, f.e, visits, e2);
      if swept >= 0 && e2.phase == Connected {
        ping := KeepaliveIsRun(u, t, a.ping);
        ReachesOn(u.cfg, s.e, send + fed + visits, e2, ping, Keepalive(u, t, a.ping).0.e);
      }
    }
    i := |fed|;
    steps := TurnParts(fed, n, ping, a);
    NoVisits(a.visits);
    assert send + [] + [] + [] == send;
    assert ping == [] ==> send + fed + Visits(0, n, a.visits) + [] == send + fed + Visits(0, n, a.visits);
  }

  lemma PassIsRun(u: Setup, s: Session, now: nat, a: Answers) returns (steps: seq<Step>)
    requires Shaped(s.e) && |a.visits| == SLOTS
    ensures Reaches(u.cfg, s.e, steps, Pass(u, s, now, a).0.e)
  {
    hide Poll, TcpUp, Run, LegalRun, Reaches;
    ReachesOne(u.cfg, s.e, SetTick(now));
    steps := [SetTick(now)];
    var e := s.e.(tick := now);
    var t := if s.last == 0 then s.(e := e, last := now) else s.(e := e);
    if e.phase == TcpConnected {
      ReachesOne(u.cfg, e, DoTcpUp(a.send));
      ReachesOn(u.cfg, s.e, steps, e, [DoTcpUp(a.send)], TcpUp(u.cfg, e, a.send).0);
      steps := steps + [DoTcpUp(a.send)];
    } else if Polls(e.phase) {
      var more, i, n := PollIsRun(u, t, a);
      ReachesOn(u.cfg, s.e, steps, e, more, Poll(u, t, a).0.e);
      steps := steps + more;
    }
  }

  // Whatever happens in a session is a legal run of the engine, so that all that holds of
  // every run holds of sessions.
  lemma {:induction false} SessionIsRun(u: Setup, s: Session, acts: seq<Action>) returns (steps: seq<Step>)
    requires Fits(u, s) && AllowedAll(u, s, acts)
    ensures Reaches(u.cfg, s.e, steps, ActAll(u, s, acts).e)
    decreases |acts|
  {
    steps := [];
    if acts != [] {
      var t := Act(u, s, acts[0]);
      var first := ActIsRun(u, s, acts[0]);
      var more := SessionIsRun(u, t, acts[1..]);
      ReachesOn(u.cfg, s.e, first, t.e, more, ActAll(u, s, acts).e);
      steps := first + more;
    }
  }

  lemma ActIsRun(u: Setup, s: Session, a: Action) returns (steps: seq<Step>)
    requires Fits(u, s) && Allowed(s, a)
    ensures Reaches(u.cfg, s.e, steps, Act(u, s, a).e)
  {
    match a
    case Call(step) =>
      ReachesOne(u.cfg, s.e, step);
      steps := [step];
    case Arrive(_) => steps := [];
    case Turn(now, answers) => steps := PassIsRun(u, s, now, answers);
  }
}
