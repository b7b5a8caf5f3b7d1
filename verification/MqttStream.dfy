// What a session dispatches of the stream it receives.
module MqttStream {
  import opened Bytes
  import opened MqttWire
  import opened MqttFrames
  import opened MqttEngine
  import opened MqttTick
  import R = MqttReceive

  // The pass over the receive buffer in one tick, with the verdicts of the dispatcher.
  function TurnEvents(u: Setup, s: Session, now: nat, a: Answers): seq<R.Event>
    requires Shaped(s.e)
  {
    var (e, sent) := TrySend(s.e.(tick := now), a.send);
    if Polls(s.e.phase) && sent >= 0 then [R.Tick(Feed(u.cfg, e, s.buf, a.replies).verdicts)] else []
  }

  function ActEvents(u: Setup, s: Session, a: Action): seq<R.Event>
    requires Shaped(s.e)
  {
    match a
    case Call(_) => []
    case Arrive(chunk) => [R.Data(chunk)]
    case Turn(now, answers) => TurnEvents(u, s, now, answers)
  }

  ghost function Events(u: Setup, s: Session, acts: seq<Action>): seq<R.Event>
    requires Fits(u, s) && AllowedAll(u, s, acts)
    decreases |acts|
  {
    if acts == [] then [] else ActEvents(u, s, acts[0]) + Events(u, Act(u, s, acts[0]), acts[1..])
  }

  // No disconnect or reset empties the receive buffer.
  ghost predicate KeepsBuffer(u: Setup, s: Session, acts: seq<Action>)
    requires Fits(u, s) && AllowedAll(u, s, acts)
    decreases |acts|
  {
    acts == []
    || (!(acts[0].Call? && (acts[0].step.DoReset? || (acts[0].step.DoDisconnect? && s.e.phase == Connected)))
        && KeepsBuffer(u, Act(u, s, acts[0]), acts[1..]))
  }

  lemma TurnReceives(u: Setup, s: Session, now: nat, a: Answers, d: bool) returns (d': bool)
    requires Fits(u, s) && |a.visits| == SLOTS
    ensures var t := Pass(u, s, now, a).0;
            R.Run(R.Receiving(s.buf, s.packets, d), TurnEvents(u, s, now, a), u.recvSize)
            == R.Receiving(t.buf, t.packets, d')
  {
    hide Sweep, TrySend, TcpUp, Keepalive, Feed, R.Handle;
    d' := d;
    var es := TurnEvents(u, s, now, a);
    var e := TrySend(s.e.(tick := now), a.send).0;
    if es != [] {
      assert es[1..] == [];
      FeedIsHandle(u.cfg, e, s.buf, a.replies);
      d' := d || R.Handle(s.buf, es[0].verdicts).discarded;
    }
  }

  lemma ActReceives(u: Setup, s: Session, a: Action, d: bool) returns (d': bool)
    requires Fits(u, s) && Allowed(s, a)
    requires !(a.Call? && (a.step.DoReset? || (a.step.DoDisconnect? && s.e.phase == Connected)))
    ensures var t := Act(u, s, a);
            R.Run(R.Receiving(s.buf, s.packets, d), ActEvents(u, s, a), u.recvSize) == R.Receiving(t.buf, t.packets, d')
  {
    hide Pass, Next, TurnEvents;
    d' := d;
    match a
    case Call(_) =>
    case Arrive(chunk) => assert [R.Data(chunk)][1..] == [];
    case Turn(now, answers) => d' := TurnReceives(u, s, now, answers, d);
  }

  // The receive buffer and the packets dispatched in a session are those of a run of the
  // receiver under the verdicts of the dispatcher.
  lemma {:induction false} SessionReceives(u: Setup, s: Session, acts: seq<Action>, d: bool) returns (d': bool)
    requires Fits(u, s) && AllowedAll(u, s, acts) && KeepsBuffer(u, s, acts)
    ensures var t := ActAll(u, s, acts);
            R.Run(R.Receiving(s.buf, s.packets, d), Events(u, s, acts), u.recvSize) == R.Receiving(t.buf, t.packets, d')
    decreases |acts|
  {
    hide Act, ActEvents;
    d' := d;
    if acts != [] {
      var t := Act(u, s, acts[0]);
      var m := ActReceives(u, s, acts[0], d);
      d' := SessionReceives(u, t, acts[1..], m);
      R.RunAppend(R.Receiving(s.buf, s.packets, d), ActEvents(u, s, acts[0]), Events(u, t, acts[1..]), u.recvSize);
    }
  }

  // A session that receives the beginning of a stream of well-formed packets, in chunks
  // that fit, has dispatched leading packets of it to the engine, each once and in order,
  // and has the rest of what it received in its buffer, unless the dispatcher refused a
  // packet with an error.
  lemma StreamInOrder(u: Setup, acts: seq<Action>, ps: seq<seq<byte>>)
    requires AllowedAll(u, Fresh(), acts) && KeepsBuffer(u, Fresh(), acts)
    requires var es := Events(u, Fresh(), acts);
             && R.ChunksFit(R.Receiving([], [], false), es, u.recvSize) && R.NoFatal(es)
             && R.AllWellFormed(ps) && R.Bytestream(es) <= R.Concat(ps)
    ensures var t := ActAll(u, Fresh(), acts);
            && t.packets <= ps
            && R.Concat(t.packets) + t.buf == R.Bytestream(Events(u, Fresh(), acts))
  {
    hide ActAll, Events, R.Run, R.Bytestream, R.AllWellFormed, R.ChunksFit, R.NoFatal;
    var es, t, start := Events(u, Fresh(), acts), ActAll(u, Fresh(), acts), R.Receiving([], [], false);
    var d := SessionReceives(u, Fresh(), acts, false);
    var f := R.Concat(ps)[|R.Bytestream(es)|..];
    assert R.Bytestream(es) + f == R.Concat(ps);
    assert [] + (R.Bytestream(es) + f) == R.Concat(ps) && ps[0..] == ps;
    R.RunStream(start, es, u.recvSize, f, ps);
    R.RunConserves(start, es, u.recvSize);
    assert [] + [] + R.Bytestream(es) == R.Bytestream(es);
  }
}
