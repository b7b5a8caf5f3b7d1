// A client together with its receiver and its keepalive clock: the tick in place.
module MqttSession {
  import opened Bytes
  import opened MqttWire
  import opened MqttFrames
  import opened MqttEngine
  import opened MqttClient
  import opened MqttRelease
  import opened MqttTick
  import R = MqttReceive
  import opened MqttReceiver

  // A pass over s that stands at at has dispatched done, leads to e and last got ret.
  ghost predicate Feeding(cfg: Config, e0: Engine, s: seq<byte>, replies: seq<bool>,
                          e: Engine, done: seq<seq<byte>>, at: nat, left: seq<bool>, ret: int)
    requires Shaped(e0) && Shaped(e)
  {
    && at <= |s|
    && var f := Feed(cfg, e0, s, replies);
       && (ret >= 0 ==> var g := Feed(cfg, e, s[at..], left);
                        f.e == g.e && f.packets == done + g.packets && f.rest == g.rest)
       && (ret < 0 ==> f.e == e && f.packets == done && f.rest == if ret == -1 then [] else s[at..])
  }

  lemma FeedingStarts(cfg: Config, e: Engine, s: seq<byte>, replies: seq<bool>)
    requires Shaped(e)
    ensures Feeding(cfg, e, s, replies, e, [], 0, replies, 0) && !HasPong([])
  {
    assert s[0..] == s;
  }

  lemma FeedingStops(cfg: Config, e0: Engine, s: seq<byte>, replies: seq<bool>,
                     e: Engine, done: seq<seq<byte>>, at: nat, left: seq<bool>, ret: int)
    requires Shaped(e0) && Shaped(e) && Feeding(cfg, e0, s, replies, e, done, at, left, ret)
    requires ret >= 0 && at < |s| && !ReadMessage(s[at..]).Whole?
    ensures Feeding(cfg, e0, s, replies, e, done, at, left, if ReadMessage(s[at..]).Partial? then -2 else -1)
  {
  }

  lemma FeedOne(cfg: Config, e: Engine, s: seq<byte>, replies: seq<bool>)
    requires Shaped(e) && s != [] && ReadMessage(s).Whole?
    ensures var n := ReadMessage(s).len;
            && WellFormed(s[..n])
            && var (r, v) := Dispatch(cfg, e, s[..n], Answer(replies));
               Feed(cfg, e, s, replies) ==
               if v < 0 then Fed(r, [s[..n]], [v], if v == -1 then [] else s[n..])
               else var g := Feed(cfg, r, s[n..], Later(replies));
                    g.(packets := [s[..n]] + g.packets, verdicts := [v] + g.verdicts)
  {
    hide Dispatch, ReadMessage;
    WholeIsWellFormed(s);
  }

  // The packet at at has been dispatched as well.
  ghost predicate FedOn(cfg: Config, e0: Engine, s: seq<byte>, replies: seq<bool>,
                        e: Engine, done: seq<seq<byte>>, at: nat, left: seq<bool>)
    requires Shaped(e0) && Shaped(e) && at < |s| && ReadMessage(s[at..]).Whole?
  {
    var n := ReadMessage(s[at..]).len;
    && at + n <= |s| && WellFormed(s[at..at + n])
    && var (r, v) := Dispatch(cfg, e, s[at..at + n], Answer(left));
       Feeding(cfg, e0, s, replies, r, done + [s[at..at + n]], at + n, Later(left), v)
  }

  lemma FeedingOn(cfg: Config, e0: Engine, s: seq<byte>, replies: seq<bool>,
                  e: Engine, done: seq<seq<byte>>, at: nat, left: seq<bool>, ret: int)
    requires Shaped(e0) && Shaped(e) && Feeding(cfg, e0, s, replies, e, done, at, left, ret)
    requires ret >= 0 && at < |s| && ReadMessage(s[at..]).Whole?
    ensures FedOn(cfg, e0, s, replies, e, done, at, left)
  {
    hide Feed, Dispatch, ReadMessage, WellFormed;
    var n := ReadMessage(s[at..]).len;
    FeedOne(cfg, e, s[at..], left);
    assert s[at..][..n] == s[at..at + n] && s[at..][n..] == s[at + n..];
    var (r, v) := Dispatch(cfg, e, s[at..at + n], Answer(left));
    var ps := Feed(cfg, r, s[at + n..], Later(left)).packets;
    assert done + ([s[at..at + n]] + ps) == done + [s[at..at + n]] + ps;
  }

  lemma FeedingEnds(cfg: Config, e0: Engine, s: seq<byte>, replies: seq<bool>,
                    e: Engine, done: seq<seq<byte>>, at: nat, left: seq<bool>, ret: int)
    requires Shaped(e0) && Shaped(e) && Feeding(cfg, e0, s, replies, e, done, at, left, ret)
    requires ret < 0 || at == |s|
    ensures var f := Feed(cfg, e0, s, replies);
            f.e == e && f.packets == done && f.rest == if ret == -1 then [] else s[at..]
  {
  }

  lemma {:induction false} PongLast(ps: seq<seq<byte>>, p: seq<byte>)
    ensures HasPong(ps + [p]) <==> HasPong(ps) || IsPong(p)
  {
    if ps != [] {
      assert (ps + [p])[1..] == ps[1..] + [p];
      PongLast(ps[1..], p);
    } else {
      assert [] + [p] == [p] && [p][1..] == [];
    }
  }

  class Connection {
    const client: Client
    const receiver: Receiver
    const keepalive: nat
    var last: nat
    var waiting: bool
    ghost var packets: seq<seq<byte>>

    ghost function Repr(): set<object> {
      {this, receiver, receiver.data} + client.Repr()
    }

    ghost predicate Valid()
      reads Repr()
    {
      client.Valid() && receiver.Valid() && {this, receiver, receiver.data} !! client.Repr()
    }

    ghost function Fixed(): Setup {
      Setup(client.Cfg(), receiver.data.Length, keepalive)
    }

    ghost function State(): (s: Session)
      requires Valid()
      reads Repr()
      ensures Fits(Fixed(), s)
    {
      Session(client.State(), receiver.Buffered(), packets, last, waiting)
    }

    constructor (sendSize: nat, backupSize: nat, recvSize: nat, timeout: nat, count: nat, interval: nat)
      requires sendSize <= 65535 && backupSize <= 65535
      ensures Valid() && fresh(Repr()) && State() == Fresh()
      ensures Fixed() == Setup(Config(sendSize, backupSize, timeout, count), recvSize, interval)
    {
      client := new Client(sendSize, backupSize, timeout, count);
      receiver := new Receiver(recvSize);
      keepalive, last, waiting, packets := interval, 0, false, [];
    }

    // mqtt_net_on_recv.
    method OnRecv(chunk: seq<byte>) returns (ok: bool)
      requires Valid()
      modifies this, receiver, receiver.data
      ensures Valid() && Allowed(old(State()), Arrive(chunk)) && ok == (chunk != [])
      ensures State() == Act(Fixed(), old(State()), Arrive(chunk))
    {
      ok := receiver.OnRecv(chunk);
      if ok {
        last := client.tick;
      }
    }

    // mqtt_handle_messages: dispatch every whole packet, then move the rest to the front.
    method HandleMessages(replies: seq<bool>)
      requires Valid()
      modifies Repr()
      ensures Valid()
      ensures var s, f := old(State()), Feed(Fixed().cfg, old(State().e), old(State().buf), replies);
              State() == Session(f.e, f.rest, s.packets + f.packets, s.last, s.waiting && !HasPong(f.packets))
    {
      hide Feeding, Feed, Dispatch, HasPong, ReadMessage, Client.State, Client.Valid, Client.Cfg;
      ghost var e0, s, done := client.State(), receiver.Buffered(), [];
      var at: nat, ret, left, total := 0, 0, replies, receiver.len;
      FeedingStarts(client.Cfg(), e0, s, replies);
      while at < total && ret >= 0
        invariant Valid() && at <= total == receiver.len && receiver.Buffered() == s
        invariant last == old(last) && packets == old(packets) && waiting == (old(waiting) && !HasPong(done))
        invariant Feeding(client.Cfg(), e0, s, replies, client.State(), done, at, left, ret)
        decreases total - at, ret
      {
        ret, at, left, done := HandleNext(at, left, ret, old(waiting), done, e0, replies);
      }
      FeedingEnds(client.Cfg(), e0, s, replies, client.State(), done, at, left, ret);
      KeepRest(at, total, ret == -1);
      packets := packets + done;
    }

    // One round of the loop. was is what waiting was before the loop.
    method HandleNext(at: nat, left: seq<bool>, ghost before: int, ghost was: bool,
                      ghost done: seq<seq<byte>>, ghost e0: Engine, ghost replies: seq<bool>)
      returns (ret: int, at1: nat, left1: seq<bool>, ghost done1: seq<seq<byte>>)
      requires Valid() && at < receiver.len && before >= 0 && Shaped(e0) && waiting == (was && !HasPong(done))
      requires Feeding(client.Cfg(), e0, receiver.Buffered(), replies, client.State(), done, at, left, before)
      modifies this`waiting, client.Repr()
      ensures Valid() && at <= at1 <= receiver.len && (ret >= 0 ==> at < at1) && waiting == (was && !HasPong(done1))
      ensures Feeding(client.Cfg(), e0, receiver.Buffered(), replies, client.State(), done1, at1, left1, ret)
    {
      hide Feeding, Feed, Dispatch, HasPong, ReadMessage, Client.State, Client.Valid, Client.Cfg;
      ghost var cfg, s, e := client.Cfg(), receiver.Buffered(), client.State();
      var m := receiver.ReadMessageAt(at, receiver.len);
      assert receiver.data[at..receiver.len] == s[at..];
      if m.Whole? {
        FeedingOn(cfg, e0, s, replies, e, done, at, left, before);
        var packet := receiver.data[at..at + m.len];
        assert packet == s[at..at + m.len];
        PongLast(done, packet);
        ret := Deliver(packet, Answer(left));
        at1, left1, done1 := at + m.len, Later(left), done + [packet];
      } else {
        FeedingStops(cfg, e0, s, replies, e, done, at, left, before);
        at1, left1, done1 := at, left, done;
        ret := if m.Partial? then -2 else -1;
      }
    }

    // One packet goes to the dispatcher; PINGRESP ends the wait for it.
    method Deliver(packet: seq<byte>, ok: bool) returns (ret: int)
      requires Valid() && WellFormed(packet)
      modifies this`waiting, client.Repr()
      ensures Valid() && waiting == (old(waiting) && !IsPong(packet))
      ensures (client.State(), ret) == Dispatch(client.Cfg(), old(client.State()), packet, ok)
    {
      hide Dispatch;
      if IsPong(packet) {
        waiting := false;
      }
      ret := client.DispatchPacket(packet, ok);
    }

    // The end of mqtt_handle_messages: after a fatal error nothing is kept.
    method KeepRest(at: nat, total: nat, fatal: bool)
      requires Valid() && at <= total == receiver.len
      modifies receiver, receiver.data
      ensures Valid() && receiver.Buffered() == if fatal then [] else old(receiver.data[at..total])
      ensures client.State() == old(client.State())
    {
      if fatal {
        receiver.len := 0;
      } else {
        receiver.MoveToFront(at, total);
        receiver.len := total - at;
      }
    }

    // mqtt_keepalive.
    method KeepAlive(ok: bool) returns (ret: int)
      requires Valid()
      modifies Repr()
      ensures Valid() && (State(), ret) == Keepalive(Fixed(), old(State()), ok)
    {
      ret := STAT_OK;
      if client.tick > last + keepalive {
        last := client.tick;
        if waiting {
          return ERROR;
        }
        ret := client.SendPing(ok);
        waiting := ret != ERROR;
        if ret < 0 {
          ret := ERROR;
        }
      }
    }

    // mqtt_poll_all_event: send, dispatch, visit the trackers, keep alive.
    method PollAllEvent(a: Answers) returns (ret: int)
      requires Valid() && |a.visits| == SLOTS && ExactPoll(Fixed(), State(), a)
      modifies Repr()
      ensures Valid() && (State(), ret) == Poll(Fixed(), old(State()), a)
    {
      hide TrySend, Feed, Sweep, Keepalive, HasPong, ExactSweep;
      ret := client.TrySendOnce(a.send);
      if ret < 0 {
        return ERROR;
      }
      HandleMessages(a.replies);
      ret := client.LoopOnce(a.visits);
      if ret < 0 {
        return ERROR;
      }
      ret := STAT_OK;
      if client.phase == Connected {
        ret := KeepAlive(a.ping);
      }
    }

    // mqtt_client_tick.
    method TickClient(a: Answers) returns (ret: int)
      requires Valid() && |a.visits| == SLOTS && (Polls(client.phase) ==> ExactPoll(Fixed(), State(), a))
      modifies Repr()
      ensures Valid() && (State(), ret) == ClientTick(Fixed(), old(State()), a)
    {
      hide TcpUp, Poll;
      if last == 0 {
        last := client.tick;
      }
      ret := STAT_OK;
      if client.phase == TcpConnected {
        ret := client.HandleTcpConnected(a.send);
      } else if Polls(client.phase) {
        ret := PollAllEvent(a);
      }
    }

    // sakura_mqtt_client_tick.
    method Tick(now: nat, a: Answers) returns (ret: int)
      requires Valid() && |a.visits| == SLOTS && ExactPass(Fixed(), State(), now, a)
      modifies Repr()
      ensures Valid() && (State(), ret) == Pass(Fixed(), old(State()), now, a)
    {
      hide ClientTick;
      client.tick := now;
      if client.phase == ConnectError {
        return ERROR;
      }
      ret := TickClient(a);
      ret := if ret < 0 || (client.phase == TcpConnecting && now > last + client.timeout) then ERROR else STAT_OK;
    }

    // mqtt_client_reset, with the receive buffer and the ping.
    method Reset()
      requires Valid()
      modifies Repr()
      ensures Valid() && State() == Called(Fixed(), old(State()), DoReset)
    {
      client.ResetClient();
      receiver.len := 0;
      waiting := false;
    }

    // mqtt_disconnect_wrapper, with the receive buffer.
    method Disconnect(cb: bool, ok: bool) returns (ret: int)
      requires Valid()
      modifies Repr()
      ensures Valid() && State() == Called(Fixed(), old(State()), DoDisconnect(cb, ok))
    {
      var connected := client.phase == Connected;
      ret := client.DisconnectClient(cb, ok);
      if connected {
        receiver.len := 0;
      }
    }
  }
}
