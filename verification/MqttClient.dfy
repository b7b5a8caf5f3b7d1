// The MQTT client itself: an array of trackers and two frame buffers, updated in place.
// Every method is proved against the state machine of MqttEngine.
module MqttClient {
  import opened Bytes
  import opened MqttWire
  import opened MqttFrames
  import opened MqttFrameBuffer
  import opened MqttEngine
  import opened MqttRemoval
  import opened MqttExact
  import opened MqttRelease

  // What the release of tracker i leaves of the send buffer, with the bytes b behind it.
  ghost function ReleasedBytes(e: Engine, i: int, b: seq<byte>): Walk
    requires Shaped(e) && IsSlot(i) && AllOk(e.send)
  {
    var waits := e.slots[i].state == MWaiting || e.slots[i].state == MSending;
    if waits then Kept(Flatten(e.send), b, i) else Keeps(Flatten(e.send))
  }

  class Client {
    const trackers: array<Slot>
    const send: FrameBuffer
    const backup: FrameBuffer
    const timeout: nat
    const count: nat
    var nextId: nat
    var tick: nat
    var phase: Phase
    ghost var enqueued: seq<Frame>
    ghost var handed: seq<Frame>
    ghost var delivered: seq<Delivery>

    ghost function Repr(): set<object> {
      {this, trackers, send, send.data, backup, backup.data}
    }

    ghost predicate Valid()
      reads Repr()
    {
      && trackers.Length == SLOTS && send != backup && send.data != backup.data
      && send.Valid() && backup.Valid() && send.size <= 65535 && backup.size <= 65535
    }

    ghost function Cfg(): Config {
      Config(send.size, backup.size, timeout, count)
    }

    ghost function State(): (e: Engine)
      requires Valid()
      reads Repr()
      ensures Shaped(e)
    {
      Engine(trackers[..], send.frames, backup.frames, nextId, tick, phase, enqueued, handed, delivered)
    }

    constructor (sendSize: nat, backupSize: nat, timeoutInterval: nat, redeliverCount: nat)
      requires sendSize <= 65535 && backupSize <= 65535
      ensures Valid() && fresh(Repr()) && Cfg() == Config(sendSize, backupSize, timeoutInterval, redeliverCount)
      ensures State() == Start()
    {
      trackers := new Slot[SLOTS](_ => Slot(MFree, 0, 0, 0, 0, 0, false));
      send := new FrameBuffer(sendSize);
      backup := new FrameBuffer(backupSize);
      timeout, count := timeoutInterval, redeliverCount;
      nextId, tick, phase := 0, 0, NotConnected;
      enqueued, handed, delivered := [], [], [];
    }

    // Free bytes of the send buffer.
    function Free(): (n: nat)
      requires Valid()
      reads Repr()
      ensures n == Room(Cfg(), State())
    {
      send.size - send.len
    }

    // ---------- trackers ----------

    method GetFree() returns (r: int)
      requires Valid()
      ensures r == FreeFrom(State().slots, 0)
    {
      var i := 0;
      while i < SLOTS
        invariant i <= SLOTS && FreeFrom(trackers[..], 0) == FreeFrom(trackers[..], i)
      {
        if trackers[i].state == MFree {
          return i;
        }
        i := i + 1;
      }
      r := -1;
    }

    method GetMatched(awaits: int, id: nat) returns (r: int)
      requires Valid()
      ensures r == MatchFrom(State().slots, awaits, id, 0)
    {
      var i := 0;
      while i < SLOTS
        invariant i <= SLOTS && MatchFrom(trackers[..], awaits, id, 0) == MatchFrom(trackers[..], awaits, id, i)
      {
        if trackers[i].state != MFree && trackers[i].awaits == awaits && trackers[i].id == id {
          return i;
        }
        i := i + 1;
      }
      r := -1;
    }

    method SetTracker(i: int, s: Slot)
      requires Valid() && IsSlot(i)
      modifies trackers
      ensures Valid() && State() == SetSlot(old(State()), i, s)
    {
      trackers[i] := s;
      assert trackers[..] == old(trackers[..])[i := s];
    }

    method Finish(i: int)
      requires Valid() && IsSlot(i)
      modifies trackers
      ensures Valid() && State() == SetSlot(old(State()), i, Finished(old(State()).slots[i]))
    {
      SetTracker(i, trackers[i].(state := if trackers[i].cb then MFinish else MFree));
    }

    // ---------- sending ----------

    method UpdateMsgState(i: int, mtype: nat)
      requires Valid()
      modifies this, trackers
      ensures Valid() && State() == MarkSent(old(State()), i, mtype)
    {
      if IsSlot(i) {
        if trackers[i].awaits == -1 {
          Finish(i);
          if mtype == DISCONNECT {
            phase := NotConnected;
          }
        } else {
          SetTracker(i, trackers[i].(state := MSent));
        }
      }
    }

    // The socket takes the packet or not, as ok says.
    method TrySendOnce(ok: bool) returns (ret: int)
      requires Valid()
      modifies Repr()
      ensures Valid() && (State(), ret) == TrySend(old(State()), ok)
    {
      ret := STAT_OK;
      if send.len > 0 {
        assert send.frames != [];
        var i, mtype, packet := send.Front();
        ghost var f := send.frames[0];
        UpdateMsgState(i, mtype);
        if !ok {
          ret := ERROR;
        }
        handed := handed + [f];
        send.DropFront();
      }
    }

    method Put(i: int, mtype: nat, packet: seq<byte>)
      requires Valid() && FrameOk(Frame(i, mtype, packet)) && HEADER_LEN + |packet| <= Room(Cfg(), State())
      modifies this, send, send.data
      ensures Valid() && State() == Enqueue(old(State()), Frame(i, mtype, packet))
    {
      send.Append(i, mtype, packet);
      enqueued := enqueued + [Frame(i, mtype, packet)];
    }

    method AppendBackup(i: int, mtype: nat, packet: seq<byte>) returns (stored: bool)
      requires Valid() && FrameOk(Frame(i, mtype, packet))
      modifies backup, backup.data
      ensures Valid() && stored == (HEADER_LEN + |packet| <= backup.size - TotalLen(old(backup.frames)))
      ensures State() == if stored then old(State()).(backup := old(State()).backup + [Frame(i, mtype, packet)])
              else old(State())
    {
      stored := HEADER_LEN + |packet| <= backup.size - backup.len;
      if stored {
        backup.Append(i, mtype, packet);
      }
    }

    // mqtt_update_message_state.
    method UpdateMessageState(i: int, s: Slot, packet: seq<byte>)
      requires Valid() && IsSlot(i) && 0 <= s.mtype < 16
      requires 0 < |packet| <= MAX_REMAINING_LENGTH && HEADER_LEN + |packet| <= Room(Cfg(), State())
      modifies Repr()
      ensures Valid() && State() == Register(Cfg(), old(State()), i, s, packet)
    {
      Put(i, s.mtype, packet);
      var stored := false;
      if s.id > 0 {
        stored := AppendBackup(i, s.mtype, packet);
      }
      SetTracker(i, s.(opt := if stored then 16 else 0));
    }

    // ---------- requests ----------

    method GenMessageId() returns (id: nat)
      requires Valid()
      modifies this
      ensures Valid() && id == NextId(old(nextId)) && State() == old(State()).(nextId := id)
    {
      id := if nextId == MAX_MESSAGE_ID then 1 else nextId + 1;
      nextId := id;
    }

    method PlaceRequest(i: int, req: Request, id: nat) returns (ret: int)
      requires Valid() && IsSlot(i) && RequestOk(req)
      modifies Repr()
      ensures Valid() && (State(), ret) == Place(Cfg(), old(State()), i, req, id)
    {
      var packet := RequestPacket(req, id);
      if HEADER_LEN + |packet| > Free() {
        return ERR_BUSY;
      }
      UpdateMessageState(i, RequestSlot(req, id, tick + timeout), packet);
      ret := i;
    }

    // mqtt_pack_publish, mqtt_pack_subscribe and mqtt_pack_unsubscribe.
    method PackRequest(req: Request) returns (ret: int)
      requires Valid() && RequestOk(req)
      modifies Repr()
      ensures Valid() && (State(), ret) == Pack(Cfg(), old(State()), req)
    {
      ghost var e := State();
      var i := GetFree();
      if i < 0 {
        return ERR_BUSY;
      }
      var id := 0;
      if NeedsId(req) {
        id := GenMessageId();
      }
      assert State() == Drawn(e, req) && id == IdFor(e, req);
      ret := PlaceRequest(i, req, id);
    }

    // mqtt_client_publish, mqtt_client_subscribe and mqtt_client_unsubscribe.
    method Request(req: Request, ok: bool) returns (ret: int)
      requires Valid() && RequestOk(req)
      modifies Repr()
      ensures Valid() && (State(), ret) == Submit(Cfg(), old(State()), req, ok)
    {
      if phase != Connected {
        return ERR_REQ_IGN;
      }
      var i := PackRequest(req);
      if i < 0 {
        return ERR_BUSY;
      }
      ret := TrySendOnce(ok);
    }

    // ---------- acknowledgements ----------

    method SendCommonAck(ptype: nat, awaits: int, id: nat, i: int, ok: bool) returns (ret: int)
      requires Valid() && 0 < ptype < 16
      modifies Repr()
      ensures Valid() && (State(), ret) == CommonAck(Cfg(), old(State()), ptype, awaits, id, i, ok)
    {
      var packet := AckPacket(ptype, id);
      if HEADER_LEN + |packet| > Free() {
        return STAT_OK;
      }
      Put(if IsSlot(i) then i else -1, ptype, packet);
      if IsSlot(i) {
        SetTracker(i, trackers[i].(state := MWaiting, awaits := awaits));
      }
      ret := TrySendOnce(ok);
    }

    method HandleAckByType(ptype: nat, id: nat, i: int, ok: bool) returns (ret: int)
      requires Valid() && IsSlot(i)
      modifies Repr()
      ensures Valid() && (State(), ret) == AckByType(Cfg(), old(State()), ptype, id, i, ok)
    {
      if ptype == PUBREC {
        ret := SendCommonAck(PUBREL, PUBCOMP, id, i, ok);
      } else {
        Finish(i);
        ret := STAT_OK;
        if ptype == PUBREL {
          ret := SendCommonAck(PUBCOMP, -1, id, i, ok);
        }
      }
    }

    method RemoveBackup(i: int)
      requires Valid()
      modifies backup, backup.data
      ensures Valid() && State() == old(State()).(backup := RemoveTag(old(State()).backup, i))
    {
      backup.RemoveByTag(i);
    }

    method DiscardBackup(i: int)
      requires Valid() && IsSlot(i)
      modifies Repr()
      ensures Valid() && State() == DropBackup(old(State()), i)
    {
      RemoveBackup(i);
      SetTracker(i, trackers[i].(opt := 0));
    }

    // mqtt_handle_simple_ack.
    method HandleSimpleAck(ptype: nat, id: nat, ok: bool) returns (ret: int)
      requires Valid() && IsAckType(ptype)
      modifies Repr()
      ensures Valid() && (State(), ret) == HandleAck(Cfg(), old(State()), ptype, id, ok)
    {
      var i := GetMatched(ptype, id);
      if i < 0 {
        return ERR_INVALID_ARGS;
      }
      ret := HandleAckByType(ptype, id, i, ok);
      if ret == 0 && trackers[i].opt >= 16 {
        DiscardBackup(i);
      }
    }

    // ---------- inbound PUBLISH ----------

    // mqtt_response_publish, up to the reply.
    method TrackInbound(i: int, id: nat) returns (j: int)
      requires Valid() && (i == -1 || IsSlot(i))
      modifies trackers
      ensures Valid() && (State(), j) == Track(Cfg(), old(State()), i, id)
    {
      j := i;
      if i == -1 {
        j := GetFree();
      }
      if j >= 0 {
        SetTracker(j, InboundSlot(id, tick + timeout));
      }
    }

    method HandleInbound(d: Delivery, ok: bool) returns (ret: int)
      requires Valid() && d.qos <= 2
      modifies Repr()
      ensures Valid() && (State(), ret) == HandlePublish(Cfg(), old(State()), d, ok)
    {
      var i := -1;
      if d.dup && d.qos == 2 {
        i := GetMatched(PUBREL, d.id);
      }
      if i == -1 {
        delivered := delivered + [d];
      }
      ret := STAT_OK;
      if d.qos == 2 {
        var j := TrackInbound(i, d.id);
        ret := SendCommonAck(PUBREC, PUBREL, d.id, j, ok);
      } else if d.qos == 1 {
        ret := SendCommonAck(PUBACK, -1, d.id, -1, ok);
      }
    }

    // mqtt_handle_connack.
    method HandleConnackCode(code: nat) returns (ret: int)
      requires Valid()
      modifies Repr()
      ensures Valid() && (State(), ret) == HandleConnack(old(State()), code)
    {
      if phase != Connecting {
        return ERROR;
      }
      if code == 0 {
        phase := Connected;
      }
      Finish(0);
      ret := STAT_OK;
    }

    // mqtt_message_dispatch.
    method DispatchPacket(packet: seq<byte>, ok: bool) returns (ret: int)
      requires Valid() && WellFormed(packet)
      modifies Repr()
      ensures Valid() && (State(), ret) == Dispatch(Cfg(), old(State()), packet, ok)
    {
      var t := TypeOf(packet[0]);
      var body := packet[1 + ReadMessage(packet).bytes..];
      if t == PUBLISH {
        if QosOf(packet[0]) > 2 {
          return ERR_INVALID_ARGS;
        }
        match ParsePublish(QosOf(packet[0]), body)
        case Rejected => return ERROR;
        case Received(topic, payload, id) =>
          ret := HandleInbound(Delivery(DupOf(packet[0]), QosOf(packet[0]), id, topic, payload), ok);
      } else if t == PINGRESP {
        ret := STAT_OK;
      } else if |body| < 2 {
        ret := ERROR;
      } else if t == CONNACK {
        ret := HandleConnackCode(body[1]);
      } else if IsAckType(t) {
        ret := HandleSimpleAck(t, ReadShort(body), ok);
      } else {
        ret := ERROR;
      }
    }

    // ---------- timeouts and redelivery ----------

    // mqtt_send_backup_message.
    method SendBackupMessage(i: int, ok: bool) returns (ret: int)
      requires Valid() && IsSlot(i)
      modifies Repr()
      ensures Valid() && (State(), ret) == SendBackup(old(State()), Cfg(), i, ok)
    {
      hide TrySend, SetDup, TotalLen, Flatten, FrameOk;
      ghost var e := State();
      var found, at, n := backup.Find(i);
      if !found {
        SetTracker(i, trackers[i].(state := MSent, opt := 0));
        return STAT_OK;
      }
      if Free() < n {
        return STAT_OK;
      }
      ghost var k := FindTag(backup.frames, i);
      var packet := ResendFrame(i, at, k);
      assert State() == SetDupInBackup(e, k);
      ghost var e1 := State();
      Put(packet.tag, packet.mtype, packet.packet);
      assert State() == Enqueue(e1, e1.backup[k]);
      SetTracker(i, trackers[i].(state := MWaiting));
      ret := TrySendOnce(ok);
    }

    // The stored frame at offset at, marked as a duplicate if it is a PUBLISH.
    method ResendFrame(i: int, at: nat, ghost k: nat) returns (f: Frame)
      requires Valid() && k < |backup.frames| && at == TotalLen(backup.frames[..k])
      modifies backup, backup.data
      ensures Valid() && State() == SetDupInBackup(old(State()), k)
      ensures f == backup.frames[k] && FrameOk(f) && FrameLen(f) == FrameLen(old(backup.frames[k]))
    {
      var tag, mtype, packet := backup.FrameFrom(at, k);
      assert FrameOk(backup.frames[k]);
      if mtype == PUBLISH {
        backup.MarkDup(at, k);
        assert backup.frames[..k] == old(backup.frames[..k]);
      }
      tag, mtype, packet := backup.FrameFrom(at, k);
      f := Frame(tag, mtype, packet);
    }

    // mqtt_do_redeliver.
    method DoRedeliverMessage(i: int, ok: bool) returns (ret: int)
      requires Valid() && IsSlot(i)
      modifies Repr()
      ensures Valid() && (State(), ret) == DoRedeliver(Cfg(), old(State()), i, ok)
    {
      var x := trackers[i].awaits;
      if x == PUBACK || x == PUBREC || x == SUBACK || x == UNSUBACK {
        ret := SendBackupMessage(i, ok);
      } else if x == PUBCOMP {
        ret := SendCommonAck(PUBREL, PUBCOMP, trackers[i].id, i, ok);
      } else {
        ret := STAT_OK;
      }
    }

    // mqtt_redeliver_message.
    method RedeliverMessage(i: int, ok: bool) returns (ret: int)
      requires Valid() && IsSlot(i)
      modifies Repr()
      ensures Valid() && (State(), ret) == Redeliver(Cfg(), old(State()), i, ok)
    {
      var s := trackers[i];
      if s.state == MSent || s.state == MRedeliver {
        SetTracker(i, s.(opt := s.opt + 1, state := MRedeliver));
        ret := DoRedeliverMessage(i, ok);
      } else {
        SetTracker(i, s.(opt := s.opt + 1));
        ret := STAT_OK;
      }
    }

    // The state after the release of tracker i of e: that of the engine, but for the bytes
    // of the send buffer.
    ghost predicate Released(e: Engine, i: int, bytes: seq<byte>)
      requires Shaped(e) && IsSlot(i)
      reads Repr()
    {
      var r := Release(e, i);
      && send.len <= send.data.Length && send.data[..send.len] == bytes
      && Engine(trackers[..], r.send, backup.frames, nextId, tick, phase, enqueued, handed, delivered) == r
    }

    // The tracker is freed, whatever has become of the send buffer.
    method FreeTracker(i: int)
      requires trackers.Length == SLOTS && IsSlot(i) && backup.Valid()
      requires send != backup && send.data != backup.data
      modifies this`phase, trackers, backup, backup.data
      ensures backup.Valid() && trackers[..] == old(trackers[..])[i := old(trackers[i]).(state := MFree)]
      ensures backup.frames == if Flagged(old(trackers[i])) then RemoveTag(old(backup.frames), i)
                               else old(backup.frames)
      ensures phase == if old(trackers[i]).awaits == CONNACK then ConnectError else old(phase)
    {
      if trackers[i].opt >= 16 {
        backup.RemoveByTag(i);
      }
      if trackers[i].awaits == CONNACK {
        phase := ConnectError;
      }
      trackers[i] := trackers[i].(state := MFree);
    }

    // The release branch of mqtt_handle_timeout, whatever the scan does to the send buffer;
    // ends is false if the scan goes round for ever.
    method ReleaseTracker(i: int) returns (ends: bool)
      requires Valid() && IsSlot(i)
      modifies Repr()
      ensures var w := ReleasedBytes(old(State()), i, old(send.data[send.len..]));
              ends == w.Keeps? && (ends ==> Released(old(State()), i, w.bytes))
      ensures ExactRelease(old(State()), i) ==> ends && Valid() && State() == Release(old(State()), i)
    {
      hide Kept, ExactOn, RemoveTag, WithoutTag, Flatten;
      ends := true;
      if trackers[i].state == MWaiting || trackers[i].state == MSending {
        ends := send.RemoveQueued(i);
        if !ends {
          return;
        }
      }
      FreeTracker(i);
    }

    // mqtt_handle_timeout.
    method HandleTimeoutOf(i: int, ok: bool) returns (ends: bool, ret: int)
      requires Valid() && IsSlot(i)
      modifies Repr()
      ensures CanRedeliver(Cfg(), old(State()).slots[i]) || ExactRelease(old(State()), i) ==>
                ends && Valid() && (State(), ret) == HandleTimeout(Cfg(), old(State()), i, ok)
      ensures var w := ReleasedBytes(old(State()), i, old(send.data[send.len..]));
              !CanRedeliver(Cfg(), old(State()).slots[i]) ==>
                ends == w.Keeps? && (ends ==> ret == STAT_OK && Released(old(State()), i, w.bytes))
    {
      hide ExactRelease, Released, ReleasedBytes;
      var s := trackers[i];
      ends, ret := true, STAT_OK;
      if (s.opt >= 16 || s.awaits == PUBCOMP) && Count(s) < count {
        SetTracker(i, s.(expired := tick + timeout));
        ret := RedeliverMessage(i, ok);
      } else {
        ends := ReleaseTracker(i);
      }
    }

    // mqtt_loop_once for one tracker; ends is false if its release goes round for ever.
    method Visit(i: int, ok: bool) returns (ends: bool, ret: int)
      requires Valid() && IsSlot(i)
      modifies Repr()
      ensures ExactVisit(Cfg(), old(State()), i) ==>
                ends && Valid() && (State(), ret) == VisitSlot(Cfg(), old(State()), i, ok)
      ensures var w := ReleasedBytes(old(State()), i, old(send.data[send.len..]));
              Releases(Cfg(), old(State()), i) ==>
                ends == w.Keeps? && (ends ==> ret == STAT_OK && Released(old(State()), i, w.bytes))
    {
      hide ExactRelease, Released, ReleasedBytes;
      ends, ret := true, STAT_OK;
      var s := trackers[i];
      if s.state == MFree {
      } else if s.state == MFinish {
        SetTracker(i, s.(state := MFree));
        if s.mtype == DISCONNECT {
          phase := NotConnected;
        }
      } else if tick > s.expired {
        ends, ret := HandleTimeoutOf(i, ok);
      } else if s.state == MRedeliver && Count(s) < count {
        ret := DoRedeliverMessage(i, ok);
      }
    }

    method VisitNext(k: int, oks: seq<bool>) returns (ret: int)
      requires Valid() && IsSlot(k) && |oks| == SLOTS && ExactSweep(Cfg(), State(), k, oks)
      modifies Repr()
      ensures Valid() && (ret == STAT_OK || ret < 0)
      ensures Sweep(Cfg(), old(State()), k, oks)
              == if ret < 0 then (State(), ret) else Sweep(Cfg(), State(), k + 1, oks)
      ensures ret >= 0 ==> ExactSweep(Cfg(), State(), k + 1, oks)
    {
      hide ExactVisit, Released, ReleasedBytes;
      var ends;
      ends, ret := Visit(k, oks[k]);
    }

    // mqtt_loop_once: visit the trackers in order until one fails. oks[i] is the answer
    // of the socket should tracker i send. No release cuts a queued message.
    method LoopOnce(oks: seq<bool>) returns (ret: int)
      requires Valid() && |oks| == SLOTS && ExactSweep(Cfg(), State(), 0, oks)
      modifies Repr()
      ensures Valid() && (State(), ret) == Sweep(Cfg(), old(State()), 0, oks)
    {
      hide ExactSweep;
      ret := STAT_OK;
      var i := 0;
      ghost var whole := Sweep(Cfg(), State(), 0, oks);
      while ret >= 0 && i < SLOTS
        invariant 0 <= i <= SLOTS && Valid() && (ret == STAT_OK || ret < 0)
        invariant whole == if ret < 0 then (State(), ret) else Sweep(Cfg(), State(), i, oks)
        invariant ret >= 0 ==> ExactSweep(Cfg(), State(), i, oks)
      {
        ret := VisitNext(i, oks);
        i := i + 1;
      }
    }

    // ---------- connection ----------

    // Connect: tracker 0 is taken; started tells whether TCP began to connect.
    method ConnectClient(packet: seq<byte>, cb: bool, started: bool) returns (ret: int)
      requires Valid() && 0 < |packet| <= MAX_REMAINING_LENGTH
      modifies Repr()
      ensures Valid() && (State(), ret) == Connect(Cfg(), old(State()), packet, cb, started)
    {
      if HEADER_LEN + |packet| > Free() {
        return ERROR;
      }
      UpdateMessageState(0, Slot(MWaiting, CONNECT, CONNACK, 0, 0, 0, cb), packet);
      if !started {
        return ERROR;
      }
      phase := TcpConnecting;
      ret := STAT_OK;
    }

    // mqtt_handle_tcp_connected.
    method HandleTcpConnected(ok: bool) returns (ret: int)
      requires Valid()
      modifies Repr()
      ensures Valid() && (State(), ret) == TcpUp(Cfg(), old(State()), ok)
    {
      if phase != TcpConnected {
        return STAT_OK;
      }
      if trackers[0].awaits == CONNACK && trackers[0].expired == 0 && trackers[0].state != MFree {
        SetTracker(0, trackers[0].(expired := tick + timeout));
      }
      ret := TrySendOnce(ok);
      if ret >= 0 {
        phase := Connecting;
      }
    }

    method ClearTrackers()
      requires Valid()
      modifies trackers
      ensures Valid() && send.frames == old(send.frames) && backup.frames == old(backup.frames)
      ensures forall i :: 0 <= i < SLOTS ==> trackers[i] == old(trackers[i]).(state := MFree)
    {
      for i := 0 to SLOTS
        invariant forall j :: 0 <= j < i ==> trackers[j] == old(trackers[j]).(state := MFree)
        invariant forall j :: i <= j < SLOTS ==> trackers[j] == old(trackers[j])
      {
        trackers[i] := trackers[i].(state := MFree);
      }
    }

    // mqtt_try_clear_send_buffer and clear_message_tracker_array.
    method ClearAll()
      requires Valid()
      modifies Repr()
      ensures Valid() && State() == ClearBuffers(old(State()))
    {
      ghost var e := State();
      if send.len > 0 {
        assert send.frames != [];
        var i, mtype, packet := send.Front();
        assert FrameOk(send.frames[0]);
        var keep := i == -1 || (IsSlot(i) && trackers[i].state == MSending);
        send.Clear();
        if keep {
          send.Append(-1, mtype, packet);
        }
      }
      backup.Clear();
      ClearTrackers();
      assert trackers[..] == ClearBuffers(e).slots;
    }

    // mqtt_disconnect_wrapper.
    method DisconnectClient(cb: bool, ok: bool) returns (ret: int)
      requires Valid()
      modifies Repr()
      ensures Valid() && (State(), ret) == Disconnect(Cfg(), old(State()), cb, ok)
    {
      if phase == NotConnected || phase == Disconnecting {
        return ERR_REQ_IGN;
      }
      ret := STAT_OK;
      if phase == Connected {
        ClearAll();
        ret := SayGoodbye(cb, ok);
        if ret < 0 {
          return;
        }
      }
      phase := Disconnecting;
    }

    method SayGoodbye(cb: bool, ok: bool) returns (ret: int)
      requires Valid()
      modifies Repr()
      ensures Valid() && (State(), ret) == Goodbye(Cfg(), old(State()), cb, ok)
    {
      var packet := EmptyPacket(DISCONNECT);
      if HEADER_LEN + |packet| > Free() {
        return ERROR;
      }
      UpdateMessageState(0, Slot(MWaiting, DISCONNECT, -1, 0, 0, tick + timeout, cb), packet);
      ret := TrySendOnce(ok);
    }

    // mqtt_client_reset.
    method ResetClient()
      requires Valid()
      modifies Repr()
      ensures Valid() && State() == Reset(old(State()))
    {
      ClearAll();
      phase := NotConnected;
    }

    // mqtt_send_pingreq.
    method SendPing(ok: bool) returns (ret: int)
      requires Valid()
      modifies Repr()
      ensures Valid() && (State(), ret) == Ping(Cfg(), old(State()), ok)
    {
      var packet := EmptyPacket(PINGREQ);
      if HEADER_LEN + |packet| > Free() {
        return ERR_REQ_IGN;
      }
      Put(-1, PINGREQ, packet);
      ret := TrySendOnce(ok);
    }
  }

  // ---------- the methods are steps ----------

  // Dispatching a packet is at most one step of the state machine.
  lemma DispatchIsStep(cfg: Config, e: Engine, packet: seq<byte>, ok: bool) returns (steps: seq<Step>)
    requires Shaped(e) && WellFormed(packet)
    ensures |steps| <= 1 && LegalRun(cfg, e, steps) && Run(cfg, e, steps) == Dispatch(cfg, e, packet, ok).0
    ensures forall s :: s in steps ==> s.InConnack? || s.InPublish? || s.InAck?
  {
    var t := TypeOf(packet[0]);
    var body := packet[1 + ReadMessage(packet).bytes..];
    var q := QosOf(packet[0]);
    steps := [];
    if t == CONNACK && e.phase == Connecting && |body| >= 2 {
      steps := [InConnack(body[1])];
    } else if t == PUBLISH && q <= 2 && ParsePublish(q, body).Received? {
      var p := ParsePublish(q, body);
      steps := [InPublish(Delivery(DupOf(packet[0]), q, p.id, p.topic, p.payload), ok)];
    } else if IsAckType(t) && |body| >= 2 {
      steps := [InAck(t, ReadShort(body), ok)];
    }
    if steps != [] {
      assert steps[1..] == [] && Legal(e, steps[0]);
      assert LegalRun(cfg, Next(cfg, e, steps[0]), []);
      assert Next(cfg, e, steps[0]) == Dispatch(cfg, e, packet, ok).0;
    }
  }

  lemma StepThenRun(cfg: Config, e: Engine, s: Step, e1: Engine, rest: seq<Step>)
    requires Shaped(e) && Legal(e, s) && e1 == Next(cfg, e, s) && LegalRun(cfg, e1, rest)
    ensures LegalRun(cfg, e, [s] + rest) && Run(cfg, e, [s] + rest) == Run(cfg, e1, rest)
  {
    assert ([s] + rest)[1..] == rest;
  }

  function Visits(k: nat, n: nat, oks: seq<bool>): (steps: seq<Step>)
    requires k + n <= |oks|
    ensures |steps| == n
    decreases n
  {
    if n == 0 then [] else [DoVisit(k, oks[k])] + Visits(k + 1, n - 1, oks)
  }

  ghost predicate Swept(cfg: Config, e: Engine, k: nat, oks: seq<bool>, n: nat, r: Engine)
    requires Shaped(e)
  {
    k + n <= |oks| && LegalRun(cfg, e, Visits(k, n, oks)) && Run(cfg, e, Visits(k, n, oks)) == r
  }

  lemma SweptOne(cfg: Config, e: Engine, k: nat, oks: seq<bool>, n: nat, e1: Engine, r: Engine)
    requires Shaped(e) && k < SLOTS && |oks| == SLOTS && e1 == VisitSlot(cfg, e, k, oks[k]).0
    requires Swept(cfg, e1, k + 1, oks, n, r)
    ensures Swept(cfg, e, k, oks, n + 1, r)
  {
    StepThenRun(cfg, e, DoVisit(k, oks[k]), e1, Visits(k + 1, n, oks));
  }

  // A pass of the main loop over the trackers is a run of visits, one after the other,
  // as far as it gets.
  lemma {:induction false} SweepIsRun(cfg: Config, e: Engine, k: nat, oks: seq<bool>) returns (n: nat)
    requires Shaped(e) && k <= SLOTS && |oks| == SLOTS
    ensures Swept(cfg, e, k, oks, n, Sweep(cfg, e, k, oks).0)
    ensures Sweep(cfg, e, k, oks).1 >= 0 ==> k + n == SLOTS
    decreases SLOTS - k
  {
    n := 0;
    if k < SLOTS {
      var v := VisitSlot(cfg, e, k, oks[k]);
      if v.1 >= 0 {
        n := SweepIsRun(cfg, v.0, k + 1, oks);
      }
      SweptOne(cfg, e, k, oks, n, v.0, Sweep(cfg, e, k, oks).0);
      n := n + 1;
    }
  }
}
