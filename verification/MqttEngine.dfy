// The MQTT client engine as a state machine: 24 message trackers, a send buffer and a
// backup buffer of frames. Each API call, inbound packet, slot visit of the main loop
// and socket send is one function from state to state; sockets answer as told.
module MqttEngine {
  import opened Bytes
  import opened MqttConnect
  import opened MqttWire
  import opened MqttFrames

  const MAX_MESSAGE_ID := 65535

  const STAT_OK := 0
  const ERROR := -1
  const ERR_INVALID_ARGS := -3
  const ERR_BUSY := -4
  const ERR_REQ_IGN := -5

  datatype MsgState = MFree | MFinish | MRedeliver | MWaiting | MSending | MSent

  // opt is redeliver_opt: the backup flag in the high nibble, the number of
  // redeliveries in the low one. awaits is -1 when no answer is expected.
  datatype Slot = Slot(state: MsgState, mtype: int, awaits: int, opt: nat, id: nat, expired: nat, cb: bool)

  datatype Phase = NotConnected | TcpConnecting | TcpConnected | Connecting | Connected | Disconnecting | ConnectError

  datatype Delivery = Delivery(dup: bool, qos: nat, id: nat, topic: seq<byte>, payload: seq<byte>)

  datatype Config = Config(sendSize: nat, backupSize: nat, timeout: nat, count: nat)

  // enqueued, handed and delivered record the frames put into the send buffer, the
  // frames handed to the socket and the calls of the message callback.
  datatype Engine = Engine(slots: seq<Slot>, send: seq<Frame>, backup: seq<Frame>, nextId: nat, tick: nat, phase: Phase,
                           enqueued: seq<Frame>, handed: seq<Frame>, delivered: seq<Delivery>)

  predicate Flagged(s: Slot) {
    s.opt >= 16
  }

  function Count(s: Slot): nat {
    s.opt % 16
  }

  predicate IsSlot(i: int) {
    0 <= i < SLOTS
  }

  predicate Shaped(e: Engine) {
    |e.slots| == SLOTS
  }

  function SetSlot(e: Engine, i: int, s: Slot): (r: Engine)
    requires Shaped(e) && IsSlot(i)
    ensures Shaped(r)
  {
    e.(slots := e.slots[i := s])
  }

  function FreeFrom(slots: seq<Slot>, k: nat): (r: int)
    requires k <= |slots|
    ensures r == -1 || k <= r < |slots|
    ensures r >= 0 ==> slots[r].state == MFree
    ensures forall j :: k <= j < |slots| && (r >= 0 ==> j < r) ==> slots[j].state != MFree
    decreases |slots| - k
  {
    if k == |slots| then -1 else if slots[k].state == MFree then k else FreeFrom(slots, k + 1)
  }

  predicate Matches(s: Slot, awaits: int, id: nat) {
    s.state != MFree && s.awaits == awaits && s.id == id
  }

  function MatchFrom(slots: seq<Slot>, awaits: int, id: nat, k: nat): (r: int)
    requires k <= |slots|
    ensures r == -1 || k <= r < |slots|
    ensures r >= 0 ==> Matches(slots[r], awaits, id)
    ensures forall j :: k <= j < |slots| && (r >= 0 ==> j < r) ==> !Matches(slots[j], awaits, id)
    decreases |slots| - k
  {
    if k == |slots| then -1 else if Matches(slots[k], awaits, id) then k else MatchFrom(slots, awaits, id, k + 1)
  }

  // ---------- sending ----------

  function Room(cfg: Config, e: Engine): int {
    cfg.sendSize - TotalLen(e.send)
  }

  function Enqueue(e: Engine, f: Frame): Engine {
    e.(send := e.send + [f], enqueued := e.enqueued + [f])
  }

  function Finished(s: Slot): Slot {
    s.(state := if s.cb then MFinish else MFree)
  }

  // mqtt_update_msg_state: the frame tagged i has left.
  function MarkSent(e: Engine, i: int, mtype: nat): (r: Engine)
    requires Shaped(e)
    ensures Shaped(r)
  {
    if !IsSlot(i) then e
    else
      var s := e.slots[i];
      if s.awaits != -1 then SetSlot(e, i, s.(state := MSent))
      else if mtype == DISCONNECT then SetSlot(e, i, Finished(s)).(phase := NotConnected)
      else SetSlot(e, i, Finished(s))
  }

  // mqtt_try_send: the first frame goes to the socket and leaves the buffer whether or
  // not the socket takes it.
  function TrySend(e: Engine, ok: bool): (r: (Engine, int))
    requires Shaped(e)
    ensures Shaped(r.0)
    ensures r.1 == 0 || r.1 == ERROR
  {
    if e.send == [] then (e, STAT_OK)
    else
      var f := e.send[0];
      var e1 := MarkSent(e, f.tag, f.mtype);
      (e1.(send := e.send[1..], handed := e.handed + [f]), if ok then STAT_OK else ERROR)
  }

  // mqtt_update_message_state: append a frame, back it up if it has an id and the
  // backup buffer has room, and set the tracker.
  function Register(cfg: Config, e: Engine, i: int, s: Slot, packet: seq<byte>): (r: Engine)
    requires Shaped(e) && IsSlot(i) && 0 <= s.mtype
    ensures Shaped(r)
  {
    var f := Frame(i, s.mtype, packet);
    var stored := s.id > 0 && FrameLen(f) <= cfg.backupSize - TotalLen(e.backup);
    var e1 := Enqueue(e, f);
    SetSlot(if stored then e1.(backup := e1.backup + [f]) else e1, i, s.(opt := if stored then 16 else 0))
  }

  // ---------- requests ----------

  datatype Request =
    | PublishReq(qos: nat, retain: bool, topic: seq<byte>, payload: seq<byte>, pubCb: bool)
    | SubscribeReq(filters: seq<(seq<byte>, byte)>)
    | UnsubscribeReq(names: seq<seq<byte>>, unsubCb: bool)

  predicate RequestOk(req: Request) {
    req.PublishReq? ==> req.qos <= 2
  }

  function Names(names: seq<seq<byte>>): seq<byte> {
    if names == [] then [] else Str(names[0]) + Names(names[1..])
  }

  function RequestPacket(req: Request, id: nat): (p: seq<byte>)
    requires RequestOk(req)
  {
    match req
    case PublishReq(qos, retain, topic, payload, _) => PublishPacket(false, qos, retain, id, topic, payload)
    case SubscribeReq(filters) => SubscribePacket(id, filters)
    case UnsubscribeReq(names, _) => Packet(HeaderByte(UNSUBSCRIBE, false, 1, false), Short(id) + Names(names))
  }

  predicate NeedsId(req: Request) {
    req.PublishReq? ==> req.qos > 0
  }

  function RequestSlot(req: Request, id: nat, expired: nat): (s: Slot)
    ensures 0 < s.mtype < 16 && s.id == id && s.state == MWaiting && s.expired == expired && s.opt == 0
    ensures s.mtype != DISCONNECT && s.awaits != PUBREL && (s.awaits == -1 ==> !NeedsId(req))
  {
    match req
    case PublishReq(qos, _, _, _, cb) =>
      Slot(MWaiting, PUBLISH, if qos == 0 then -1 else if qos == 1 then PUBACK else PUBREC, 0, id, expired, cb)
    case SubscribeReq(_) => Slot(MWaiting, SUBSCRIBE, SUBACK, 0, id, expired, false)
    case UnsubscribeReq(_, cb) => Slot(MWaiting, UNSUBSCRIBE, UNSUBACK, 0, id, expired, cb)
  }

  function NextId(id: nat): (r: nat)
    ensures 1 <= r && (id <= MAX_MESSAGE_ID ==> r <= MAX_MESSAGE_ID)
  {
    if id == MAX_MESSAGE_ID then 1 else id + 1
  }

  function IdFor(e: Engine, req: Request): (id: nat)
    ensures e.nextId <= MAX_MESSAGE_ID ==> id <= MAX_MESSAGE_ID
    ensures id > 0 <==> NeedsId(req)
  {
    if NeedsId(req) then NextId(e.nextId) else 0
  }

  function Drawn(e: Engine, req: Request): Engine {
    if NeedsId(req) then e.(nextId := NextId(e.nextId)) else e
  }

  function Place(cfg: Config, e: Engine, i: int, req: Request, id: nat): (r: (Engine, int))
    requires Shaped(e) && IsSlot(i) && RequestOk(req)
    ensures Shaped(r.0)
  {
    var packet := RequestPacket(req, id);
    if HEADER_LEN + |packet| > Room(cfg, e) then (e, ERR_BUSY)
    else (Register(cfg, e, i, RequestSlot(req, id, e.tick + cfg.timeout), packet), i)
  }

  // mqtt_pack_publish, mqtt_pack_subscribe and mqtt_pack_unsubscribe. The id is drawn
  // before the packet is known to fit.
  function Pack(cfg: Config, e: Engine, req: Request): (r: (Engine, int))
    requires Shaped(e) && RequestOk(req)
    ensures Shaped(r.0)
  {
    var i := FreeFrom(e.slots, 0);
    if i < 0 then (e, ERR_BUSY) else Place(cfg, Drawn(e, req), i, req, IdFor(e, req))
  }

  // mqtt_client_publish, mqtt_client_subscribe and mqtt_client_unsubscribe.
  function Submit(cfg: Config, e: Engine, req: Request, ok: bool): (r: (Engine, int))
    requires Shaped(e) && RequestOk(req)
    ensures Shaped(r.0)
  {
    if e.phase != Connected then (e, ERR_REQ_IGN)
    else
      var (e1, i) := Pack(cfg, e, req);
      if i < 0 then (e1, ERR_BUSY) else TrySend(e1, ok)
  }

  // ---------- acknowledgements ----------

  // mqtt_send_common_ack: no room is not an error; the tracker is then left alone.
  function CommonAck(cfg: Config, e: Engine, ptype: nat, awaits: int, id: nat, i: int, ok: bool): (r: (Engine, int))
    requires Shaped(e) && 0 < ptype < 16
    ensures Shaped(r.0)
    ensures r.1 == 0 || r.1 == ERROR
  {
    var packet := AckPacket(ptype, id);
    if HEADER_LEN + |packet| > Room(cfg, e) then (e, STAT_OK)
    else
      var e1 := Enqueue(e, Frame(if IsSlot(i) then i else -1, ptype, packet));
      var e2 := if IsSlot(i) then SetSlot(e1, i, e1.slots[i].(state := MWaiting, awaits := awaits)) else e1;
      TrySend(e2, ok)
  }

  // mqtt_handle_ack_by_type for the slot that expects this packet.
  function AckByType(cfg: Config, e: Engine, ptype: nat, id: nat, i: int, ok: bool): (r: (Engine, int))
    requires Shaped(e) && IsSlot(i)
    ensures Shaped(r.0)
  {
    if ptype == PUBREC then CommonAck(cfg, e, PUBREL, PUBCOMP, id, i, ok)
    else
      var e1 := SetSlot(e, i, Finished(e.slots[i]));
      if ptype == PUBREL then CommonAck(cfg, e1, PUBCOMP, -1, id, i, ok)
      else (e1, STAT_OK)
  }

  function DropBackup(e: Engine, i: int): (r: Engine)
    requires Shaped(e) && IsSlot(i)
    ensures Shaped(r)
  {
    SetSlot(e, i, e.slots[i].(opt := 0)).(backup := RemoveTag(e.backup, i))
  }

  predicate IsAckType(ptype: nat) {
    ptype == PUBACK || ptype == PUBREC || ptype == PUBREL || ptype == PUBCOMP || ptype == SUBACK || ptype == UNSUBACK
  }

  // mqtt_handle_simple_ack: a successful acknowledgement discards the backup.
  function HandleAck(cfg: Config, e: Engine, ptype: nat, id: nat, ok: bool): (r: (Engine, int))
    requires Shaped(e) && IsAckType(ptype)
    ensures Shaped(r.0)
  {
    var i := MatchFrom(e.slots, ptype, id, 0);
    if i < 0 then (e, ERR_INVALID_ARGS)
    else
      var (e1, ret) := AckByType(cfg, e, ptype, id, i, ok);
      if ret == 0 && Flagged(e1.slots[i]) then (DropBackup(e1, i), ret) else (e1, ret)
  }

  // ---------- inbound PUBLISH ----------

  function InboundSlot(id: nat, expired: nat): Slot {
    Slot(MWaiting, 0, PUBREL, 0, id, expired, false)
  }

  // mqtt_response_publish for QoS 2: track the exchange if a slot is to be had.
  function Track(cfg: Config, e: Engine, i: int, id: nat): (r: (Engine, int))
    requires Shaped(e) && (i == -1 || IsSlot(i))
    ensures Shaped(r.0) && (r.1 == -1 || IsSlot(r.1))
  {
    var j := if i == -1 then FreeFrom(e.slots, 0) else i;
    (if j < 0 then e else SetSlot(e, j, InboundSlot(id, e.tick + cfg.timeout)), j)
  }

  // The slot of the exchange a duplicate belongs to, or -1.
  function DuplicateOf(e: Engine, d: Delivery): (i: int)
    requires Shaped(e)
    ensures i == -1 || IsSlot(i)
  {
    if d.dup && d.qos == 2 then MatchFrom(e.slots, PUBREL, d.id, 0) else -1
  }

  // mqtt_handle_publish after parsing: report unless it is a known duplicate, respond.
  function HandlePublish(cfg: Config, e: Engine, d: Delivery, ok: bool): (r: (Engine, int))
    requires Shaped(e) && d.qos <= 2
    ensures Shaped(r.0)
  {
    var i := DuplicateOf(e, d);
    var e1 := if i == -1 then e.(delivered := e.delivered + [d]) else e;
    if d.qos == 2 then
      var (e2, j) := Track(cfg, e1, i, d.id);
      CommonAck(cfg, e2, PUBREC, PUBREL, d.id, j, ok)
    else if d.qos == 1 then CommonAck(cfg, e1, PUBACK, -1, d.id, -1, ok)
    else (e1, STAT_OK)
  }

  // ---------- timeouts and redelivery ----------

  function SetDupInBackup(e: Engine, k: nat): Engine
    requires k < |e.backup|
  {
    var f := e.backup[k];
    if f.mtype == PUBLISH && |f.packet| > 0 then e.(backup := e.backup[k := f.(packet := SetDup(f.packet))]) else e
  }

  // mqtt_send_backup_message: without room try again later; without a backup give up.
  function SendBackup(e: Engine, cfg: Config, i: int, ok: bool): (r: (Engine, int))
    requires Shaped(e) && IsSlot(i)
    ensures Shaped(r.0) && (r.1 == 0 || r.1 == ERROR)
  {
    var k := FindTag(e.backup, i);
    if k == |e.backup| then (SetSlot(e, i, e.slots[i].(state := MSent, opt := 0)), STAT_OK)
    else if Room(cfg, e) < FrameLen(e.backup[k]) then (e, STAT_OK)
    else
      var e1 := SetDupInBackup(e, k);
      var e2 := Enqueue(e1, e1.backup[k]);
      TrySend(SetSlot(e2, i, e2.slots[i].(state := MWaiting)), ok)
  }

  // mqtt_do_redeliver: the stored packet, or PUBREL once PUBREC has arrived.
  function DoRedeliver(cfg: Config, e: Engine, i: int, ok: bool): (r: (Engine, int))
    requires Shaped(e) && IsSlot(i)
    ensures Shaped(r.0) && (r.1 == 0 || r.1 == ERROR)
  {
    var x := e.slots[i].awaits;
    if x == PUBACK || x == PUBREC || x == SUBACK || x == UNSUBACK then SendBackup(e, cfg, i, ok)
    else if x == PUBCOMP then CommonAck(cfg, e, PUBREL, PUBCOMP, e.slots[i].id, i, ok)
    else (e, STAT_OK)
  }

  predicate CanRedeliver(cfg: Config, s: Slot) {
    (Flagged(s) || s.awaits == PUBCOMP) && Count(s) < cfg.count
  }

  // The release branch of mqtt_handle_timeout. The backup flag stays behind in the
  // released slot.
  function Release(e: Engine, i: int): (r: Engine)
    requires Shaped(e) && IsSlot(i)
    ensures Shaped(r)
  {
    var s := e.slots[i];
    var e1 := if s.state == MWaiting || s.state == MSending then e.(send := WithoutTag(e.send, i)) else e;
    var e2 := if Flagged(s) then e1.(backup := RemoveTag(e1.backup, i)) else e1;
    SetSlot(if s.awaits == CONNACK then e2.(phase := ConnectError) else e2, i, s.(state := MFree))
  }

  // mqtt_redeliver_message: count the attempt; a message still queued is not sent again.
  function Redeliver(cfg: Config, e: Engine, i: int, ok: bool): (r: (Engine, int))
    requires Shaped(e) && IsSlot(i)
    ensures Shaped(r.0) && (r.1 == 0 || r.1 == ERROR)
  {
    var s := e.slots[i];
    if s.state == MSent || s.state == MRedeliver
    then DoRedeliver(cfg, SetSlot(e, i, s.(opt := s.opt + 1, state := MRedeliver)), i, ok)
    else (SetSlot(e, i, s.(opt := s.opt + 1)), STAT_OK)
  }

  // mqtt_handle_timeout.
  function HandleTimeout(cfg: Config, e: Engine, i: int, ok: bool): (r: (Engine, int))
    requires Shaped(e) && IsSlot(i)
    ensures Shaped(r.0) && (r.1 == 0 || r.1 == ERROR)
  {
    var s := e.slots[i];
    if CanRedeliver(cfg, s) then Redeliver(cfg, SetSlot(e, i, s.(expired := e.tick + cfg.timeout)), i, ok)
    else (Release(e, i), STAT_OK)
  }

  // What mqtt_loop_once does for one slot.
  function VisitSlot(cfg: Config, e: Engine, i: int, ok: bool): (r: (Engine, int))
    requires Shaped(e) && IsSlot(i)
    ensures Shaped(r.0) && (r.1 == 0 || r.1 == ERROR)
  {
    var s := e.slots[i];
    if s.state == MFree then (e, STAT_OK)
    else if s.state == MFinish then
      var e1 := SetSlot(e, i, s.(state := MFree));
      (if s.mtype == DISCONNECT then e1.(phase := NotConnected) else e1, STAT_OK)
    else if e.tick > s.expired then HandleTimeout(cfg, e, i, ok)
    else if s.state == MRedeliver && Count(s) < cfg.count then DoRedeliver(cfg, e, i, ok)
    else (e, STAT_OK)
  }

  // A slot visit releases slot i by timeout.
  predicate Releases(cfg: Config, e: Engine, i: int)
    requires Shaped(e) && IsSlot(i)
  {
    var s := e.slots[i];
    s.state != MFree && s.state != MFinish && e.tick > s.expired && !CanRedeliver(cfg, s)
  }

  // ---------- connection ----------

  // mqtt_client_connect and the TCP connect behind it: tracker 0 is taken whatever it
  // holds, and the packet stays queued even if TCP does not start.
  function Connect(cfg: Config, e: Engine, packet: seq<byte>, cb: bool, started: bool): (r: (Engine, int))
    requires Shaped(e)
    ensures Shaped(r.0)
  {
    if HEADER_LEN + |packet| > Room(cfg, e) then (e, ERROR)
    else
      var e1 := Register(cfg, e, 0, Slot(MWaiting, CONNECT, CONNACK, 0, 0, 0, cb), packet);
      if started then (e1.(phase := TcpConnecting), STAT_OK) else (e1, ERROR)
  }

  // The deadline of a waiting CONNECT starts when TCP is up.
  function ConnectTimed(cfg: Config, e: Engine): (r: Engine)
    requires Shaped(e)
    ensures Shaped(r)
  {
    var s := e.slots[0];
    if s.awaits == CONNACK && s.expired == 0 && s.state != MFree
    then SetSlot(e, 0, s.(expired := e.tick + cfg.timeout)) else e
  }

  // mqtt_handle_tcp_connected.
  function TcpUp(cfg: Config, e: Engine, ok: bool): (r: (Engine, int))
    requires Shaped(e)
    ensures Shaped(r.0)
  {
    if e.phase != TcpConnected then (e, STAT_OK)
    else
      var (e1, ret) := TrySend(ConnectTimed(cfg, e), ok);
      if ret < 0 then (e1, ERROR) else (e1.(phase := Connecting), STAT_OK)
  }

  // mqtt_try_clear_send_buffer and clear_message_tracker_array. A first frame without
  // a tracker is kept.
  function ClearBuffers(e: Engine): (r: Engine)
    requires Shaped(e)
    ensures Shaped(r)
  {
    var keep := e.send != [] &&
      (e.send[0].tag == -1 || (IsSlot(e.send[0].tag) && e.slots[e.send[0].tag].state == MSending));
    e.(send := if keep then [e.send[0].(tag := -1)] else [], backup := [],
       slots := seq(SLOTS, (i: nat) requires i < SLOTS => e.slots[i].(state := MFree)))
  }

  // mqtt_disconnect_wrapper and mqtt_client_disconnect.
  function Disconnect(cfg: Config, e: Engine, cb: bool, ok: bool): (r: (Engine, int))
    requires Shaped(e)
    ensures Shaped(r.0)
  {
    if e.phase == NotConnected || e.phase == Disconnecting then (e, ERR_REQ_IGN)
    else if e.phase != Connected then (e.(phase := Disconnecting), STAT_OK)
    else
      var (r, ret) := Goodbye(cfg, ClearBuffers(e), cb, ok);
      if ret < 0 then (r, ret) else (r.(phase := Disconnecting), ret)
  }

  function Goodbye(cfg: Config, e: Engine, cb: bool, ok: bool): (r: (Engine, int))
    requires Shaped(e)
    ensures Shaped(r.0)
  {
    var packet := EmptyPacket(DISCONNECT);
    if HEADER_LEN + |packet| > Room(cfg, e) then (e, ERROR)
    else TrySend(Register(cfg, e, 0, Slot(MWaiting, DISCONNECT, -1, 0, 0, e.tick + cfg.timeout, cb), packet), ok)
  }

  function Reset(e: Engine): (r: Engine)
    requires Shaped(e)
    ensures Shaped(r)
  {
    ClearBuffers(e).(phase := NotConnected)
  }

  // mqtt_send_pingreq.
  function Ping(cfg: Config, e: Engine, ok: bool): (r: (Engine, int))
    requires Shaped(e)
    ensures Shaped(r.0)
  {
    var packet := EmptyPacket(PINGREQ);
    if HEADER_LEN + |packet| > Room(cfg, e) then (e, ERR_REQ_IGN)
    else TrySend(Enqueue(e, Frame(-1, PINGREQ, packet)), ok)
  }

  // mqtt_handle_connack.
  function HandleConnack(e: Engine, code: nat): (r: (Engine, int))
    requires Shaped(e)
    ensures Shaped(r.0)
  {
    if e.phase != Connecting then (e, ERROR)
    else
      var e1 := if code == 0 then e.(phase := Connected) else e;
      (SetSlot(e1, 0, Finished(e1.slots[0])), STAT_OK)
  }

  // ---------- inbound packets ----------

  // mqtt_message_dispatch for one whole packet.
  function Dispatch(cfg: Config, e: Engine, packet: seq<byte>, ok: bool): (r: (Engine, int))
    requires Shaped(e) && WellFormed(packet)
    ensures Shaped(r.0)
  {
    var t := TypeOf(packet[0]);
    var body := packet[1 + ReadMessage(packet).bytes..];
    if t == CONNACK then
      if e.phase != Connecting || |body| < 2 then (e, ERROR) else HandleConnack(e, body[1])
    else if t == PUBLISH then
      if QosOf(packet[0]) > 2 then (e, ERR_INVALID_ARGS)
      else
        match ParsePublish(QosOf(packet[0]), body)
        case Rejected => (e, ERROR)
        case Received(topic, payload, id) =>
          HandlePublish(cfg, e, Delivery(DupOf(packet[0]), QosOf(packet[0]), id, topic, payload), ok)
    else if IsAckType(t) then
      if |body| < 2 then (e, ERROR) else HandleAck(cfg, e, t, ReadShort(body), ok)
    else (e, if t == PINGRESP then STAT_OK else ERROR)
  }

  // One pass of mqtt_loop_once from slot k on: stop at the first slot that fails.
  function Sweep(cfg: Config, e: Engine, k: nat, oks: seq<bool>): (r: (Engine, int))
    requires Shaped(e) && k <= SLOTS && |oks| == SLOTS
    ensures Shaped(r.0)
    decreases SLOTS - k
  {
    if k == SLOTS then (e, STAT_OK)
    else
      var (e1, ret) := VisitSlot(cfg, e, k, oks[k]);
      if ret < 0 then (e1, ret) else Sweep(cfg, e1, k + 1, oks)
  }

  // ---------- steps and runs ----------

  datatype Step =
    | DoRequest(req: Request, ok: bool)
    | DoSend(ok: bool)
    | DoVisit(slot: int, ok: bool)
    | DoPing(ok: bool)
    | DoConnect(packet: seq<byte>, cb: bool, started: bool)
    | DoTcpUp(ok: bool)
    | DoDisconnect(cb: bool, ok: bool)
    | DoReset
    | InAck(ptype: nat, id: nat, ok: bool)
    | InPublish(d: Delivery, ok: bool)
    | InConnack(code: nat)
    | SetTick(tick: nat)
    | SetPhase(phase: Phase)

  predicate StepOk(s: Step) {
    match s
    case DoRequest(req, _) => RequestOk(req)
    case DoVisit(i, _) => IsSlot(i)
    case InAck(t, id, _) => IsAckType(t)
    case InPublish(d, _) => d.qos <= 2
    case _ => true
  }

  function Next(cfg: Config, e: Engine, s: Step): (r: Engine)
    requires Shaped(e) && StepOk(s)
    ensures Shaped(r)
  {
    match s
    case DoRequest(req, ok) => Submit(cfg, e, req, ok).0
    case DoSend(ok) => TrySend(e, ok).0
    case DoVisit(i, ok) => VisitSlot(cfg, e, i, ok).0
    case DoPing(ok) => Ping(cfg, e, ok).0
    case DoConnect(packet, cb, started) => Connect(cfg, e, packet, cb, started).0
    case DoTcpUp(ok) => TcpUp(cfg, e, ok).0
    case DoDisconnect(cb, ok) => Disconnect(cfg, e, cb, ok).0
    case DoReset => Reset(e)
    case InAck(t, id, ok) => HandleAck(cfg, e, t, id, ok).0
    case InPublish(d, ok) => HandlePublish(cfg, e, d, ok).0
    case InConnack(code) => HandleConnack(e, code).0
    case SetTick(t) => e.(tick := t)
    case SetPhase(p) => e.(phase := p)
  }

  // The socket reports a connection while connecting, or an error at any time.
  predicate PhaseChange(from: Phase, to: Phase) {
    (from == TcpConnecting && to == TcpConnected) || to == ConnectError
  }

  // What callers and the network can do: connect when not connected; ids are sixteen bits
  // wide.
  ghost predicate Legal(e: Engine, s: Step) {
    && StepOk(s)
    && match s
       case DoConnect(packet, _, _) =>
         e.phase == NotConnected && |packet| <= MAX_REMAINING_LENGTH && IsConnect(packet)
       case InAck(_, id, _) => id <= MAX_MESSAGE_ID
       case InPublish(d, _) => d.id <= MAX_MESSAGE_ID
       case SetPhase(p) => PhaseChange(e.phase, p)
       case _ => true
  }

  ghost predicate LegalRun(cfg: Config, e: Engine, steps: seq<Step>)
    requires Shaped(e)
    decreases |steps|
  {
    steps == [] || (Legal(e, steps[0]) && LegalRun(cfg, Next(cfg, e, steps[0]), steps[1..]))
  }

  ghost function Run(cfg: Config, e: Engine, steps: seq<Step>): (r: Engine)
    requires Shaped(e) && LegalRun(cfg, e, steps)
    ensures Shaped(r)
    decreases |steps|
  {
    if steps == [] then e else Run(cfg, Next(cfg, e, steps[0]), steps[1..])
  }

  function Start(): Engine {
    Engine(seq(SLOTS, (i: nat) => Slot(MFree, 0, 0, 0, 0, 0, false)), [], [], 0, 0, NotConnected, [], [], [])
  }
}
