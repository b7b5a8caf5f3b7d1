// Trackers and backup buffer agree over all runs.
module MqttAgreement {
  import opened Bytes
  import opened MqttWire
  import opened MqttFrames
  import opened MqttEngine

  ghost predicate CfgOk(cfg: Config) {
    cfg.sendSize <= 65535 && cfg.backupSize <= 65535 && cfg.count < 16
  }

  // ---------- the invariant ----------

  predicate Live(s: Slot) {
    s.state != MFree
  }

  // The redelivery count stays in its nibble and within its bound; slots that await
  // nothing, or the end of an inbound exchange, or are finished have no backup.
  ghost predicate SlotInv(cfg: Config, s: Slot) {
    && s.opt < 32 && Count(s) <= cfg.count
    && s.state != MSending
    && 0 <= s.mtype < 16
    && (s.awaits == -1 || s.awaits == PUBREL || s.state == MFinish ==> !Flagged(s))
  }

  // A frame of the backup buffer belongs to a live, flagged slot and carries its id.
  ghost predicate FrameOwned(slots: seq<Slot>, f: Frame) {
    && IsSlot(f.tag) && f.tag < |slots|
    && Live(slots[f.tag]) && Flagged(slots[f.tag])
    && PacketId(f.packet) == slots[f.tag].id && f.mtype == slots[f.tag].mtype
  }

  // Only tracker 0 is used for DISCONNECT.
  ghost predicate DisconnectTag(f: Frame) {
    f.mtype == DISCONNECT ==> f.tag == 0 || f.tag == -1
  }

  // The phases in which requests are accepted, or the client is on its way out.
  predicate Busy(p: Phase) {
    p == Connected || p == Disconnecting || p == ConnectError
  }

  // In every other phase tracker 0 is at CONNECT's disposal, or holds it.
  ghost predicate Quiet(e: Engine)
    requires Shaped(e)
  {
    && CountTag(e.backup, 0) == 0
    && (Flagged(e.slots[0]) ==> e.phase == NotConnected && !Live(e.slots[0]) && CountTag(e.send, 0) == 0)
  }

  ghost predicate Basic(cfg: Config, e: Engine) {
    && Shaped(e) && CfgOk(cfg) && e.nextId <= MAX_MESSAGE_ID
    && (forall i :: 0 <= i < SLOTS ==> SlotInv(cfg, e.slots[i]))
    && (forall i :: 1 <= i < SLOTS ==> e.slots[i].mtype != DISCONNECT)
    && AllOk(e.send) && TotalLen(e.send) <= cfg.sendSize
    && (forall k :: 0 <= k < |e.send| ==> DisconnectTag(e.send[k]))
    && AllOk(e.backup) && TotalLen(e.backup) <= cfg.backupSize
    && (forall f :: f in e.backup ==> FrameOwned(e.slots, f))
    && (forall i :: 0 <= i < SLOTS ==> CountTag(e.backup, i) <= 1)
    && (!Busy(e.phase) ==> Quiet(e))
  }

  // Slot i is flagged, if live, only with a frame in the backup buffer.
  ghost predicate Agrees(e: Engine, i: int)
    requires Shaped(e) && IsSlot(i)
  {
    Live(e.slots[i]) && Flagged(e.slots[i]) ==> CountTag(e.backup, i) == 1
  }

  ghost predicate AllAgree(e: Engine)
    requires Shaped(e)
  {
    forall i :: 0 <= i < SLOTS ==> Agrees(e, i)
  }

  ghost predicate Good(cfg: Config, e: Engine, agree: bool) {
    Basic(cfg, e) && (agree ==> AllAgree(e))
  }

  // ---------- changing one slot ----------

  ghost predicate Compatible(cfg: Config, e: Engine, i: int, s: Slot, agree: bool)
    requires Shaped(e) && IsSlot(i)
  {
    && SlotInv(cfg, s) && (s.mtype == DISCONNECT ==> i == 0)
    && (CountTag(e.backup, i) == 0
        || (Live(s) && Flagged(s) && s.id == e.slots[i].id && s.mtype == e.slots[i].mtype))
    && (agree ==> (Live(s) && Flagged(s) ==> CountTag(e.backup, i) == 1))
    && (i == 0 && !Busy(e.phase) && Flagged(s) ==> e.phase == NotConnected && !Live(s) && CountTag(e.send, 0) == 0)
  }

  lemma SetSlotGood(cfg: Config, e: Engine, i: int, s: Slot, agree: bool)
    requires Good(cfg, e, agree) && IsSlot(i) && Compatible(cfg, e, i, s, agree)
    ensures Good(cfg, SetSlot(e, i, s), agree)
  {
    var r := SetSlot(e, i, s);
    CountZero(e.backup, i);
    forall f | f in r.backup ensures FrameOwned(r.slots, f) {
      assert FrameOwned(e.slots, f);
    }
    if agree {
      forall j | 0 <= j < SLOTS ensures Agrees(r, j) {
        assert Agrees(e, j);
      }
    }
  }

  // A slot that is free, or has no flag, owns no frame.
  lemma NoFrame(cfg: Config, e: Engine, i: int)
    requires Basic(cfg, e) && IsSlot(i)
    requires !Live(e.slots[i]) || !Flagged(e.slots[i])
    ensures CountTag(e.backup, i) == 0
  {
    CountZero(e.backup, i);
    forall f | f in e.backup ensures f.tag != i {
      assert FrameOwned(e.slots, f);
    }
  }

  // A change of one slot that keeps its id, type, flag and liveness.
  lemma TouchSlotGood(cfg: Config, e: Engine, i: int, s: Slot, agree: bool)
    requires Good(cfg, e, agree) && IsSlot(i) && SlotInv(cfg, s)
    requires Live(s) == Live(e.slots[i]) && Flagged(s) == Flagged(e.slots[i])
    requires s.id == e.slots[i].id && s.mtype == e.slots[i].mtype
    ensures Good(cfg, SetSlot(e, i, s), agree)
  {
    if !Live(s) || !Flagged(s) {
      NoFrame(cfg, e, i);
    }
    if agree {
      assert Agrees(e, i);
    }
    SetSlotGood(cfg, e, i, s, agree);
  }

  // A slot that owns no frame may become any slot without a flag.
  lemma ClearSlotGood(cfg: Config, e: Engine, i: int, s: Slot, agree: bool)
    requires Good(cfg, e, agree) && IsSlot(i) && SlotInv(cfg, s) && !Flagged(s) && (s.mtype == DISCONNECT ==> i == 0)
    requires CountTag(e.backup, i) == 0
    ensures Good(cfg, SetSlot(e, i, s), agree)
  {
    SetSlotGood(cfg, e, i, s, agree);
  }

  // Fields outside trackers and buffers do not matter, apart from the phase.
  lemma OtherFieldsGood(cfg: Config, e: Engine, r: Engine, agree: bool)
    requires Good(cfg, e, agree) && Shaped(r)
    requires r.slots == e.slots && r.send == e.send && r.backup == e.backup
    requires r.nextId <= MAX_MESSAGE_ID
    requires Busy(r.phase) || Quiet(r)
    ensures Good(cfg, r, agree)
  {
    if agree {
      forall j | 0 <= j < SLOTS ensures Agrees(r, j) {
        assert Agrees(e, j);
      }
    }
  }

  // ---------- sending ----------

  // The frame about to leave belongs to a tracker that was released with its flag.
  predicate Revives(e: Engine)
    requires Shaped(e)
  {
    && e.send != [] && IsSlot(e.send[0].tag)
    && var s := e.slots[e.send[0].tag];
       s.state == MFree && Flagged(s) && s.awaits != -1
  }

  ghost predicate Calm(e: Engine, agree: bool)
    requires Shaped(e)
  {
    agree ==> !Revives(e)
  }

  // No frame for a slot is about to leave, or the slot was not released with its flag.
  ghost predicate NotRevived(e: Engine, i: int)
    requires Shaped(e)
  {
    IsSlot(i) ==> Live(e.slots[i]) || !Flagged(e.slots[i])
  }

  lemma MarkSentGood(cfg: Config, e: Engine, i: int, mtype: nat, agree: bool)
    requires Good(cfg, e, agree)
    requires agree ==> NotRevived(e, i)
    requires IsSlot(i) ==> CountTag(e.send, i) > 0
    requires mtype == DISCONNECT && IsSlot(i) ==> i == 0
    ensures Good(cfg, MarkSent(e, i, mtype), agree)
  {
    if IsSlot(i) {
      var s := e.slots[i];
      assert agree ==> Agrees(e, i);
      if !Live(s) || !Flagged(s) {
        NoFrame(cfg, e, i);
      }
      if s.awaits != -1 {
        SetSlotGood(cfg, e, i, s.(state := MSent), agree);
      } else {
        ClearSlotGood(cfg, e, i, Finished(s), agree);
        var e1 := SetSlot(e, i, Finished(s));
        if mtype == DISCONNECT {
          OtherFieldsGood(cfg, e1, e1.(phase := NotConnected), agree);
        }
      }
    }
  }

  lemma TailCounts(fs: seq<Frame>, i: int)
    requires fs != []
    ensures CountTag(fs[1..], i) <= CountTag(fs, i)
    ensures fs[0].tag == i ==> CountTag(fs, i) > 0
  {
  }

  lemma DropFirstGood(cfg: Config, e: Engine, agree: bool, handed: seq<Frame>)
    requires Good(cfg, e, agree) && e.send != []
    ensures Good(cfg, e.(send := e.send[1..], handed := handed), agree)
  {
    var r := e.(send := e.send[1..], handed := handed);
    TailCounts(e.send, 0);
    if agree {
      forall j | 0 <= j < SLOTS ensures Agrees(r, j) {
        assert Agrees(e, j);
        TailCounts(e.send, j);
      }
    }
  }

  lemma TrySendGood(cfg: Config, e: Engine, ok: bool, agree: bool)
    requires Good(cfg, e, agree) && Calm(e, agree)
    ensures Good(cfg, TrySend(e, ok).0, agree)
  {
    if e.send != [] {
      var f := e.send[0];
      assert DisconnectTag(f);
      TailCounts(e.send, f.tag);
      assert IsSlot(f.tag) ==> SlotInv(cfg, e.slots[f.tag]);
      MarkSentGood(cfg, e, f.tag, f.mtype, agree);
      DropFirstGood(cfg, MarkSent(e, f.tag, f.mtype), agree, e.handed + [f]);
    }
  }

  // ---------- appending ----------

  // A frame may be appended for no slot, or for a slot that was not released with its flag.
  lemma EnqueueGood(cfg: Config, e: Engine, f: Frame, agree: bool)
    requires Good(cfg, e, agree)
    requires FrameOk(f) && FrameLen(f) <= Room(cfg, e) && DisconnectTag(f)
    requires NotRevived(e, f.tag)
    ensures Good(cfg, Enqueue(e, f), agree)
  {
    var r := Enqueue(e, f);
    FlattenAppend(e.send, [f]);
    FlattenOne(f);
    TotalLenAppend(e.send, [f]);
    assert [f][1..] == [];
    CountAppend(e.send, [f], 0);
    if agree {
      forall j | 0 <= j < SLOTS ensures Agrees(r, j) {
        assert Agrees(e, j);
        CountAppend(e.send, [f], j);
      }
    }
  }

  // A backup frame comes with the flag of its slot.
  lemma StoreGood(cfg: Config, e: Engine, i: int, s: Slot, f: Frame, agree: bool)
    requires Good(cfg, e, agree) && IsSlot(i) && CountTag(e.backup, i) == 0
    requires SlotInv(cfg, s) && Live(s) && Flagged(s) && s.mtype != DISCONNECT
    requires FrameOk(f) && f.tag == i && f.mtype == s.mtype && PacketId(f.packet) == s.id
    requires FrameLen(f) <= cfg.backupSize - TotalLen(e.backup)
    requires Busy(e.phase)
    ensures Good(cfg, SetSlot(e.(backup := e.backup + [f]), i, s), agree)
  {
    var r := SetSlot(e.(backup := e.backup + [f]), i, s);
    FlattenAppend(e.backup, [f]);
    FlattenOne(f);
    TotalLenAppend(e.backup, [f]);
    assert [f][1..] == [];
    CountZero(e.backup, i);
    forall g | g in r.backup ensures FrameOwned(r.slots, g) {
      if g in e.backup {
        assert FrameOwned(e.slots, g);
      }
    }
    forall j | 0 <= j < SLOTS ensures CountTag(r.backup, j) == CountTag(e.backup, j) + (if j == i then 1 else 0) {
      CountAppend(e.backup, [f], j);
    }
    if agree {
      forall j | 0 <= j < SLOTS ensures Agrees(r, j) {
        assert Agrees(e, j);
      }
    }
  }

  // ---------- dropping ----------

  // The frame of slot i leaves the backup buffer together with its flag or its slot.
  lemma EvictGood(cfg: Config, e: Engine, i: int, s: Slot, agree: bool)
    requires Good(cfg, e, agree) && IsSlot(i)
    requires SlotInv(cfg, s) && (s.mtype == DISCONNECT ==> i == 0)
    requires Flagged(s) ==> !Live(s) && Flagged(e.slots[i]) && (i == 0 && !Busy(e.phase) ==> CountTag(e.send, i) == 0)
    ensures Good(cfg, SetSlot(e, i, s).(backup := RemoveTag(e.backup, i)), agree)
  {
    var r := SetSlot(e, i, s).(backup := RemoveTag(e.backup, i));
    RemoveTagOk(e.backup, i);
    TotalLenRemove(e.backup, i);
    RemoveTagCounts(e.backup, i, i);
    CountZero(r.backup, i);
    forall f | f in r.backup ensures FrameOwned(r.slots, f) {
      assert FrameOwned(e.slots, f);
    }
    forall j | 0 <= j < SLOTS ensures CountTag(r.backup, j) == if j == i then 0 else CountTag(e.backup, j) {
      RemoveTagCounts(e.backup, i, j);
    }
    if agree {
      forall j | 0 <= j < SLOTS ensures Agrees(r, j) {
        assert Agrees(e, j);
      }
    }
  }

  lemma RemoveTagOk(fs: seq<Frame>, key: int)
    requires AllOk(fs)
    ensures AllOk(RemoveTag(fs, key))
  {
    RemoveTagCounts(fs, key, key);
    var r := RemoveTag(fs, key);
    forall k | 0 <= k < |r| ensures FrameOk(r[k]) {
      assert r[k] in fs;
    }
  }

  lemma {:induction false} WithoutTagCounts(fs: seq<Frame>, i: int, j: int)
    ensures CountTag(WithoutTag(fs, i), j) == if j == i then 0 else CountTag(fs, j)
    ensures TotalLen(WithoutTag(fs, i)) <= TotalLen(fs)
  {
    if fs != [] {
      WithoutTagCounts(fs[1..], i, j);
      var rest := WithoutTag(fs[1..], i);
      if fs[0].tag == i {
        assert WithoutTag(fs, i) == rest;
      } else {
        assert WithoutTag(fs, i) == [fs[0]] + rest;
        assert ([fs[0]] + rest)[1..] == rest;
      }
    }
  }

  lemma WithoutTagGood(cfg: Config, e: Engine, i: int, agree: bool)
    requires Good(cfg, e, agree)
    ensures Good(cfg, e.(send := WithoutTag(e.send, i)), agree)
  {
    var r := e.(send := WithoutTag(e.send, i));
    WithoutTagCounts(e.send, i, 0);
    WithoutTagMembers(e.send, i);
    forall k | 0 <= k < |r.send| ensures FrameOk(r.send[k]) && DisconnectTag(r.send[k]) {
      assert r.send[k] in e.send;
    }
    if agree {
      forall j | 0 <= j < SLOTS ensures Agrees(r, j) {
        assert Agrees(e, j);
        WithoutTagCounts(e.send, i, j);
      }
    }
  }

  // ---------- requests ----------

  lemma RegisterGood(cfg: Config, e: Engine, i: int, s: Slot, packet: seq<byte>, agree: bool)
    requires Good(cfg, e, agree) && IsSlot(i) && CountTag(e.backup, i) == 0
    requires SlotInv(cfg, s.(opt := 0)) && Live(s) && (s.mtype == DISCONNECT ==> i == 0)
    requires 0 < |packet| && HEADER_LEN + |packet| <= Room(cfg, e)
    requires s.id > 0 ==>
               PacketId(packet) == s.id && Busy(e.phase) && SlotInv(cfg, s.(opt := 16)) && s.mtype != DISCONNECT
    ensures Good(cfg, Register(cfg, e, i, s, packet), agree)
    ensures Calm(e, agree) ==> Calm(Register(cfg, e, i, s, packet), agree)
  {
    var f := Frame(i, s.mtype, packet);
    var s1 := SetSlot(e, i, s.(opt := 0));
    ClearSlotGood(cfg, e, i, s.(opt := 0), agree);
    EnqueueGood(cfg, s1, f, agree);
    var s2 := Enqueue(s1, f);
    if s.id > 0 && FrameLen(f) <= cfg.backupSize - TotalLen(e.backup) {
      StoreGood(cfg, s2, i, s.(opt := 16), f, agree);
      assert e.slots[i := s.(opt := 0)][i := s.(opt := 16)] == e.slots[i := s.(opt := 16)];
      assert Register(cfg, e, i, s, packet) == SetSlot(s2.(backup := s2.backup + [f]), i, s.(opt := 16));
    } else {
      assert Register(cfg, e, i, s, packet) == s2;
    }
  }

  // The packet of a request that fits the send buffer carries the id it was given.
  lemma RequestPacketId(req: Request, id: nat)
    requires RequestOk(req) && id <= MAX_MESSAGE_ID
    requires |RequestPacket(req, id)| <= 65535
    ensures NeedsId(req) ==> PacketId(RequestPacket(req, id)) == id
  {
    match req
    case PublishReq(qos, retain, topic, payload, _) =>
      if qos > 0 {
        PublishPacketId(false, qos, retain, id, topic, payload);
      }
    case SubscribeReq(filters) =>
      HeaderFields(SUBSCRIBE, false, 1, false);
      BodyPacketId(HeaderByte(SUBSCRIBE, false, 1, false), id, TopicFilters(filters));
    case UnsubscribeReq(names, _) =>
      HeaderFields(UNSUBSCRIBE, false, 1, false);
      BodyPacketId(HeaderByte(UNSUBSCRIBE, false, 1, false), id, Names(names));
  }

  // A request goes to a free slot, under the id drawn for it.
  lemma PlacedGood(cfg: Config, e: Engine, i: int, s: Slot, packet: seq<byte>, agree: bool, r: Engine)
    requires Good(cfg, e, agree) && e.phase == Connected && IsSlot(i) && !Live(e.slots[i])
    requires 0 < s.mtype < 16 && s.state == MWaiting && s.opt == 0 && s.mtype != DISCONNECT && s.awaits != PUBREL
    requires s.id > 0 ==> PacketId(packet) == s.id && s.awaits != -1
    requires 0 < |packet| && HEADER_LEN + |packet| <= Room(cfg, e)
    requires r == Register(cfg, e, i, s, packet)
    ensures Good(cfg, r, agree)
    ensures Calm(e, agree) ==> Calm(r, agree)
  {
    NoFrame(cfg, e, i);
    RegisterGood(cfg, e, i, s, packet, agree);
  }

  lemma PlaceGood(cfg: Config, e: Engine, i: int, req: Request, id: nat, agree: bool)
    requires Good(cfg, e, agree) && RequestOk(req) && e.phase == Connected
    requires IsSlot(i) && !Live(e.slots[i]) && id <= MAX_MESSAGE_ID && (id > 0 <==> NeedsId(req))
    ensures Good(cfg, Place(cfg, e, i, req, id).0, agree)
    ensures Calm(e, agree) ==> Calm(Place(cfg, e, i, req, id).0, agree)
  {
    var packet := RequestPacket(req, id);
    if HEADER_LEN + |packet| <= Room(cfg, e) {
      RequestPacketId(req, id);
      PlacedGood(cfg, e, i, RequestSlot(req, id, e.tick + cfg.timeout), packet, agree, Place(cfg, e, i, req, id).0);
    }
  }

  lemma PackGood(cfg: Config, e: Engine, req: Request, agree: bool)
    requires Good(cfg, e, agree) && RequestOk(req) && e.phase == Connected
    ensures Good(cfg, Pack(cfg, e, req).0, agree)
    ensures Calm(e, agree) ==> Calm(Pack(cfg, e, req).0, agree)
  {
    var i := FreeFrom(e.slots, 0);
    if i >= 0 {
      OtherFieldsGood(cfg, e, Drawn(e, req), agree);
      PlaceGood(cfg, Drawn(e, req), i, req, IdFor(e, req), agree);
      assert Good(cfg, Pack(cfg, e, req).0, agree);
    } else {
      assert Good(cfg, Pack(cfg, e, req).0, agree);
    }
  }

  lemma SubmitGood(cfg: Config, e: Engine, req: Request, ok: bool, agree: bool)
    requires Good(cfg, e, agree) && Calm(e, agree) && RequestOk(req)
    ensures Good(cfg, Submit(cfg, e, req, ok).0, agree)
  {
    if e.phase == Connected {
      PackGood(cfg, e, req, agree);
      TrySendGood(cfg, Pack(cfg, e, req).0, ok, agree);
    }
  }

  // ---------- acknowledgements ----------

  // An acknowledgement may be sent for no slot, or for a slot without a flag, or with a
  // flag while its exchange goes on.
  ghost predicate AckSlot(e: Engine, i: int, awaits: int)
    requires Shaped(e)
  {
    IsSlot(i) && Flagged(e.slots[i]) ==> Live(e.slots[i]) && awaits != -1 && awaits != PUBREL
  }

  lemma CommonAckGood(cfg: Config, e: Engine, ptype: nat, awaits: int, id: nat, i: int, ok: bool, agree: bool)
    requires Good(cfg, e, agree) && Calm(e, agree) && 0 < ptype < 16 && ptype != DISCONNECT && AckSlot(e, i, awaits)
    ensures Good(cfg, CommonAck(cfg, e, ptype, awaits, id, i, ok).0, agree)
  {
    var packet := AckPacket(ptype, id);
    if HEADER_LEN + |packet| <= Room(cfg, e) {
      var f := Frame(if IsSlot(i) then i else -1, ptype, packet);
      EnqueueGood(cfg, e, f, agree);
      var e1 := Enqueue(e, f);
      if IsSlot(i) {
        AckSlotGood(cfg, e1, i, awaits, agree);
        TrySendGood(cfg, SetSlot(e1, i, e1.slots[i].(state := MWaiting, awaits := awaits)), ok, agree);
      } else {
        TrySendGood(cfg, e1, ok, agree);
      }
    }
  }

  lemma AckSlotGood(cfg: Config, e: Engine, i: int, awaits: int, agree: bool)
    requires Good(cfg, e, agree) && IsSlot(i) && AckSlot(e, i, awaits)
    ensures Good(cfg, SetSlot(e, i, e.slots[i].(state := MWaiting, awaits := awaits)), agree)
  {
    var s := e.slots[i].(state := MWaiting, awaits := awaits);
    if Flagged(s) {
      TouchSlotGood(cfg, e, i, s, agree);
    } else {
      NoFrame(cfg, e, i);
      ClearSlotGood(cfg, e, i, s, agree);
    }
  }

  lemma DropBackupGood(cfg: Config, e: Engine, i: int, agree: bool)
    requires Good(cfg, e, agree) && IsSlot(i)
    ensures Good(cfg, DropBackup(e, i), agree)
  {
    EvictGood(cfg, e, i, e.slots[i].(opt := 0), agree);
  }

  lemma FinishGood(cfg: Config, e: Engine, i: int, agree: bool)
    requires Good(cfg, e, agree) && IsSlot(i)
    ensures var s := e.slots[i];
            var e1 := SetSlot(e, i, Finished(s));
            Good(cfg, if Flagged(s) then DropBackup(e1, i) else e1, agree)
  {
    var s := e.slots[i];
    var e1 := SetSlot(e, i, Finished(s));
    if Flagged(s) {
      EvictGood(cfg, e, i, Finished(s).(opt := 0), agree);
      assert DropBackup(e1, i) == SetSlot(e, i, Finished(s).(opt := 0)).(backup := RemoveTag(e.backup, i));
    } else {
      NoFrame(cfg, e, i);
      ClearSlotGood(cfg, e, i, Finished(s), agree);
    }
  }

  lemma HandleAckGood(cfg: Config, e: Engine, ptype: nat, id: nat, ok: bool, agree: bool)
    requires Good(cfg, e, agree) && Calm(e, agree) && IsAckType(ptype)
    ensures Good(cfg, HandleAck(cfg, e, ptype, id, ok).0, agree)
  {
    var i := MatchFrom(e.slots, ptype, id, 0);
    if i >= 0 {
      var (e1, ret) := AckByType(cfg, e, ptype, id, i, ok);
      if ptype == PUBREC {
        CommonAckGood(cfg, e, PUBREL, PUBCOMP, id, i, ok, agree);
        DropBackupGood(cfg, e1, i, agree);
      } else if ptype == PUBREL {
        FinishGood(cfg, e, i, agree);
        CommonAckGood(cfg, SetSlot(e, i, Finished(e.slots[i])), PUBCOMP, -1, id, i, ok, agree);
        DropBackupGood(cfg, e1, i, agree);
      } else {
        FinishGood(cfg, e, i, agree);
      }
    }
  }

  // ---------- inbound PUBLISH ----------

  lemma TrackGood(cfg: Config, e: Engine, i: int, id: nat, agree: bool)
    requires Good(cfg, e, agree) && (i == -1 || (IsSlot(i) && !Flagged(e.slots[i])))
    ensures var (r, j) := Track(cfg, e, i, id);
            && Good(cfg, r, agree) && AckSlot(r, j, PUBREL)
            && (Calm(e, agree) ==> Calm(r, agree))
  {
    var j := if i == -1 then FreeFrom(e.slots, 0) else i;
    if j >= 0 {
      NoFrame(cfg, e, j);
      ClearSlotGood(cfg, e, j, InboundSlot(id, e.tick + cfg.timeout), agree);
    }
  }

  lemma HandlePublishGood(cfg: Config, e: Engine, d: Delivery, ok: bool, agree: bool)
    requires Good(cfg, e, agree) && Calm(e, agree) && d.qos <= 2
    ensures Good(cfg, HandlePublish(cfg, e, d, ok).0, agree)
  {
    var i := DuplicateOf(e, d);
    var e1 := if i == -1 then e.(delivered := e.delivered + [d]) else e;
    OtherFieldsGood(cfg, e, e1, agree);
    if d.qos == 2 {
      TrackGood(cfg, e1, i, d.id, agree);
      var (e2, j) := Track(cfg, e1, i, d.id);
      CommonAckGood(cfg, e2, PUBREC, PUBREL, d.id, j, ok, agree);
    } else if d.qos == 1 {
      CommonAckGood(cfg, e1, PUBACK, -1, d.id, -1, ok, agree);
    }
  }

  // ---------- timeouts and redelivery ----------

  lemma {:induction false} SetOneCounts(fs: seq<Frame>, k: nat, f: Frame, j: int)
    requires k < |fs| && f.tag == fs[k].tag && FrameLen(f) == FrameLen(fs[k])
    ensures CountTag(fs[k := f], j) == CountTag(fs, j)
    ensures TotalLen(fs[k := f]) == TotalLen(fs)
  {
    if k == 0 {
      assert fs[k := f][1..] == fs[1..];
    } else {
      SetOneCounts(fs[1..], k - 1, f, j);
      assert fs[k := f][1..] == fs[1..][k - 1 := f];
    }
  }

  lemma SetDupGood(cfg: Config, e: Engine, k: nat, agree: bool)
    requires Good(cfg, e, agree) && k < |e.backup|
    ensures FrameOk(e.backup[k]) && Good(cfg, SetDupInBackup(e, k), agree)
  {
    assert FrameOk(e.backup[k]);
    var f := e.backup[k];
    if f.mtype == PUBLISH {
      var g := f.(packet := SetDup(f.packet));
      var r := SetDupInBackup(e, k);
      SetDupKeepsId(f.packet);
      assert FrameOwned(e.slots, f);
      forall h | h in r.backup ensures FrameOwned(r.slots, h) {
        if h != g {
          assert h in e.backup;
        }
      }
      SetOneCounts(e.backup, k, g, 0);
      forall j | 0 <= j < SLOTS ensures CountTag(r.backup, j) == CountTag(e.backup, j) {
        SetOneCounts(e.backup, k, g, j);
      }
      if agree {
        forall j | 0 <= j < SLOTS ensures Agrees(r, j) {
          assert Agrees(e, j);
        }
      }
    }
  }

  lemma SendBackupGood(cfg: Config, e: Engine, i: int, ok: bool, agree: bool)
    requires Good(cfg, e, agree) && Calm(e, agree) && IsSlot(i) && Live(e.slots[i])
    ensures Good(cfg, SendBackup(e, cfg, i, ok).0, agree)
  {
    var k := FindTag(e.backup, i);
    if k == |e.backup| {
      CountZero(e.backup, i);
      ClearSlotGood(cfg, e, i, e.slots[i].(state := MSent, opt := 0), agree);
    } else if Room(cfg, e) >= FrameLen(e.backup[k]) {
      FindIsMember(e.backup, i);
      assert FrameOwned(e.slots, e.backup[k]);
      SetDupGood(cfg, e, k, agree);
      var e1 := SetDupInBackup(e, k);
      assert FrameOk(e1.backup[k]);
      EnqueueGood(cfg, e1, e1.backup[k], agree);
      var e2 := Enqueue(e1, e1.backup[k]);
      TouchSlotGood(cfg, e2, i, e2.slots[i].(state := MWaiting), agree);
      TrySendGood(cfg, SetSlot(e2, i, e2.slots[i].(state := MWaiting)), ok, agree);
    }
  }

  lemma DoRedeliverGood(cfg: Config, e: Engine, i: int, ok: bool, agree: bool)
    requires Good(cfg, e, agree) && Calm(e, agree) && IsSlot(i) && Live(e.slots[i])
    ensures Good(cfg, DoRedeliver(cfg, e, i, ok).0, agree)
  {
    var x := e.slots[i].awaits;
    if x == PUBACK || x == PUBREC || x == SUBACK || x == UNSUBACK {
      SendBackupGood(cfg, e, i, ok, agree);
    } else if x == PUBCOMP {
      CommonAckGood(cfg, e, PUBREL, PUBCOMP, e.slots[i].id, i, ok, agree);
    }
  }

  lemma ReleaseGood(cfg: Config, e: Engine, i: int, agree: bool)
    requires Good(cfg, e, agree) && IsSlot(i) && Live(e.slots[i])
    ensures Good(cfg, Release(e, i), agree)
  {
    var s := e.slots[i];
    WithoutTagGood(cfg, e, i, agree);
    WithoutTagCounts(e.send, i, i);
    var e1 := if s.state == MWaiting || s.state == MSending then e.(send := WithoutTag(e.send, i)) else e;
    var s1 := s.(state := MFree);
    if Flagged(s) {
      EvictGood(cfg, e1, i, s1, agree);
    } else {
      NoFrame(cfg, e1, i);
      ClearSlotGood(cfg, e1, i, s1, agree);
    }
    var e2 := SetSlot(e1, i, s1).(backup := if Flagged(s) then RemoveTag(e1.backup, i) else e1.backup);
    assert Good(cfg, e2, agree);
    if s.awaits == CONNACK {
      OtherFieldsGood(cfg, e2, e2.(phase := ConnectError), agree);
    }
  }

  // One more redelivery fits in the low nibble.
  lemma CountGood(cfg: Config, e: Engine, i: int, s: Slot, agree: bool)
    requires Good(cfg, e, agree) && IsSlot(i) && Live(e.slots[i]) && Count(e.slots[i]) < cfg.count
    requires s == e.slots[i].(opt := e.slots[i].opt + 1)
             || (e.slots[i].state != MFinish && s == e.slots[i].(opt := e.slots[i].opt + 1, state := MRedeliver))
    ensures Good(cfg, SetSlot(e, i, s), agree)
    ensures Calm(e, agree) ==> Calm(SetSlot(e, i, s), agree)
  {
    TouchSlotGood(cfg, e, i, s, agree);
  }

  lemma CountedGood(cfg: Config, e: Engine, i: int, s: Slot, ok: bool, agree: bool)
    requires Good(cfg, e, agree) && Calm(e, agree) && IsSlot(i)
    requires Live(e.slots[i]) && e.slots[i].state != MFinish && Count(e.slots[i]) < cfg.count
    requires s == e.slots[i].(opt := e.slots[i].opt + 1, state := MRedeliver)
    ensures Good(cfg, DoRedeliver(cfg, SetSlot(e, i, s), i, ok).0, agree)
  {
    hide DoRedeliver;
    CountGood(cfg, e, i, s, agree);
    DoRedeliverGood(cfg, SetSlot(e, i, s), i, ok, agree);
  }

  lemma RedeliverGood(cfg: Config, e: Engine, i: int, ok: bool, agree: bool, r: Engine)
    requires Good(cfg, e, agree) && Calm(e, agree) && IsSlot(i) && Live(e.slots[i]) && Count(e.slots[i]) < cfg.count
    requires r == Redeliver(cfg, e, i, ok).0
    ensures Good(cfg, r, agree)
  {
    assert Shaped(e);
    hide Good, Calm, DoRedeliver;
    var s := e.slots[i];
    if s.state == MSent || s.state == MRedeliver {
      CountedGood(cfg, e, i, s.(opt := s.opt + 1, state := MRedeliver), ok, agree);
    } else {
      CountGood(cfg, e, i, s.(opt := s.opt + 1), agree);
    }
  }

  lemma HandleTimeoutGood(cfg: Config, e: Engine, i: int, ok: bool, agree: bool, r: Engine)
    requires Good(cfg, e, agree) && Calm(e, agree) && IsSlot(i) && Live(e.slots[i])
    requires r == HandleTimeout(cfg, e, i, ok).0
    ensures Good(cfg, r, agree)
  {
    var s := e.slots[i];
    if CanRedeliver(cfg, s) {
      var s1 := s.(expired := e.tick + cfg.timeout);
      TouchSlotGood(cfg, e, i, s1, agree);
      RedeliverGood(cfg, SetSlot(e, i, s1), i, ok, agree, r);
    } else {
      ReleaseGood(cfg, e, i, agree);
    }
  }

  lemma VisitSlotGood(cfg: Config, e: Engine, i: int, ok: bool, agree: bool)
    requires Good(cfg, e, agree) && Calm(e, agree) && IsSlot(i)
    ensures Good(cfg, VisitSlot(cfg, e, i, ok).0, agree)
  {
    var s := e.slots[i];
    if s.state == MFinish {
      NoFrame(cfg, e, i);
      ClearSlotGood(cfg, e, i, s.(state := MFree), agree);
      var e1 := SetSlot(e, i, s.(state := MFree));
      if s.mtype == DISCONNECT {
        OtherFieldsGood(cfg, e1, e1.(phase := NotConnected), agree);
      }
    } else if s.state != MFree && e.tick > s.expired {
      HandleTimeoutGood(cfg, e, i, ok, agree, HandleTimeout(cfg, e, i, ok).0);
    } else if s.state == MRedeliver {
      DoRedeliverGood(cfg, e, i, ok, agree);
    }
  }

  // ---------- connection ----------

  lemma ConnectGood(cfg: Config, e: Engine, packet: seq<byte>, cb: bool, started: bool, agree: bool)
    requires Good(cfg, e, agree) && e.phase == NotConnected && 0 < |packet|
    ensures Good(cfg, Connect(cfg, e, packet, cb, started).0, agree)
  {
    if HEADER_LEN + |packet| <= Room(cfg, e) {
      var s := Slot(MWaiting, CONNECT, CONNACK, 0, 0, 0, cb);
      RegisterGood(cfg, e, 0, s, packet, agree);
      var e1 := Register(cfg, e, 0, s, packet);
      OtherFieldsGood(cfg, e1, e1.(phase := TcpConnecting), agree);
    }
  }

  // Sending changes neither flags nor counts nor the backup buffer.
  lemma TrySendKeeps(e: Engine, ok: bool)
    requires Shaped(e)
    ensures TrySend(e, ok).0.backup == e.backup
    ensures forall i :: 0 <= i < SLOTS ==> TrySend(e, ok).0.slots[i].opt == e.slots[i].opt
  {
  }

  lemma SendThenOpen(cfg: Config, e: Engine, ok: bool, agree: bool)
    requires Good(cfg, e, agree) && Calm(e, agree) && e.phase == TcpConnected
    ensures Good(cfg, TrySend(e, ok).0, agree)
    ensures Good(cfg, TrySend(e, ok).0.(phase := Connecting), agree)
  {
    TrySendGood(cfg, e, ok, agree);
    TrySendKeeps(e, ok);
    var r := TrySend(e, ok).0;
    OtherFieldsGood(cfg, r, r.(phase := Connecting), agree);
  }

  lemma ConnectTimedGood(cfg: Config, e: Engine, agree: bool)
    requires Good(cfg, e, agree)
    ensures Good(cfg, ConnectTimed(cfg, e), agree)
  {
    TouchSlotGood(cfg, e, 0, e.slots[0].(expired := e.tick + cfg.timeout), agree);
  }

  lemma TcpUpGood(cfg: Config, e: Engine, ok: bool, agree: bool)
    requires Good(cfg, e, agree) && Calm(e, agree)
    ensures Good(cfg, TcpUp(cfg, e, ok).0, agree)
  {
    if e.phase == TcpConnected {
      ConnectTimedGood(cfg, e, agree);
      SendThenOpen(cfg, ConnectTimed(cfg, e), ok, agree);
      assert Good(cfg, TcpUp(cfg, e, ok).0, agree);
    } else {
      assert Good(cfg, TcpUp(cfg, e, ok).0, agree);
    }
  }

  lemma ClearBuffersGood(cfg: Config, e: Engine, agree: bool)
    requires Good(cfg, e, agree)
    ensures Good(cfg, ClearBuffers(e), agree)
    ensures ClearBuffers(e).backup == [] && CountTag(ClearBuffers(e).send, 0) == 0
    ensures ClearBuffers(e).phase == e.phase && (forall i :: 0 <= i < SLOTS ==> !Live(ClearBuffers(e).slots[i]))
  {
    var r := ClearBuffers(e);
    forall j | 0 <= j < SLOTS ensures SlotInv(cfg, r.slots[j]) && !Live(r.slots[j]) && CountTag(r.send, j) == 0 {
      assert r.slots[j] == e.slots[j].(state := MFree);
      assert SlotInv(cfg, e.slots[j]);
      assert r.send != [] ==> r.send[1..] == [] && r.send[0].tag == -1;
    }
    forall k | 0 <= k < |r.send| ensures FrameOk(r.send[k]) && DisconnectTag(r.send[k])
        && FrameLen(r.send[k]) == FrameLen(e.send[0]) {
      assert FrameOk(e.send[0]);
    }
    if agree {
      forall j | 0 <= j < SLOTS ensures Agrees(r, j) {
      }
    }
  }

  lemma GoodbyeSentGood(cfg: Config, e: Engine, s: Slot, ok: bool, agree: bool, r: Engine)
    requires Good(cfg, e, agree) && Calm(e, agree) && e.backup == []
    requires s.state == MWaiting && s.mtype == DISCONNECT && s.awaits == -1 && s.opt == 0 && s.id == 0
    requires HEADER_LEN + |EmptyPacket(DISCONNECT)| <= Room(cfg, e)
    requires r == TrySend(Register(cfg, e, 0, s, EmptyPacket(DISCONNECT)), ok).0
    ensures Good(cfg, r, agree)
  {
    RegisterGood(cfg, e, 0, s, EmptyPacket(DISCONNECT), agree);
    TrySendGood(cfg, Register(cfg, e, 0, s, EmptyPacket(DISCONNECT)), ok, agree);
  }

  lemma GoodbyeGood(cfg: Config, e: Engine, cb: bool, ok: bool, agree: bool)
    requires Good(cfg, e, agree) && Calm(e, agree) && e.backup == []
    ensures Good(cfg, Goodbye(cfg, e, cb, ok).0, agree)
  {
    if HEADER_LEN + |EmptyPacket(DISCONNECT)| <= Room(cfg, e) {
      var s := Slot(MWaiting, DISCONNECT, -1, 0, 0, e.tick + cfg.timeout, cb);
      GoodbyeSentGood(cfg, e, s, ok, agree, Goodbye(cfg, e, cb, ok).0);
    }
  }

  lemma DisconnectGood(cfg: Config, e: Engine, cb: bool, ok: bool, agree: bool)
    requires Good(cfg, e, agree) && Calm(e, agree)
    ensures Good(cfg, Disconnect(cfg, e, cb, ok).0, agree)
  {
    if e.phase == Connected {
      ClearBuffersGood(cfg, e, agree);
      GoodbyeGood(cfg, ClearBuffers(e), cb, ok, agree);
      var (r, ret) := Goodbye(cfg, ClearBuffers(e), cb, ok);
      LeavingGood(cfg, r, agree, Disconnect(cfg, e, cb, ok).0);
    } else {
      LeavingGood(cfg, e, agree, Disconnect(cfg, e, cb, ok).0);
    }
  }

  lemma LeavingGood(cfg: Config, e: Engine, agree: bool, r: Engine)
    requires Good(cfg, e, agree) && (r == e || r == e.(phase := Disconnecting))
    ensures Good(cfg, r, agree)
  {
    OtherFieldsGood(cfg, e, e.(phase := Disconnecting), agree);
  }

  lemma ResetGood(cfg: Config, e: Engine, agree: bool)
    requires Good(cfg, e, agree)
    ensures Good(cfg, Reset(e), agree)
  {
    ClearBuffersGood(cfg, e, agree);
    OtherFieldsGood(cfg, ClearBuffers(e), Reset(e), agree);
  }

  lemma PingGood(cfg: Config, e: Engine, ok: bool, agree: bool)
    requires Good(cfg, e, agree) && Calm(e, agree)
    ensures Good(cfg, Ping(cfg, e, ok).0, agree)
  {
    var packet := EmptyPacket(PINGREQ);
    if HEADER_LEN + |packet| <= Room(cfg, e) {
      EnqueueGood(cfg, e, Frame(-1, PINGREQ, packet), agree);
      TrySendGood(cfg, Enqueue(e, Frame(-1, PINGREQ, packet)), ok, agree);
    }
  }

  lemma HandleConnackGood(cfg: Config, e: Engine, code: nat, agree: bool)
    requires Good(cfg, e, agree)
    ensures Good(cfg, HandleConnack(e, code).0, agree)
  {
    if e.phase == Connecting {
      var s := e.slots[0];
      var r := SetSlot(e, 0, Finished(s));
      assert r.slots[0] == Finished(s);
      ClearSlotGood(cfg, e, 0, Finished(s), agree);
      OtherFieldsGood(cfg, r, r.(phase := Connected), agree);
    }
  }

  // ---------- runs ----------

  // Every legal step keeps the invariant.
  lemma NextGood(cfg: Config, e: Engine, s: Step, agree: bool)
    requires Good(cfg, e, agree) && Calm(e, agree) && Legal(e, s)
    ensures Good(cfg, Next(cfg, e, s), agree)
  {
    match s
    case DoRequest(req, ok) => SubmitGood(cfg, e, req, ok, agree);
    case DoSend(ok) => TrySendGood(cfg, e, ok, agree);
    case DoVisit(i, ok) => VisitSlotGood(cfg, e, i, ok, agree);
    case DoPing(ok) => PingGood(cfg, e, ok, agree);
    case DoConnect(packet, cb, started) => ConnectGood(cfg, e, packet, cb, started, agree);
    case DoTcpUp(ok) => TcpUpGood(cfg, e, ok, agree);
    case DoDisconnect(cb, ok) => DisconnectGood(cfg, e, cb, ok, agree);
    case DoReset => ResetGood(cfg, e, agree);
    case InAck(t, id, ok) => HandleAckGood(cfg, e, t, id, ok, agree);
    case InPublish(d, ok) => HandlePublishGood(cfg, e, d, ok, agree);
    case InConnack(code) => HandleConnackGood(cfg, e, code, agree);
    case SetTick(t) => OtherFieldsGood(cfg, e, e.(tick := t), agree);
    case SetPhase(p) => OtherFieldsGood(cfg, e, e.(phase := p), agree);
  }

  // No state before a step of the run is about to revive a tracker.
  ghost predicate CalmRun(cfg: Config, e: Engine, steps: seq<Step>)
    requires Shaped(e) && LegalRun(cfg, e, steps)
    decreases |steps|
  {
    steps == [] || (!Revives(e) && CalmRun(cfg, Next(cfg, e, steps[0]), steps[1..]))
  }

  lemma {:induction false} RunGood(cfg: Config, e: Engine, steps: seq<Step>, agree: bool)
    requires Good(cfg, e, agree) && LegalRun(cfg, e, steps) && (agree ==> CalmRun(cfg, e, steps))
    ensures Good(cfg, Run(cfg, e, steps), agree)
    decreases |steps|
  {
    if steps != [] {
      NextGood(cfg, e, steps[0], agree);
      RunGood(cfg, Next(cfg, e, steps[0]), steps[1..], agree);
    }
  }

  lemma StartGood(cfg: Config)
    requires CfgOk(cfg)
    ensures Good(cfg, Start(), true)
  {
    var e := Start();
    forall j | 0 <= j < SLOTS ensures Agrees(e, j) {
    }
  }

  // In every reachable state, each frame of the backup buffer belongs to a tracker in
  // use whose flag is set and whose message id it carries, and no tracker has two.
  lemma BackupIsOwned(cfg: Config, steps: seq<Step>)
    requires CfgOk(cfg) && LegalRun(cfg, Start(), steps)
    ensures var e := Run(cfg, Start(), steps);
            && (forall f :: f in e.backup ==> FrameOwned(e.slots, f) && CountTag(e.backup, f.tag) == 1)
            && (forall i ::
                  0 <= i < SLOTS && (!Live(e.slots[i]) || !Flagged(e.slots[i])) ==> CountTag(e.backup, i) == 0)
  {
    StartGood(cfg);
    RunGood(cfg, Start(), steps, false);
    var e := Run(cfg, Start(), steps);
    forall f | f in e.backup ensures FrameOwned(e.slots, f) && CountTag(e.backup, f.tag) == 1 {
      assert FrameOwned(e.slots, f);
      CountZero(e.backup, f.tag);
    }
    forall i | 0 <= i < SLOTS && (!Live(e.slots[i]) || !Flagged(e.slots[i])) ensures CountTag(e.backup, i) == 0 {
      NoFrame(cfg, e, i);
    }
  }

  // A tracker in use has its flag set exactly when the backup buffer holds one frame of it.
  ghost predicate Agreement(e: Engine)
    requires Shaped(e)
  {
    forall i :: 0 <= i < SLOTS && Live(e.slots[i]) ==> (Flagged(e.slots[i]) <==> CountTag(e.backup, i) == 1)
  }

  lemma AllAgreeIsAgreement(cfg: Config, e: Engine)
    requires Basic(cfg, e)
    ensures AllAgree(e) <==> Agreement(e)
  {
    forall i | 0 <= i < SLOTS ensures Agrees(e, i) <==>
      (Live(e.slots[i]) ==> (Flagged(e.slots[i]) <==> CountTag(e.backup, i) == 1)) {
      if !Live(e.slots[i]) || !Flagged(e.slots[i]) {
        NoFrame(cfg, e, i);
      }
    }
  }

  // Trackers and backup buffer agree as long as no frame is about to leave whose tracker
  // was released with its flag.
  lemma TrackersAgreeWithBackup(cfg: Config, steps: seq<Step>)
    requires CfgOk(cfg) && LegalRun(cfg, Start(), steps) && CalmRun(cfg, Start(), steps)
    ensures Agreement(Run(cfg, Start(), steps))
  {
    StartGood(cfg);
    RunGood(cfg, Start(), steps, true);
    AllAgreeIsAgreement(cfg, Run(cfg, Start(), steps));
  }

  // Sending keeps the agreement exactly when it does not bring such a tracker back to life.
  lemma SendAgreesIff(cfg: Config, e: Engine, ok: bool)
    requires Good(cfg, e, false) && Agreement(e)
    ensures Agreement(TrySend(e, ok).0) <==> !Revives(e)
  {
    if Revives(e) {
      var i, r := e.send[0].tag, TrySend(e, ok).0;
      NoFrame(cfg, e, i);
      assert r.backup == e.backup && Live(r.slots[i]) && Flagged(r.slots[i]);
    } else {
      AllAgreeIsAgreement(cfg, e);
      TrySendGood(cfg, e, ok, true);
      AllAgreeIsAgreement(cfg, TrySend(e, ok).0);
    }
  }

  // In a reachable state in which trackers and backup buffer agree, all that may happen
  // next keeps the agreement exactly when no such frame is about to leave.
  lemma StepsAgreeIff(cfg: Config, e: Engine)
    requires Good(cfg, e, false) && Agreement(e)
    ensures (forall s :: Legal(e, s) ==> Agreement(Next(cfg, e, s))) <==> !Revives(e)
  {
    AllAgreeIsAgreement(cfg, e);
    if Revives(e) {
      SendAgreesIff(cfg, e, true);
      assert Legal(e, DoSend(true)) && !Agreement(Next(cfg, e, DoSend(true)));
    } else {
      forall s | Legal(e, s) ensures Agreement(Next(cfg, e, s)) {
        NextGood(cfg, e, s, true);
        AllAgreeIsAgreement(cfg, Next(cfg, e, s));
      }
    }
  }

  // In no state of the run is such a frame about to leave.
  ghost predicate CalmThroughout(cfg: Config, e: Engine, steps: seq<Step>)
    requires Shaped(e) && LegalRun(cfg, e, steps)
    decreases |steps|
  {
    !Revives(e) && (steps == [] || CalmThroughout(cfg, Next(cfg, e, steps[0]), steps[1..]))
  }

  // From every state of the run, whatever happens next leads to agreement.
  ghost predicate AgreesThroughout(cfg: Config, e: Engine, steps: seq<Step>)
    requires Shaped(e) && LegalRun(cfg, e, steps)
    decreases |steps|
  {
    && (forall s :: Legal(e, s) ==> Agreement(Next(cfg, e, s)))
    && (steps == [] || AgreesThroughout(cfg, Next(cfg, e, steps[0]), steps[1..]))
  }

  lemma {:induction false} AgreesOnIff(cfg: Config, e: Engine, steps: seq<Step>)
    requires Good(cfg, e, false) && Agreement(e) && LegalRun(cfg, e, steps)
    ensures AgreesThroughout(cfg, e, steps) <==> CalmThroughout(cfg, e, steps)
    decreases |steps|
  {
    hide Next, Agreement, Revives;
    StepsAgreeIff(cfg, e);
    if steps != [] && (forall s :: Legal(e, s) ==> Agreement(Next(cfg, e, s))) {
      NextGood(cfg, e, steps[0], false);
      AgreesOnIff(cfg, Next(cfg, e, steps[0]), steps[1..]);
    }
  }

  // Over whole runs: trackers and backup buffer agree, and stay in agreement whatever comes
  // next, in all states of a run exactly when no such frame is about to leave in any.
  lemma RunsAgreeIff(cfg: Config, steps: seq<Step>)
    requires CfgOk(cfg) && LegalRun(cfg, Start(), steps)
    ensures AgreesThroughout(cfg, Start(), steps) <==> CalmThroughout(cfg, Start(), steps)
  {
    StartGood(cfg);
    RunGood(cfg, Start(), [], false);
    AllAgreeIsAgreement(cfg, Start());
    AgreesOnIff(cfg, Start(), steps);
  }
}
