// First in, first out: what leaves through the socket leaves in the order of enqueueing.
module MqttQueue {
  import opened Bytes
  import opened MqttWire
  import opened MqttFrames
  import opened MqttEngine
  import opened MqttAgreement

  // ---------- subsequences ----------

  ghost predicate Subseq(s: seq<Frame>, t: seq<Frame>) {
    s == [] || (t != [] && ((s[0] == t[0] && Subseq(s[1..], t[1..])) || Subseq(s, t[1..])))
  }

  lemma {:induction false} SubseqOne(s: seq<Frame>, t: seq<Frame>, f: Frame)
    requires Subseq(s, t)
    ensures Subseq(s + [f], t + [f])
    decreases |t|
  {
    if t == [] {
      assert s + [f] == [f] && t + [f] == [f] && [f][1..] == [];
    } else {
      assert (t + [f])[1..] == t[1..] + [f];
      if s != [] && s[0] == t[0] && Subseq(s[1..], t[1..]) {
        SubseqOne(s[1..], t[1..], f);
        assert (s + [f])[1..] == s[1..] + [f];
      } else {
        SubseqOne(s, t[1..], f);
      }
    }
  }

  lemma {:induction false} SubseqSkip(s: seq<Frame>, t: seq<Frame>)
    requires t != [] && Subseq(s, t[1..])
    ensures Subseq(s, t)
  {
  }

  lemma {:induction false} SubseqTransitive(s: seq<Frame>, t: seq<Frame>, u: seq<Frame>)
    requires Subseq(s, t) && Subseq(t, u)
    ensures Subseq(s, u)
    decreases |t| + |u|
  {
    if s != [] {
      if t[0] == u[0] && Subseq(t[1..], u[1..]) {
        if s[0] == t[0] && Subseq(s[1..], t[1..]) {
          SubseqTransitive(s[1..], t[1..], u[1..]);
        } else {
          SubseqTransitive(s, t[1..], u[1..]);
        }
      } else {
        SubseqTransitive(s, t, u[1..]);
      }
    }
  }

  lemma {:induction false} SubseqPrefix(a: seq<Frame>, s: seq<Frame>, t: seq<Frame>)
    requires Subseq(s, t)
    ensures Subseq(a + s, a + t)
  {
    if a == [] {
      assert a + s == s && a + t == t;
    } else {
      SubseqPrefix(a[1..], s, t);
      assert (a + s)[1..] == a[1..] + s && (a + t)[1..] == a[1..] + t;
    }
  }

  // A subsequence of a concatenation is the concatenation of subsequences.
  lemma {:induction false} SubseqSplit(s: seq<Frame>, a: seq<Frame>, b: seq<Frame>)
    returns (x: seq<Frame>, y: seq<Frame>)
    requires Subseq(s, a + b)
    ensures s == x + y && Subseq(x, a) && Subseq(y, b)
    decreases |a|
  {
    if a == [] {
      assert a + b == b;
      x, y := [], s;
    } else if s == [] {
      x, y := [], [];
    } else {
      assert (a + b)[1..] == a[1..] + b;
      if s[0] == a[0] && Subseq(s[1..], a[1..] + b) {
        x, y := SubseqSplit(s[1..], a[1..], b);
        x := [s[0]] + x;
        assert x[1..] + y == s[1..];
      } else {
        x, y := SubseqSplit(s, a[1..], b);
        SubseqSkip(x, a);
      }
    }
  }

  lemma {:induction false} WithoutTagIsSubseq(fs: seq<Frame>, i: int)
    ensures Subseq(WithoutTag(fs, i), fs)
  {
    if fs != [] {
      WithoutTagIsSubseq(fs[1..], i);
      var rest := WithoutTag(fs[1..], i);
      if fs[0].tag == i {
        assert WithoutTag(fs, i) == rest;
        SubseqSkip(rest, fs);
      } else {
        assert WithoutTag(fs, i) == [fs[0]] + rest && ([fs[0]] + rest)[1..] == rest;
      }
    }
  }

  // ---------- the line ----------

  function Passed(e: Engine): seq<Frame> {
    e.handed + e.send
  }

  // Frames handed to the socket, then frames still queued, are frames enqueued, in
  // order; if exact, all of them.
  ghost predicate Line(e: Engine, exact: bool) {
    Subseq(Passed(e), e.enqueued) && (exact ==> Passed(e) == e.enqueued)
  }

  ghost predicate SameLine(e: Engine, r: Engine) {
    r.handed == e.handed && r.send == e.send && r.enqueued == e.enqueued
  }

  lemma EnqueueLine(e: Engine, f: Frame, exact: bool)
    requires Line(e, exact)
    ensures Line(Enqueue(e, f), exact)
  {
    SubseqOne(Passed(e), e.enqueued, f);
    assert Passed(Enqueue(e, f)) == Passed(e) + [f];
  }

  lemma TrySendLine(e: Engine, ok: bool, exact: bool)
    requires Shaped(e) && Line(e, exact)
    ensures Line(TrySend(e, ok).0, exact)
  {
    if e.send != [] {
      assert Passed(TrySend(e, ok).0) == Passed(e) by {
        assert e.send == [e.send[0]] + e.send[1..];
        assert e.handed + ([e.send[0]] + e.send[1..]) == (e.handed + [e.send[0]]) + e.send[1..];
      }
    }
  }

  lemma RegisterLine(cfg: Config, e: Engine, i: int, s: Slot, packet: seq<byte>, exact: bool)
    requires Shaped(e) && IsSlot(i) && 0 <= s.mtype && Line(e, exact)
    ensures Line(Register(cfg, e, i, s, packet), exact)
  {
    var f := Frame(i, s.mtype, packet);
    EnqueueLine(e, f, exact);
    assert SameLine(Enqueue(e, f), Register(cfg, e, i, s, packet));
  }

  lemma SubmitLine(cfg: Config, e: Engine, req: Request, ok: bool, exact: bool)
    requires Shaped(e) && RequestOk(req) && Line(e, exact)
    ensures Line(Submit(cfg, e, req, ok).0, exact)
  {
    hide Register, TrySend, RequestPacket, RequestSlot, TotalLen, Subseq;
    if e.phase == Connected {
      var j := FreeFrom(e.slots, 0);
      var e1 := Pack(cfg, e, req).0;
      if j >= 0 {
        var e0, id := Drawn(e, req), IdFor(e, req);
        RegisterLine(cfg, e0, j, RequestSlot(req, id, e0.tick + cfg.timeout), RequestPacket(req, id), exact);
      }
      assert Line(e1, exact);
      TrySendLine(e1, ok, exact);
    }
  }

  lemma CommonAckLine(cfg: Config, e: Engine, ptype: nat, awaits: int, id: nat, i: int, ok: bool, exact: bool)
    requires Shaped(e) && 0 < ptype < 16 && Line(e, exact)
    ensures Line(CommonAck(cfg, e, ptype, awaits, id, i, ok).0, exact)
  {
    var f := Frame(if IsSlot(i) then i else -1, ptype, AckPacket(ptype, id));
    EnqueueLine(e, f, exact);
    var e1 := Enqueue(e, f);
    var e2 := if IsSlot(i) then SetSlot(e1, i, e1.slots[i].(state := MWaiting, awaits := awaits)) else e1;
    TrySendLine(e2, ok, exact);
  }

  lemma AckByTypeLine(cfg: Config, e: Engine, ptype: nat, id: nat, i: int, ok: bool, exact: bool)
    requires Shaped(e) && IsSlot(i) && Line(e, exact)
    ensures Line(AckByType(cfg, e, ptype, id, i, ok).0, exact)
  {
    if ptype == PUBREC {
      CommonAckLine(cfg, e, PUBREL, PUBCOMP, id, i, ok, exact);
    } else {
      var e1 := SetSlot(e, i, Finished(e.slots[i]));
      CommonAckLine(cfg, e1, PUBCOMP, -1, id, i, ok, exact);
    }
  }

  lemma HandleAckLine(cfg: Config, e: Engine, ptype: nat, id: nat, ok: bool, exact: bool)
    requires Shaped(e) && IsAckType(ptype) && Line(e, exact)
    ensures Line(HandleAck(cfg, e, ptype, id, ok).0, exact)
  {
    var i := MatchFrom(e.slots, ptype, id, 0);
    if i >= 0 {
      AckByTypeLine(cfg, e, ptype, id, i, ok, exact);
      var e1 := AckByType(cfg, e, ptype, id, i, ok).0;
      assert SameLine(e1, DropBackup(e1, i));
      assert SameLine(e1, HandleAck(cfg, e, ptype, id, ok).0);
    }
  }

  lemma HandlePublishLine(cfg: Config, e: Engine, d: Delivery, ok: bool, exact: bool)
    requires Shaped(e) && d.qos <= 2 && Line(e, exact)
    ensures Line(HandlePublish(cfg, e, d, ok).0, exact)
  {
    var i := DuplicateOf(e, d);
    var e1 := if i == -1 then e.(delivered := e.delivered + [d]) else e;
    var (e2, j) := Track(cfg, e1, i, d.id);
    CommonAckLine(cfg, e2, PUBREC, PUBREL, d.id, j, ok, exact);
    CommonAckLine(cfg, e1, PUBACK, -1, d.id, -1, ok, exact);
  }

  lemma DoRedeliverLine(cfg: Config, e: Engine, i: int, ok: bool, exact: bool)
    requires Shaped(e) && IsSlot(i) && Line(e, exact)
    ensures Line(DoRedeliver(cfg, e, i, ok).0, exact)
  {
    CommonAckLine(cfg, e, PUBREL, PUBCOMP, e.slots[i].id, i, ok, exact);
    SendBackupLine(cfg, e, i, ok, exact);
  }

  lemma SendBackupLine(cfg: Config, e: Engine, i: int, ok: bool, exact: bool)
    requires Shaped(e) && IsSlot(i) && Line(e, exact)
    ensures Line(SendBackup(e, cfg, i, ok).0, exact)
  {
    var k := FindTag(e.backup, i);
    if k < |e.backup| {
      var e1 := SetDupInBackup(e, k);
      EnqueueLine(e1, e1.backup[k], exact);
      var e2 := Enqueue(e1, e1.backup[k]);
      TrySendLine(SetSlot(e2, i, e2.slots[i].(state := MWaiting)), ok, exact);
    }
  }

  // ---------- dropping ----------

  lemma DropLine(e: Engine, send: seq<Frame>)
    requires Line(e, false) && Subseq(send, e.send)
    ensures Line(e.(send := send), false)
  {
    SubseqPrefix(e.handed, send, e.send);
    SubseqTransitive(e.handed + send, Passed(e), e.enqueued);
  }

  lemma ReleaseLine(e: Engine, i: int, exact: bool)
    requires Shaped(e) && IsSlot(i) && Line(e, exact)
    requires exact ==> e.slots[i].state != MWaiting && e.slots[i].state != MSending
    ensures Line(Release(e, i), exact)
  {
    WithoutTagIsSubseq(e.send, i);
    DropLine(e, WithoutTag(e.send, i));
    var r := Release(e, i);
    assert SameLine(e, r) || SameLine(e.(send := WithoutTag(e.send, i)), r);
  }

  lemma RedeliverLine(cfg: Config, e: Engine, i: int, ok: bool, exact: bool, r: Engine)
    requires Shaped(e) && IsSlot(i) && Line(e, exact) && r == Redeliver(cfg, e, i, ok).0
    ensures Line(r, exact)
  {
    var s := e.slots[i];
    if s.state == MSent || s.state == MRedeliver {
      DoRedeliverLine(cfg, SetSlot(e, i, s.(opt := s.opt + 1, state := MRedeliver)), i, ok, exact);
    } else {
      assert SameLine(e, r);
    }
  }

  lemma HandleTimeoutLine(cfg: Config, e: Engine, i: int, ok: bool, exact: bool, r: Engine)
    requires Shaped(e) && IsSlot(i) && Line(e, exact) && r == HandleTimeout(cfg, e, i, ok).0
    requires exact && !CanRedeliver(cfg, e.slots[i]) ==> e.slots[i].state != MWaiting && e.slots[i].state != MSending
    ensures Line(r, exact)
  {
    var s := e.slots[i];
    if CanRedeliver(cfg, s) {
      var e1 := SetSlot(e, i, s.(expired := e.tick + cfg.timeout));
      RedeliverLine(cfg, e1, i, ok, exact, r);
    } else {
      ReleaseLine(e, i, exact);
      assert r == Release(e, i);
    }
  }

  // A client in use never keeps a half-sent frame: clearing keeps a frame without a
  // tracker, or nothing.
  lemma ClearLine(cfg: Config, e: Engine)
    requires Good(cfg, e, false) && Line(e, false)
    ensures Line(ClearBuffers(e), false)
  {
    var r := ClearBuffers(e);
    if r.send != [] {
      var f := e.send[0];
      assert forall j :: 0 <= j < SLOTS ==> SlotInv(cfg, e.slots[j]) && e.slots[j].state != MSending;
      assert f.tag == -1 && r.send == [f] && r.send[1..] == [];
      assert Subseq([], e.send[1..]);
    }
    DropLine(e, r.send);
    assert SameLine(e.(send := r.send), r);
  }

  lemma DisconnectLine(cfg: Config, e: Engine, cb: bool, ok: bool, exact: bool)
    requires Good(cfg, e, false) && Line(e, exact) && (exact ==> e.phase != Connected)
    ensures Line(Disconnect(cfg, e, cb, ok).0, exact)
  {
    hide TrySend, Register;
    if e.phase == Connected {
      ClearLine(cfg, e);
      var e1 := ClearBuffers(e);
      var g := Slot(MWaiting, DISCONNECT, -1, 0, 0, e1.tick + cfg.timeout, cb);
      RegisterLine(cfg, e1, 0, g, EmptyPacket(DISCONNECT), false);
      TrySendLine(Register(cfg, e1, 0, g, EmptyPacket(DISCONNECT)), ok, false);
      assert SameLine(Goodbye(cfg, e1, cb, ok).0, Disconnect(cfg, e, cb, ok).0);
    } else {
      assert SameLine(e, Disconnect(cfg, e, cb, ok).0);
    }
  }

  lemma ResetLine(cfg: Config, e: Engine)
    requires Good(cfg, e, false) && Line(e, false)
    ensures Line(Reset(e), false)
  {
    ClearLine(cfg, e);
    assert SameLine(ClearBuffers(e), Reset(e));
  }

  lemma PingLine(cfg: Config, e: Engine, ok: bool, exact: bool)
    requires Shaped(e) && Line(e, exact)
    ensures Line(Ping(cfg, e, ok).0, exact)
  {
    var f := Frame(-1, PINGREQ, EmptyPacket(PINGREQ));
    EnqueueLine(e, f, exact);
    TrySendLine(Enqueue(e, f), ok, exact);
  }

  lemma ConnectLine(cfg: Config, e: Engine, packet: seq<byte>, cb: bool, started: bool, exact: bool)
    requires Shaped(e) && Line(e, exact)
    ensures Line(Connect(cfg, e, packet, cb, started).0, exact)
  {
    RegisterLine(cfg, e, 0, Slot(MWaiting, CONNECT, CONNACK, 0, 0, 0, cb), packet, exact);
  }

  lemma TcpUpLine(cfg: Config, e: Engine, ok: bool, exact: bool)
    requires Shaped(e) && Line(e, exact)
    ensures Line(TcpUp(cfg, e, ok).0, exact)
  {
    TrySendLine(ConnectTimed(cfg, e), ok, exact);
  }

  // The step drops frames from the send buffer.
  ghost predicate Drops(cfg: Config, e: Engine, s: Step)
    requires Shaped(e) && StepOk(s)
  {
    match s
    case DoVisit(i, _) => Releases(cfg, e, i) && e.slots[i].state == MWaiting
    case DoDisconnect(_, _) => e.phase == Connected
    case DoReset => true
    case _ => false
  }

  lemma NextLine(cfg: Config, e: Engine, s: Step, exact: bool)
    requires Good(cfg, e, false) && Legal(e, s) && Line(e, exact) && (exact ==> !Drops(cfg, e, s))
    ensures Line(Next(cfg, e, s), exact)
  {
    match s
    case DoRequest(req, ok) => SubmitLine(cfg, e, req, ok, exact);
    case DoSend(ok) => TrySendLine(e, ok, exact);
    case DoVisit(i, ok) => VisitSlotLine(cfg, e, i, ok, exact);
    case DoPing(ok) => PingLine(cfg, e, ok, exact);
    case DoConnect(packet, cb, started) => ConnectLine(cfg, e, packet, cb, started, exact);
    case DoTcpUp(ok) => TcpUpLine(cfg, e, ok, exact);
    case DoDisconnect(cb, ok) => DisconnectLine(cfg, e, cb, ok, exact);
    case DoReset => ResetLine(cfg, e);
    case InAck(t, id, ok) => HandleAckLine(cfg, e, t, id, ok, exact);
    case InPublish(d, ok) => HandlePublishLine(cfg, e, d, ok, exact);
    case InConnack(code) => assert SameLine(e, HandleConnack(e, code).0);
    case SetTick(t) => assert SameLine(e, e.(tick := t));
    case SetPhase(p) => assert SameLine(e, e.(phase := p));
  }

  lemma VisitSlotLine(cfg: Config, e: Engine, i: int, ok: bool, exact: bool)
    requires Good(cfg, e, false) && IsSlot(i) && Line(e, exact)
    requires exact ==> !(Releases(cfg, e, i) && e.slots[i].state == MWaiting)
    ensures Line(VisitSlot(cfg, e, i, ok).0, exact)
  {
    var s := e.slots[i];
    assert SlotInv(cfg, s);
    if s.state != MFree && s.state != MFinish {
      if e.tick > s.expired {
        HandleTimeoutLine(cfg, e, i, ok, exact, HandleTimeout(cfg, e, i, ok).0);
      } else {
        DoRedeliverLine(cfg, e, i, ok, exact);
      }
    }
  }

  // ---------- runs ----------

  ghost predicate DropFree(cfg: Config, e: Engine, steps: seq<Step>)
    requires Shaped(e) && LegalRun(cfg, e, steps)
    decreases |steps|
  {
    steps == [] || (!Drops(cfg, e, steps[0]) && DropFree(cfg, Next(cfg, e, steps[0]), steps[1..]))
  }

  lemma {:induction false} RunLine(cfg: Config, e: Engine, steps: seq<Step>, exact: bool)
    requires Good(cfg, e, false) && LegalRun(cfg, e, steps) && Line(e, exact)
    requires exact ==> DropFree(cfg, e, steps)
    ensures Line(Run(cfg, e, steps), exact)
    decreases |steps|
  {
    if steps != [] {
      NextLine(cfg, e, steps[0], exact);
      NextGood(cfg, e, steps[0], false);
      RunLine(cfg, Next(cfg, e, steps[0]), steps[1..], exact);
    }
  }

  // The send buffer holds whole frames within its size. What was handed to the socket,
  // followed by what is queued, is what was enqueued, in order: all of it as long as no
  // timeout, disconnect or reset drops frames, and a subsequence of it in any case.
  lemma SendingIsFifo(cfg: Config, steps: seq<Step>)
    requires CfgOk(cfg) && LegalRun(cfg, Start(), steps)
    ensures var e := Run(cfg, Start(), steps);
            && AllOk(e.send) && TotalLen(e.send) <= cfg.sendSize
            && Subseq(e.handed + e.send, e.enqueued)
            && (DropFree(cfg, Start(), steps) ==> e.handed + e.send == e.enqueued)
  {
    StartGood(cfg);
    RunGood(cfg, Start(), steps, false);
    assert Passed(Start()) == [];
    RunLine(cfg, Start(), steps, false);
    if DropFree(cfg, Start(), steps) {
      RunLine(cfg, Start(), steps, true);
    }
  }
}
