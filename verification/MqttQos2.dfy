// The QoS 2 exchanges of section 4.3.3 of MQTT 3.1.1, over all runs.
module MqttQos2 {
  import opened Bytes
  import opened MqttWire
  import opened MqttFrames
  import opened MqttEngine
  import opened MqttAgreement
  import opened MqttQueue
  import opened MqttSlots

  // ---------- outbound: PUBLISH, PUBREC, PUBREL, PUBCOMP ----------

  function PubRel(i: int, id: nat): Frame {
    Frame(i, PUBREL, AckPacket(PUBREL, id))
  }

  function Copies(f: Frame, n: nat): (s: seq<Frame>)
    ensures |s| == n
  {
    if n == 0 then [] else [f] + Copies(f, n - 1)
  }

  lemma {:induction false} CopiesAdd(f: Frame, m: nat, n: nat)
    ensures Copies(f, m) + Copies(f, n) == Copies(f, m + n)
  {
    if m > 0 {
      CopiesAdd(f, m - 1, n);
      assert Copies(f, m) + Copies(f, n) == [f] + (Copies(f, m - 1) + Copies(f, n));
    } else {
      assert Copies(f, 0) + Copies(f, n) == Copies(f, n);
    }
  }

  // All that tracker i was enqueued for between e and r is n times f.
  ghost predicate Added(e: Engine, r: Engine, i: int, f: Frame, n: nat) {
    OfTag(r.enqueued, i) == OfTag(e.enqueued, i) + Copies(f, n)
  }

  ghost predicate OnlyAdded(e: Engine, r: Engine, i: int, f: Frame) {
    exists n: nat :: Added(e, r, i, f, n)
  }

  lemma OnlyAddedTransitive(e: Engine, m: Engine, r: Engine, i: int, f: Frame)
    requires OnlyAdded(e, m, i, f) && OnlyAdded(m, r, i, f)
    ensures OnlyAdded(e, r, i, f)
  {
    var a: nat :| Added(e, m, i, f, a);
    var b: nat :| Added(m, r, i, f, b);
    CopiesAdd(f, a, b);
    assert (OfTag(e.enqueued, i) + Copies(f, a)) + Copies(f, b) == OfTag(e.enqueued, i) + (Copies(f, a) + Copies(f, b));
    assert Added(e, r, i, f, a + b);
  }

  lemma NothingAdded(e: Engine, r: Engine, i: int, f: Frame)
    requires OfTag(r.enqueued, i) == OfTag(e.enqueued, i)
    ensures OnlyAdded(e, r, i, f)
  {
    assert OfTag(e.enqueued, i) + [] == OfTag(e.enqueued, i);
    assert Added(e, r, i, f, 0);
  }

  lemma OneAdded(e: Engine, r: Engine, i: int, f: Frame)
    requires OfTag(r.enqueued, i) == OfTag(e.enqueued, i) + [f]
    ensures OnlyAdded(e, r, i, f)
  {
    assert [f] + Copies(f, 0) == [f];
    assert Copies(f, 1) == [f];
    assert Added(e, r, i, f, 1);
  }

  // The exchange has its PUBREC: PUBREL is under way, or there was no room for it yet and
  // the stored PUBLISH is gone.
  predicate Released(s: Slot, id: nat) {
    s.id == id && (s.awaits == PUBCOMP || (s.awaits == PUBREC && !Flagged(s)))
  }

  ghost predicate Keeps(e: Engine, r: Engine, i: int, id: nat) {
    Shaped(r) && IsSlot(i) && Released(r.slots[i], id) && OnlyAdded(e, r, i, PubRel(i, id))
  }

  lemma KeepsTransitive(e: Engine, m: Engine, r: Engine, i: int, id: nat)
    requires Keeps(e, m, i, id) && Keeps(m, r, i, id)
    ensures Keeps(e, r, i, id)
  {
    OnlyAddedTransitive(e, m, r, i, PubRel(i, id));
  }

  lemma ApartKeeps(e: Engine, r: Engine, i: int, id: nat)
    requires Apart(e, r, i) && Released(e.slots[i], id)
    ensures Keeps(e, r, i, id)
  {
    NothingAdded(e, r, i, PubRel(i, id));
  }

  // The PUBREL of tracker i is enqueued if there is room.
  lemma PubRelKeeps(cfg: Config, e: Engine, i: int, id: nat, ok: bool, r: Engine)
    requires Shaped(e) && IsSlot(i) && e.slots[i].id == id
             && (e.slots[i].awaits == PUBREC || e.slots[i].awaits == PUBCOMP)
    requires r == CommonAck(cfg, e, PUBREL, PUBCOMP, id, i, ok).0
    ensures OnlyAdded(e, r, i, PubRel(i, id))
    ensures r == e || Released(r.slots[i], id)
  {
    var packet := AckPacket(PUBREL, id);
    if HEADER_LEN + |packet| <= Room(cfg, e) {
      var e1 := Enqueue(e, PubRel(i, id));
      OfTagOne(e.enqueued, PubRel(i, id), i);
      var e2 := SetSlot(e1, i, e1.slots[i].(state := MWaiting, awaits := PUBCOMP));
      OneAdded(e, e2, i, PubRel(i, id));
      TrySendApart(e2, ok, i);
      assert r == TrySend(e2, ok).0;
      ApartKeeps(e2, r, i, id);
      OnlyAddedTransitive(e, e2, r, i, PubRel(i, id));
    } else {
      NothingAdded(e, r, i, PubRel(i, id));
    }
  }

  // A matching PUBREC puts the exchange there, room or no room.
  lemma PubrecReleases(cfg: Config, e: Engine, id: nat, ok: bool)
    requires Shaped(e)
    ensures var i := MatchFrom(e.slots, PUBREC, id, 0); i >= 0 ==> Keeps(e, HandleAck(cfg, e, PUBREC, id, ok).0, i, id)
  {
    var i := MatchFrom(e.slots, PUBREC, id, 0);
    if i >= 0 {
      var e1 := AckByType(cfg, e, PUBREC, id, i, ok).0;
      PubRelKeeps(cfg, e, i, id, ok, e1);
      assert OnlyAdded(e, DropBackup(e1, i), i, PubRel(i, id)) by {
        NothingAdded(e1, DropBackup(e1, i), i, PubRel(i, id));
        OnlyAddedTransitive(e, e1, DropBackup(e1, i), i, PubRel(i, id));
      }
    }
  }

  lemma PubcompKeeps(cfg: Config, e: Engine, id: nat, ok: bool, i: int)
    requires Shaped(e) && IsSlot(i) && MatchFrom(e.slots, PUBCOMP, id, 0) == i && Released(e.slots[i], id)
    ensures Keeps(e, HandleAck(cfg, e, PUBCOMP, id, ok).0, i, id)
  {
    var r := HandleAck(cfg, e, PUBCOMP, id, ok).0;
    NothingAdded(e, r, i, PubRel(i, id));
  }

  lemma RedeliverKeeps(cfg: Config, e: Engine, i: int, id: nat, ok: bool, r: Engine)
    requires Good(cfg, e, false) && IsSlot(i) && Live(e.slots[i]) && Released(e.slots[i], id)
    requires r == DoRedeliver(cfg, e, i, ok).0
    ensures Keeps(e, r, i, id)
  {
    if e.slots[i].awaits == PUBCOMP {
      PubRelKeeps(cfg, e, i, id, ok, r);
    } else {
      NoFrame(cfg, e, i);
      CountZero(e.backup, i);
      assert r == SetSlot(e, i, e.slots[i].(state := MSent, opt := 0));
      NothingAdded(e, r, i, PubRel(i, id));
    }
  }

  lemma RetryKeeps(cfg: Config, e: Engine, i: int, id: nat, ok: bool, r: Engine)
    requires Shaped(e) && IsSlot(i) && e.slots[i].id == id && e.slots[i].awaits == PUBCOMP
    requires r == Redeliver(cfg, e, i, ok).0
    ensures Keeps(e, r, i, id)
  {
    var s := e.slots[i];
    if s.state == MSent || s.state == MRedeliver {
      var e1 := SetSlot(e, i, s.(opt := s.opt + 1, state := MRedeliver));
      assert r == CommonAck(cfg, e1, PUBREL, PUBCOMP, id, i, ok).0;
      PubRelKeeps(cfg, e1, i, id, ok, r);
      NothingAdded(e, e1, i, PubRel(i, id));
      OnlyAddedTransitive(e, e1, r, i, PubRel(i, id));
    } else {
      NothingAdded(e, r, i, PubRel(i, id));
    }
  }

  lemma TimeoutKeeps(cfg: Config, e: Engine, i: int, id: nat, ok: bool, r: Engine)
    requires Shaped(e) && IsSlot(i) && Released(e.slots[i], id)
    requires r == HandleTimeout(cfg, e, i, ok).0
    ensures Keeps(e, r, i, id)
  {
    var s := e.slots[i];
    if CanRedeliver(cfg, s) {
      assert s.awaits == PUBCOMP;
      var e1 := SetSlot(e, i, s.(expired := e.tick + cfg.timeout));
      RetryKeeps(cfg, e1, i, id, ok, r);
      NothingAdded(e, e1, i, PubRel(i, id));
      OnlyAddedTransitive(e, e1, r, i, PubRel(i, id));
    } else {
      assert r == Release(e, i);
      NothingAdded(e, r, i, PubRel(i, id));
    }
  }

  lemma VisitKeeps(cfg: Config, e: Engine, i: int, id: nat, ok: bool)
    requires Good(cfg, e, false) && IsSlot(i) && Released(e.slots[i], id)
    ensures Keeps(e, VisitSlot(cfg, e, i, ok).0, i, id)
  {
    var s := e.slots[i];
    var r := VisitSlot(cfg, e, i, ok).0;
    if s.state != MFree && s.state != MFinish && e.tick > s.expired {
      TimeoutKeeps(cfg, e, i, id, ok, r);
    } else if s.state == MRedeliver && Count(s) < cfg.count {
      RedeliverKeeps(cfg, e, i, id, ok, r);
    } else {
      NothingAdded(e, r, i, PubRel(i, id));
    }
  }

  // From then on no step that leaves tracker i to its exchange enqueues anything but
  // PUBREL for it.
  lemma NextKeeps(cfg: Config, e: Engine, s: Step, i: int, id: nat)
    requires Good(cfg, e, false) && Legal(e, s) && IsSlot(i) && Released(e.slots[i], id) && !Takes(e, s, i)
    ensures Keeps(e, Next(cfg, e, s), i, id)
  {
    if !Concerns(e, s, i) {
      NextApart(cfg, e, s, i);
      ApartKeeps(e, Next(cfg, e, s), i, id);
    } else {
      match s
      case DoVisit(_, ok) => VisitKeeps(cfg, e, i, id, ok);
      case InAck(t, id1, ok) =>
        if t == PUBREC {
          PubrecReleases(cfg, e, id1, ok);
        } else {
          PubcompKeeps(cfg, e, id1, ok, i);
        }
    }
  }

  // ---------- runs ----------

  // No step of the run gives tracker i to another exchange.
  ghost predicate Undisturbed(cfg: Config, e: Engine, steps: seq<Step>, i: int)
    requires Shaped(e) && LegalRun(cfg, e, steps)
    decreases |steps|
  {
    steps == [] || (!Takes(e, steps[0], i) && Undisturbed(cfg, Next(cfg, e, steps[0]), steps[1..], i))
  }

  lemma {:induction false} RunKeeps(cfg: Config, e: Engine, steps: seq<Step>, i: int, id: nat)
    requires Good(cfg, e, false) && LegalRun(cfg, e, steps) && Undisturbed(cfg, e, steps, i)
    requires IsSlot(i) && Released(e.slots[i], id)
    ensures Keeps(e, Run(cfg, e, steps), i, id)
    decreases |steps|
  {
    if steps == [] {
      NothingAdded(e, e, i, PubRel(i, id));
    } else {
      var m := Next(cfg, e, steps[0]);
      NextKeeps(cfg, e, steps[0], i, id);
      NextGood(cfg, e, steps[0], false);
      RunKeeps(cfg, m, steps[1..], i, id);
      KeepsTransitive(e, m, Run(cfg, e, steps), i, id);
    }
  }

  // Once a PUBREC matches tracker i, every frame enqueued for the exchange is PUBREL,
  // whatever happens until the tracker is taken for another exchange, and also if there
  // was no room for the first PUBREL.
  lemma NoPublishAfterPubrec(cfg: Config, before: seq<Step>, id: nat, ok: bool, after: seq<Step>)
    requires CfgOk(cfg) && LegalRun(cfg, Start(), before) && id <= MAX_MESSAGE_ID
    requires var e := Run(cfg, Start(), before);
             var e1 := HandleAck(cfg, e, PUBREC, id, ok).0;
             var i := MatchFrom(e.slots, PUBREC, id, 0);
             i >= 0 && LegalRun(cfg, e1, after) && Undisturbed(cfg, e1, after, i)
    ensures var e := Run(cfg, Start(), before);
            var r := Run(cfg, HandleAck(cfg, e, PUBREC, id, ok).0, after);
            var i := MatchFrom(e.slots, PUBREC, id, 0);
            OnlyAdded(e, r, i, PubRel(i, id))
  {
    var e := Run(cfg, Start(), before);
    StartGood(cfg);
    RunGood(cfg, Start(), before, false);
    HandleAckGood(cfg, e, PUBREC, id, ok, false);
    PubrecReleases(cfg, e, id, ok);
    var e1, i := HandleAck(cfg, e, PUBREC, id, ok).0, MatchFrom(e.slots, PUBREC, id, 0);
    RunKeeps(cfg, e1, after, i, id);
    OnlyAddedTransitive(e, e1, Run(cfg, e1, after), i, PubRel(i, id));
  }

  // ---------- what leaves ----------

  lemma {:induction false} OfTagSubseq(s: seq<Frame>, t: seq<Frame>, i: int)
    requires Subseq(s, t)
    ensures Subseq(OfTag(s, i), OfTag(t, i))
    decreases |t|
  {
    if s != [] {
      if s[0] == t[0] && Subseq(s[1..], t[1..]) {
        OfTagSubseq(s[1..], t[1..], i);
        SubseqPrefix(if t[0].tag == i then [t[0]] else [], OfTag(s[1..], i), OfTag(t[1..], i));
      } else {
        OfTagSubseq(s, t[1..], i);
        if t[0].tag == i {
          assert OfTag(t, i)[1..] == OfTag(t[1..], i);
          SubseqSkip(OfTag(s, i), OfTag(t, i));
        } else {
          assert OfTag(t, i) == OfTag(t[1..], i);
        }
      }
    }
  }

  lemma {:induction false} SubseqOfCopies(s: seq<Frame>, f: Frame, n: nat)
    requires Subseq(s, Copies(f, n))
    ensures s == Copies(f, |s|)
    decreases n
  {
    if s != [] {
      var t := Copies(f, n);
      assert t[1..] == Copies(f, n - 1);
      if s[0] == t[0] && Subseq(s[1..], t[1..]) {
        SubseqOfCopies(s[1..], f, n - 1);
      } else {
        SubseqOfCopies(s, f, n - 1);
      }
    }
  }

  lemma {:induction false} SubseqFront(s: seq<Frame>, a: seq<Frame>, t: seq<Frame>)
    requires Subseq(s + a, t)
    ensures Subseq(s, t)
    decreases |t|
  {
    if s != [] {
      assert (s + a)[1..] == s[1..] + a;
      if s[0] == t[0] && Subseq((s + a)[1..], t[1..]) {
        SubseqFront(s[1..], a, t[1..]);
      } else {
        SubseqFront(s, a, t[1..]);
      }
    }
  }

  // With that, and first in first out: of all frames of the tracker that leave, those
  // enqueued before the PUBREC leave first, and after them only PUBREL.
  lemma NoPublishLeavesAfterPubrel(cfg: Config, before: seq<Step>, id: nat, ok: bool, after: seq<Step>)
    returns (x: seq<Frame>, n: nat)
    requires CfgOk(cfg) && LegalRun(cfg, Start(), before) && id <= MAX_MESSAGE_ID
    requires var e := Run(cfg, Start(), before);
             var e1 := HandleAck(cfg, e, PUBREC, id, ok).0;
             var i := MatchFrom(e.slots, PUBREC, id, 0);
             i >= 0 && LegalRun(cfg, e1, after) && Undisturbed(cfg, e1, after, i)
    ensures var e := Run(cfg, Start(), before);
            var r := Run(cfg, HandleAck(cfg, e, PUBREC, id, ok).0, after);
            var i := MatchFrom(e.slots, PUBREC, id, 0);
            OfTag(r.handed, i) == x + Copies(PubRel(i, id), n) && Subseq(x, OfTag(e.enqueued, i))
  {
    var e := Run(cfg, Start(), before);
    var e1, i := HandleAck(cfg, e, PUBREC, id, ok).0, MatchFrom(e.slots, PUBREC, id, 0);
    var r := Run(cfg, e1, after);
    NoPublishAfterPubrec(cfg, before, id, ok, after);
    StartGood(cfg);
    RunGood(cfg, Start(), before, false);
    assert Passed(Start()) == [];
    RunLine(cfg, Start(), before, false);
    HandleAckLine(cfg, e, PUBREC, id, ok, false);
    HandleAckGood(cfg, e, PUBREC, id, ok, false);
    RunLine(cfg, e1, after, false);
    SubseqFront(r.handed, r.send, r.enqueued);
    OfTagSubseq(r.handed, r.enqueued, i);
    var m: nat :| Added(e, r, i, PubRel(i, id), m);
    var y;
    x, y := SubseqSplit(OfTag(r.handed, i), OfTag(e.enqueued, i), Copies(PubRel(i, id), m));
    SubseqOfCopies(y, PubRel(i, id), m);
    n := |y|;
  }
}
