// Retransmission is bounded, and a tracker that gets no answer is freed.
module MqttRetry {
  import opened Bytes
  import opened MqttWire
  import opened MqttFrames
  import opened MqttEngine
  import opened MqttAgreement
  import opened MqttSlots

  // ---------- measures ----------

  predicate Redeliverable(s: Slot) {
    Flagged(s) || s.awaits == PUBCOMP
  }

  // Timeouts the tracker can still see before it is released.
  function TimeoutsLeft(cfg: Config, s: Slot): int {
    if Redeliverable(s) then cfg.count - Count(s) + 1 else 1
  }

  // Frames redelivery can still enqueue: one for each count left, and one for a
  // redelivery that waits for room.
  function ResendsLeft(cfg: Config, s: Slot): int {
    if Redeliverable(s) then cfg.count - Count(s) + (if s.state == MRedeliver then 1 else 0) else 0
  }

  function Enqueued(e: Engine, i: int): nat {
    |OfTag(e.enqueued, i)|
  }

  // The visit finds the deadline of tracker i passed.
  predicate Expires(e: Engine, s: Step, i: int)
    requires Shaped(e) && IsSlot(i)
  {
    s.DoVisit? && s.slot == i && e.slots[i].state != MFree && e.slots[i].state != MFinish && e.tick > e.slots[i].expired
  }

  // Nothing answers or replaces the exchange in tracker i.
  predicate Unanswered(e: Engine, s: Step, i: int)
    requires Shaped(e) && StepOk(s)
  {
    !Takes(e, s, i) && (s.InAck? ==> MatchFrom(e.slots, s.ptype, s.id, 0) != i)
  }

  // ---------- one redelivery ----------

  // It waits for room, gives up, or enqueues one frame and no longer asks for redelivery.
  ghost predicate Redelivered(e: Engine, r: Engine, i: int)
    requires Shaped(e) && IsSlot(i)
  {
    && Shaped(r)
    && var s, t := e.slots[i], r.slots[i];
       || (t == s && Enqueued(r, i) == Enqueued(e, i))
       || (t == s.(state := MSent, opt := 0) && !Redeliverable(t) && Enqueued(r, i) == Enqueued(e, i))
       || (t == s.(state := t.state) && t.state != MRedeliver && Redeliverable(s)
           && Enqueued(r, i) == Enqueued(e, i) + 1)
  }

  lemma SentOnce(e: Engine, e2: Engine, ok: bool, i: int, f: Frame)
    requires Shaped(e) && Shaped(e2) && IsSlot(i) && f.tag == i && Redeliverable(e.slots[i])
    requires e2.slots[i] == e.slots[i].(state := MWaiting) && e2.enqueued == e.enqueued + [f]
    ensures Redelivered(e, TrySend(e2, ok).0, i)
  {
    TrySendApart(e2, ok, i);
    OfTagOne(e.enqueued, f, i);
  }

  lemma BackupRedelivered(cfg: Config, e: Engine, i: int, ok: bool, r: Engine)
    requires Good(cfg, e, false) && IsSlot(i) && Live(e.slots[i]) && e.slots[i].awaits != PUBCOMP
    requires r == SendBackup(e, cfg, i, ok).0
    ensures Redelivered(e, r, i)
  {
    var k := FindTag(e.backup, i);
    if k == |e.backup| {
      assert r.slots[i] == e.slots[i].(state := MSent, opt := 0);
    } else {
      FindIsMember(e.backup, i);
      assert FrameOwned(e.slots, e.backup[k]);
      if Room(cfg, e) >= FrameLen(e.backup[k]) {
        var e1 := SetDupInBackup(e, k);
        var e2 := Enqueue(e1, e1.backup[k]);
        SentOnce(e, SetSlot(e2, i, e2.slots[i].(state := MWaiting)), ok, i, e1.backup[k]);
      }
    }
  }

  lemma PubRelRedelivered(cfg: Config, e: Engine, i: int, ok: bool, r: Engine)
    requires Shaped(e) && IsSlot(i) && e.slots[i].awaits == PUBCOMP
    requires r == CommonAck(cfg, e, PUBREL, PUBCOMP, e.slots[i].id, i, ok).0
    ensures Redelivered(e, r, i)
  {
    var f := Frame(i, PUBREL, AckPacket(PUBREL, e.slots[i].id));
    if FrameLen(f) <= Room(cfg, e) {
      var e1 := Enqueue(e, f);
      SentOnce(e, SetSlot(e1, i, e1.slots[i].(state := MWaiting, awaits := PUBCOMP)), ok, i, f);
    }
  }

  lemma DoRedelivered(cfg: Config, e: Engine, i: int, ok: bool, r: Engine)
    requires Good(cfg, e, false) && IsSlot(i) && Live(e.slots[i]) && r == DoRedeliver(cfg, e, i, ok).0
    ensures Redelivered(e, r, i)
  {
    var x := e.slots[i].awaits;
    if x == PUBCOMP {
      PubRelRedelivered(cfg, e, i, ok, r);
    } else if x == PUBACK || x == PUBREC || x == SUBACK || x == UNSUBACK {
      BackupRedelivered(cfg, e, i, ok, r);
    } else {
      assert r == e;
    }
  }

  // ---------- one timeout ----------

  lemma CountedOnce(cfg: Config, s: Slot, e: Engine, r: Engine, i: int)
    requires Shaped(e) && IsSlot(i) && Redelivered(e, r, i)
    requires CanRedeliver(cfg, s) && s.opt < 32 && cfg.count < 16
             && e.slots[i] == s.(opt := s.opt + 1, state := MRedeliver)
    ensures TimeoutsLeft(cfg, r.slots[i]) < TimeoutsLeft(cfg, s)
    ensures Enqueued(r, i) + ResendsLeft(cfg, r.slots[i]) <= Enqueued(e, i) + ResendsLeft(cfg, s)
  {
    assert Count(e.slots[i]) == Count(s) + 1 && Flagged(e.slots[i]) == Flagged(s);
  }

  lemma OnlyCounted(cfg: Config, s: Slot, t: Slot)
    requires CanRedeliver(cfg, s) && s.opt < 32 && cfg.count < 16 && t == s.(opt := s.opt + 1) && s.state != MRedeliver
    ensures TimeoutsLeft(cfg, t) < TimeoutsLeft(cfg, s) && ResendsLeft(cfg, t) <= ResendsLeft(cfg, s)
  {
    assert Count(t) == Count(s) + 1 && Flagged(t) == Flagged(s);
  }

  // After a timeout the tracker is free or has one timeout less to go.
  lemma RedeliverSpends(cfg: Config, e: Engine, i: int, ok: bool, r: Engine)
    requires Good(cfg, e, false) && IsSlot(i) && Live(e.slots[i]) && e.slots[i].state != MFinish
             && CanRedeliver(cfg, e.slots[i])
    requires r == Redeliver(cfg, e, i, ok).0
    ensures Shaped(r) && TimeoutsLeft(cfg, r.slots[i]) < TimeoutsLeft(cfg, e.slots[i])
    ensures Enqueued(r, i) + ResendsLeft(cfg, r.slots[i]) <= Enqueued(e, i) + ResendsLeft(cfg, e.slots[i])
  {
    var s := e.slots[i];
    assert SlotInv(cfg, s);
    if s.state == MSent || s.state == MRedeliver {
      var s1 := s.(opt := s.opt + 1, state := MRedeliver);
      var e1 := SetSlot(e, i, s1);
      CountGood(cfg, e, i, s1, false);
      DoRedelivered(cfg, e1, i, ok, r);
      CountedOnce(cfg, s, e1, r, i);
    } else {
      assert r == SetSlot(e, i, s.(opt := s.opt + 1));
      OnlyCounted(cfg, s, r.slots[i]);
    }
  }

  lemma VisitSpends(cfg: Config, e: Engine, i: int, ok: bool)
    requires Good(cfg, e, false) && IsSlot(i)
    ensures var r := VisitSlot(cfg, e, i, ok).0;
            && (Live(r.slots[i]) ==> TimeoutsLeft(cfg, r.slots[i]) <= TimeoutsLeft(cfg, e.slots[i]))
            && (Live(r.slots[i]) && Expires(e, DoVisit(i, ok), i)
                ==> TimeoutsLeft(cfg, r.slots[i]) < TimeoutsLeft(cfg, e.slots[i]))
            && Enqueued(r, i) + ResendsLeft(cfg, r.slots[i]) <= Enqueued(e, i) + ResendsLeft(cfg, e.slots[i])
  {
    hide Redeliver, DoRedeliver, WithoutTag, RemoveTag, OfTag, CountTag, AllOk, TotalLen;
    var s := e.slots[i];
    var r := VisitSlot(cfg, e, i, ok).0;
    assert SlotInv(cfg, s);
    if s.state == MFree || s.state == MFinish {
      assert Enqueued(r, i) == Enqueued(e, i) && !Live(r.slots[i]);
    } else if e.tick > s.expired {
      if CanRedeliver(cfg, s) {
        var s1 := s.(expired := e.tick + cfg.timeout);
        TouchSlotGood(cfg, e, i, s1, false);
        RedeliverSpends(cfg, SetSlot(e, i, s1), i, ok, r);
      } else {
        assert r == Release(e, i);
      }
    } else if s.state == MRedeliver && Count(s) < cfg.count {
      DoRedelivered(cfg, e, i, ok, r);
    } else {
      assert r == e;
    }
  }

  // ---------- runs ----------

  lemma ApartSpends(cfg: Config, e: Engine, r: Engine, i: int)
    requires Apart(e, r, i)
    ensures TimeoutsLeft(cfg, r.slots[i]) <= TimeoutsLeft(cfg, e.slots[i])
    ensures Enqueued(r, i) + ResendsLeft(cfg, r.slots[i]) <= Enqueued(e, i) + ResendsLeft(cfg, e.slots[i])
  {
  }

  lemma NextSpends(cfg: Config, e: Engine, s: Step, i: int)
    requires Good(cfg, e, false) && Legal(e, s) && IsSlot(i) && Unanswered(e, s, i)
    ensures var r := Next(cfg, e, s);
            && (Live(r.slots[i]) ==>
                TimeoutsLeft(cfg, r.slots[i]) + (if Expires(e, s, i) then 1 else 0) <= TimeoutsLeft(cfg, e.slots[i]))
            && Enqueued(r, i) + ResendsLeft(cfg, r.slots[i]) <= Enqueued(e, i) + ResendsLeft(cfg, e.slots[i])
  {
    if Concerns(e, s, i) {
      assert s == DoVisit(i, s.ok);
      VisitSpends(cfg, e, i, s.ok);
    } else {
      NextApart(cfg, e, s, i);
      ApartSpends(cfg, e, Next(cfg, e, s), i);
    }
  }

  ghost predicate UnansweredRun(cfg: Config, e: Engine, steps: seq<Step>, i: int)
    requires Shaped(e) && LegalRun(cfg, e, steps)
    decreases |steps|
  {
    steps == [] || (Unanswered(e, steps[0], i) && UnansweredRun(cfg, Next(cfg, e, steps[0]), steps[1..], i))
  }

  ghost predicate LiveThroughout(cfg: Config, e: Engine, steps: seq<Step>, i: int)
    requires Shaped(e) && LegalRun(cfg, e, steps) && IsSlot(i)
    decreases |steps|
  {
    Live(e.slots[i]) && (steps == [] || LiveThroughout(cfg, Next(cfg, e, steps[0]), steps[1..], i))
  }

  ghost function Timeouts(cfg: Config, e: Engine, steps: seq<Step>, i: int): nat
    requires Shaped(e) && LegalRun(cfg, e, steps) && IsSlot(i)
    decreases |steps|
  {
    if steps == [] then 0
    else (if Expires(e, steps[0], i) then 1 else 0) + Timeouts(cfg, Next(cfg, e, steps[0]), steps[1..], i)
  }

  lemma {:induction false} RunSpends(cfg: Config, e: Engine, steps: seq<Step>, i: int)
    requires Good(cfg, e, false) && LegalRun(cfg, e, steps) && IsSlot(i) && UnansweredRun(cfg, e, steps, i)
    ensures var r := Run(cfg, e, steps);
            && (LiveThroughout(cfg, e, steps, i) ==>
                Live(r.slots[i]) && Timeouts(cfg, e, steps, i)
                    + TimeoutsLeft(cfg, r.slots[i]) <= TimeoutsLeft(cfg, e.slots[i]))
            && Enqueued(r, i) + ResendsLeft(cfg, r.slots[i]) <= Enqueued(e, i) + ResendsLeft(cfg, e.slots[i])
    decreases |steps|
  {
    if steps != [] {
      NextSpends(cfg, e, steps[0], i);
      NextGood(cfg, e, steps[0], false);
      RunSpends(cfg, Next(cfg, e, steps[0]), steps[1..], i);
      if LiveThroughout(cfg, e, steps, i) {
        LiveAtStart(cfg, Next(cfg, e, steps[0]), steps[1..], i);
      }
    }
  }

  lemma LiveAtStart(cfg: Config, e: Engine, steps: seq<Step>, i: int)
    requires Shaped(e) && LegalRun(cfg, e, steps) && IsSlot(i) && LiveThroughout(cfg, e, steps, i)
    ensures Live(e.slots[i])
  {
  }

  // For every configured number of redeliveries below sixteen, in every reachable state
  // the redelivery count is within its bound and has not carried into the flag. From
  // there, as long as nothing answers: redelivery enqueues at most as many frames as are
  // left to count, so at most the configured number for an exchange just begun; and the
  // tracker is freed by the timeout after the last one counted.
  lemma RetransmissionIsBounded(cfg: Config, before: seq<Step>, steps: seq<Step>, i: int)
    requires CfgOk(cfg) && LegalRun(cfg, Start(), before) && IsSlot(i)
    requires var e := Run(cfg, Start(), before); LegalRun(cfg, e, steps) && UnansweredRun(cfg, e, steps, i)
    ensures var e := Run(cfg, Start(), before);
            var r := Run(cfg, e, steps);
            && e.slots[i].opt < 32 && Count(e.slots[i]) <= cfg.count
            && Enqueued(r, i) <= Enqueued(e, i) + ResendsLeft(cfg, e.slots[i])
            && ResendsLeft(cfg, e.slots[i]) <= cfg.count + (if e.slots[i].state == MRedeliver then 1 else 0)
            && (Timeouts(cfg, e, steps, i) > cfg.count ==> !LiveThroughout(cfg, e, steps, i))
  {
    var e := Run(cfg, Start(), before);
    var r := Run(cfg, e, steps);
    StartGood(cfg);
    RunGood(cfg, Start(), before, false);
    assert SlotInv(cfg, e.slots[i]);
    RunSpends(cfg, e, steps, i);
    RunGood(cfg, e, steps, false);
    assert SlotInv(cfg, r.slots[i]);
  }
}
