// Sessions, tick by tick, in which the release of one tracker cuts the message of another, or
// never comes to an end.
module MqttCut {
  import opened Bytes
  import opened MqttWire
  import opened MqttFrames
  import opened MqttEngine
  import opened MqttScan
  import opened MqttRemoval
  import opened MqttExact
  import opened MqttRelease
  import opened MqttClient
  import opened MqttTick
  import opened MqttStale

  function Posting(payload: seq<byte>, cb: bool): Step {
    DoRequest(PublishReq(0, false, [65], payload, cb), true)
  }

  function Posted(i: int, payload: seq<byte>): Frame {
    Frame(i, PUBLISH, PublishPacket(false, 0, false, 0, [65], payload))
  }

  function Queued(state: MsgState, expired: nat, cb: bool): Slot {
    Slot(state, PUBLISH, -1, 0, 0, expired, cb)
  }

  // Connected, with all trackers but the first two free.
  ghost predicate With(s: Session, tick: nat, s0: Slot, s1: Slot, send: seq<Frame>) {
    && Fits(SETUP, s) && s.e.phase == Connected && s.e.tick == tick
    && s.e.slots[0] == s0 && s.e.slots[1] == s1
    && (forall i :: 2 <= i < SLOTS ==> s.e.slots[i].state == MFree)
    && s.e.send == send && s.buf == [] && s.last == 1 && !s.waiting
  }

  lemma PostedLen(i: int, payload: seq<byte>)
    requires |payload| <= 7
    ensures FrameLen(Posted(i, payload)) == 11 + |payload| && |Posted(i, payload).packet| == 5 + |payload|
    ensures -1 <= i < SLOTS ==> FrameOk(Posted(i, payload))
  {
  }

  // A publication goes behind the queue, and a late CONNECT leaves.
  lemma PostAct(s: Session, tick: nat, s0: Slot, s1: Slot, q: seq<Frame>, payload: seq<byte>, cb: bool)
    requires With(s, tick, s0, s1, [ConnectFrame()] + q) && |payload| <= 7 && TotalLen([ConnectFrame()] + q) <= 900
    requires s0.state == MFree || (s0 == Queued(MFinish, 12, true) && s1.state == MFree)
    ensures var a, t := Call(Posting(payload, cb)), tick + 10;
            && Allowed(s, a)
            && if s0.state == MFree
               then With(Act(SETUP, s, a), tick, Queued(if cb then MFinish else MFree, t, cb), s1,
                         q + [Posted(0, payload)])
               else With(Act(SETUP, s, a), tick, s0, Queued(MWaiting, t, cb), q + [Posted(1, payload)])
  {
    hide TotalLen, PublishPacket, ConnectPacket;
    var i := if s0.state == MFree then 0 else 1;
    PostedLen(i, payload);
    assert FreeFrom(s.e.slots, 0) == i;
    assert ([ConnectFrame()] + q + [Posted(i, payload)])[1..] == q + [Posted(i, payload)];
  }

  // ---------- the tick in between ----------

  lemma SecondStays(e: Engine, expired: nat)
    requires Shaped(e) && e.slots[1] == Queued(MWaiting, expired, false) && e.tick <= expired
    requires forall i :: 2 <= i < SLOTS ==> e.slots[i].state == MFree
    ensures Sweep(CFG, e, 1, YES.visits) == (e, STAT_OK)
  {
    SweepFree(e, 2, YES.visits);
    assert VisitSlot(CFG, e, 1, true) == (e, STAT_OK);
  }

  lemma FirstVisited(e: Engine, r: Engine)
    requires Shaped(e) && VisitSlot(CFG, e, 0, true) == (r, STAT_OK)
    ensures Sweep(CFG, e, 0, YES.visits) == Sweep(CFG, r, 1, YES.visits)
  {
    hide VisitSlot;
  }

  lemma TurnAct(s: Session, q: seq<Frame>)
    requires With(s, 2, Queued(MFinish, 12, true), Queued(MWaiting, 12, false), [ConnectFrame()] + q)
    ensures Allowed(s, Turn(8, YES))
    ensures With(Act(SETUP, s, Turn(8, YES)), 8, Queued(MFree, 12, true), Queued(MWaiting, 12, false), q)
  {
    hide Sweep;
    var e := s.e.(tick := 8);
    var e1 := TrySend(e, true).0;
    assert ([ConnectFrame()] + q)[1..] == q;
    var e2 := VisitSlot(CFG, e1, 0, true).0;
    SecondStays(e2, 12);
    FirstVisited(e1, e2);
  }

  // ---------- the tick that releases ----------

  // Five connects are refused before one succeeds, so that every packet leaves late; then
  // three publications are queued, the last with any payload of seven bytes.
  lemma Backlog(payload: seq<byte>) returns (acts: seq<Action>, s: Session)
    requires |payload| == 7
    ensures AllowedAll(SETUP, Fresh(), acts) && s == ActAll(SETUP, Fresh(), acts)
    ensures With(s, 8, Queued(MFree, 18, false), Queued(MWaiting, 12, false),
                 [Posted(0, []), Posted(1, []), Posted(0, payload)])
  {
    hide Act, Allowed, ConnectFrame, Posted;
    var c, a, b := ConnectFrame(), Posted(0, []), Posted(1, []);
    Lengths4(c, a, b, payload);
    acts, s := Opening();
    OpeningIs(s);
    PostAct(s, 2, s.e.slots[0], s.e.slots[1], [c, c, c], [], true);
    acts, s := Extend(acts, s, Call(Posting([], true)));
    PostAct(s, 2, s.e.slots[0], s.e.slots[1], [c, c, a], [], false);
    acts, s := Extend(acts, s, Call(Posting([], false)));
    TurnAct(s, [c, a, b]);
    acts, s := Extend(acts, s, Turn(8, YES));
    PostAct(s, 8, s.e.slots[0], s.e.slots[1], [a, b], payload, false);
    acts, s := Extend(acts, s, Call(Posting(payload, false)));
  }

  // In the tick past the deadline of the second publication, after its send and with nothing
  // received, e is swept: tracker 0 is free, and tracker 1 is released while the second and
  // the third publication are queued.
  ghost predicate Releasing(s: Session, e: Engine, payload: seq<byte>) {
    && Shaped(s.e) && s.e.tick <= 13 && s.buf == [] && TrySend(s.e.(tick := 13), true) == (e, STAT_OK)
    && Shaped(e) && Polls(s.e.phase) && VisitSlot(CFG, e, 0, true) == (e, STAT_OK) && Releases(CFG, e, 1)
    && e.slots[1].state == MWaiting && e.send == [Posted(1, []), Posted(0, payload)]
  }

  lemma BacklogReleases(s: Session, payload: seq<byte>) returns (e: Engine)
    requires With(s, 8, Queued(MFree, 18, false), Queued(MWaiting, 12, false),
                  [Posted(0, []), Posted(1, []), Posted(0, payload)])
    ensures Releasing(s, e, payload)
  {
    hide PublishPacket;
    e := TrySend(s.e.(tick := 13), true).0;
    assert e.send == [Posted(1, []), Posted(0, payload)];
  }

  lemma InexactPass(s: Session, e: Engine, payload: seq<byte>)
    requires Shaped(s.e) && Releasing(s, e, payload) && !Exact(e.send, 1)
    ensures Allowed(s, Turn(13, YES)) && !ExactPass(SETUP, s, 13, YES)
  {
    hide Exact, Posted;
    assert Feed(CFG, e, [], []).e == e;
    assert !ExactVisit(CFG, e, 1);
    assert !ExactSweep(CFG, e, 1, YES.visits);
  }

  // ---------- the bytes that are walked over ----------

  lemma PostedBytes(payload: seq<byte>)
    requires |payload| == 7
    ensures FrameOk(Posted(0, payload))
    ensures FrameBytes(Posted(0, payload)) == [0, 3, 12, 0, 0, 0, 48, 10, 0, 1, 65] + payload
  {
    PostedLen(0, payload);
    PostedPacket(payload);
    PadTwelve();
    hide Posted, PadLen;
  }

  lemma PadTwelve()
    ensures PadLen(12) == [12, 0, 0, 0]
  {
    assert Zeros(3) == [0, 0, 0] && RemLen(12) == [12];
  }

  lemma PostedPacket(payload: seq<byte>)
    requires |payload| == 7
    ensures Posted(0, payload) == Frame(0, PUBLISH, [48, 10, 0, 1, 65] + payload)
  {
    assert RemLen(10) == [10];
    assert PublishBody(0, 0, [65], payload) == [0, 1, 65] + payload;
  }

  // The scan goes on at the payload of the next message.
  lemma PayloadIsWalked(payload: seq<byte>) returns (rest: seq<byte>)
    requires |payload| == 7
    ensures FrameOk(Posted(1, [])) && AllOk([Posted(0, payload)]) && |rest| == 11
    ensures Walked(Posted(1, []), [Posted(0, payload)]) == payload + rest
  {
    hide FrameBytes, Posted;
    PostedLen(1, []);
    PostedBytes(payload);
    var g := Posted(0, payload);
    FlattenOne(g);
    var p := FrameBytes(g);
    rest := p[7..];
    assert p[11..] == payload;
  }

  lemma QueueOk(payload: seq<byte>)
    requires |payload| == 7
    ensures var f, g := Posted(1, []), Posted(0, payload);
            [f, g] == [] + ([f] + [g]) && AllOk([f, g]) && FrameOk(f) && f.tag == 1 && g.tag == 0
  {
    PostedLen(1, []);
    PostedBytes(payload);
  }

  // What the scan comes to is what it comes to behind the second publication.
  lemma QueueKept(payload: seq<byte>, b: seq<byte>)
    requires |payload| == 7
    ensures var f, g := Posted(1, []), Posted(0, payload);
            && AllOk([f, g]) && AllOk([g]) && FrameOk(f)
            && Kept(Flatten([f, g]), b, 1)
               == WalkBehind(Flatten([g]), FrameLen(f), Kept(Walked(f, [g]), b, 1))
  {
    QueueOk(payload);
    var f, g := Posted(1, []), Posted(0, payload);
    assert [f, g][1..] == [g];
    hide Posted, FrameBytes;
    KeptFrame(f, Flatten([g]), b, 1);
  }

  // ---------- a message is cut ----------

  // A header for tracker 1 and one byte.
  const CUT: seq<byte> := [1, 3, 1, 0, 0, 0, 9]

  lemma CutIsTaken(v: seq<byte>, b: seq<byte>)
    requires |v| == 18 && v[..7] == CUT
    ensures Headed(v, b) && WholeLength(v + b) == 7 && ReadTag(v[0]) == 1
  {
    assert v[0] == v[..7][0] && (v + b)[1] == v[..7][1];
    var s := From(v + b, 2);
    assert s[0] == v[..7][2] == 1;
  }

  // The bytes left are not those of the third publication.
  lemma CutBytes(b: seq<byte>)
    ensures var f, g := Posted(1, []), Posted(0, CUT);
            AllOk([f, g]) && AllOk([g]) && Kept(Flatten([f, g]), b, 1) != Keeps(Flatten([g]))
  {
    hide Posted, Kept, Beyond, Behind;
    QueueKept(CUT, b);
    var rest := PayloadIsWalked(CUT);
    CutShortens(CUT + rest, b);
    PostedBytes(CUT);
    FlattenOne(Posted(0, CUT));
  }

  // With the bytes of a header for tracker 1 as payload, the tick that releases tracker 1
  // cuts the third publication, whose own tracker is not due; whatever is behind the buffer.
  lemma NextMessageIsCut() returns (acts: seq<Action>, s: Session, e: Engine)
    ensures AllowedAll(SETUP, Fresh(), acts) && s == ActAll(SETUP, Fresh(), acts) && Releasing(s, e, CUT)
    ensures AllOk(e.send) && AllOk([Posted(0, CUT)]) && Allowed(s, Turn(13, YES)) && !ExactPass(SETUP, s, 13, YES)
    ensures forall b :: ReleasedBytes(e, 1, b) != Keeps(Flatten([Posted(0, CUT)]))
  {
    hide Posted, Releasing, ExactPass, Kept, Exact, Flatten, AllOk, Act, Allowed, Queued, With, AllowedAll;
    acts, s := Backlog(CUT);
    e := BacklogReleases(s, CUT);
    ReleasingSends(s, e, CUT);
    forall b ensures ReleasedBytes(e, 1, b) != Keeps(Flatten([Posted(0, CUT)])) {
      CutBytes(b);
    }
    CutBytes([]);
    NotExact(CUT);
    InexactPass(s, e, CUT);
  }

  lemma ReleasingSends(s: Session, e: Engine, payload: seq<byte>)
    requires Releasing(s, e, payload) && |payload| == 7
    ensures Shaped(s.e) && Shaped(e) && e.slots[1].state == MWaiting
    ensures e.send == [Posted(1, []), Posted(0, payload)] && AllOk(e.send) && AllOk([Posted(0, payload)])
  {
    QueueOk(payload);
    PostedBytes(payload);
  }

  lemma CutShortens(v: seq<byte>, b: seq<byte>)
    requires |v| == 18 && v[..7] == CUT
    ensures Kept(v, b, 1).Keeps? ==> |Kept(v, b, 1).bytes| <= 11
  {
    hide WholeLength, Headed;
    CutIsTaken(v, b);
    KeptStep(v, b, 1);
  }

  lemma NotExact(payload: seq<byte>)
    requires |payload| == 7
    requires var f, g := Posted(1, []), Posted(0, payload);
             AllOk([f, g]) && AllOk([g]) && Kept(Flatten([f, g]), [], 1) != Keeps(Flatten([g]))
    ensures !Exact([Posted(1, []), Posted(0, payload)], 1)
  {
    QueueOk(payload);
    hide Posted, Kept;
    var f, g := Posted(1, []), Posted(0, payload);
    WithoutOne([], f, [g]);
    assert [] + [g] == [g];
    assert !ExactOn([f, g], [], 1);
  }

  // ---------- the scan does not end ----------

  // A header whose length comes to 0 in 32 bits.
  const ENDLESS: seq<byte> := [2, 3, 250, 255, 255, 255, 15]

  lemma FiveBytes(rest: seq<byte>)
    ensures ReadPad([250, 255, 255, 255, 15] + rest) == 0xFFFF_FFFA
  {
    var s := [250, 255, 255, 255, 15] + rest;
    assert s[1..][1..] == s[2..] && s[2..][1..] == s[3..] && s[3..][1..] == s[4..];
    assert ReadPad(s[4..]) == 15;
    assert ReadPad(s[3..]) == 127 + 128 * 15;
    assert ReadPad(s[2..]) == 127 + 128 * (127 + 128 * 15);
    assert ReadPad(s[1..]) == 127 + 128 * (127 + 128 * (127 + 128 * 15));
  }

  lemma EndlessHeader(v: seq<byte>, b: seq<byte>)
    requires |v| == 18 && v[..7] == ENDLESS
    ensures Headed(v, b) && WholeLength(v + b) == 0
  {
    assert v[0] == v[..7][0] && (v + b)[1] == v[..7][1];
    assert v[..7][2..] == [250, 255, 255, 255, 15];
    assert From(v + b, 2) == [250, 255, 255, 255, 15] + (v[7..] + b);
    FiveBytes(v[7..] + b);
    hide ReadPad;
  }

  lemma EndlessBytes(b: seq<byte>)
    ensures var f, g := Posted(1, []), Posted(0, ENDLESS); AllOk([f, g]) && Kept(Flatten([f, g]), b, 1) == Endless
  {
    hide Posted, Kept, Beyond, Behind, Headed, WholeLength;
    QueueKept(ENDLESS, b);
    var rest := PayloadIsWalked(ENDLESS);
    assert (ENDLESS + rest)[..7] == ENDLESS;
    EndlessHeader(ENDLESS + rest, b);
    KeptStep(ENDLESS + rest, b, 1);
  }

  // With such bytes as payload, the scan for tracker 1 in that tick never ends.
  lemma ReleaseNeverEnds() returns (acts: seq<Action>, s: Session, e: Engine)
    ensures AllowedAll(SETUP, Fresh(), acts) && s == ActAll(SETUP, Fresh(), acts) && Releasing(s, e, ENDLESS)
    ensures AllOk(e.send) && Allowed(s, Turn(13, YES)) && !ExactPass(SETUP, s, 13, YES)
    ensures forall b :: ReleasedBytes(e, 1, b) == Endless
  {
    hide Posted, Releasing, ExactPass, Kept, Exact, Flatten, AllOk, Act, Allowed, Queued, With, AllowedAll;
    acts, s := Backlog(ENDLESS);
    e := BacklogReleases(s, ENDLESS);
    ReleasingSends(s, e, ENDLESS);
    forall b ensures ReleasedBytes(e, 1, b) == Endless {
      EndlessBytes(b);
    }
    EndlessBytes([]);
    NotExact(ENDLESS);
    InexactPass(s, e, ENDLESS);
  }

  // ---------- the scan stops ----------

  // A header whose length needs a fifth byte and is too large.
  const LONG: seq<byte> := [2, 3, 128, 128, 128, 128, 1]

  lemma LongField(rest: seq<byte>)
    ensures ReadPad([128, 128, 128, 128, 1] + rest) == 0x1000_0000
  {
    var s := [128, 128, 128, 128, 1] + rest;
    assert s[1..][1..] == s[2..] && s[2..][1..] == s[3..] && s[3..][1..] == s[4..];
    assert ReadPad(s[4..]) == 1;
    assert ReadPad(s[3..]) == 128;
    assert ReadPad(s[2..]) == 128 * 128;
    assert ReadPad(s[1..]) == 128 * (128 * 128);
  }

  lemma StopsAtOnce(v: seq<byte>, b: seq<byte>)
    requires |v| == 18 && v[..7] == LONG
    ensures !Headed(v, b)
  {
    assert v[..7][2..] == [128, 128, 128, 128, 1];
    assert From(v + b, 2) == [128, 128, 128, 128, 1] + (v[7..] + b);
    LongField(v[7..] + b);
  }

  // With such bytes as payload, the third publication stays whole.
  lemma LongFieldStops()
    ensures Exact([Posted(1, []), Posted(0, LONG)], 1)
  {
    hide Posted, Headed, ExactOn;
    QueueOk(LONG);
    var rest := PayloadIsWalked(LONG);
    forall b ensures ExactOn([Posted(1, []), Posted(0, LONG)], b, 1) {
      StopsAtOnce(LONG + rest, b);
      OneExactIff([], Posted(1, []), [Posted(0, LONG)], b);
    }
  }

  // ---------- lengths ----------

  lemma OpeningIs(s: Session)
    requires At(s, Connected, 2, Connecter(MFree, 11), Connects(4), [], 1)
    ensures var c := ConnectFrame();
            With(s, 2, Connecter(MFree, 11), s.e.slots[1], [c] + [c, c, c]) && s.e.slots[1].state == MFree
  {
    assert Connects(4) == [ConnectFrame()] + [ConnectFrame(), ConnectFrame(), ConnectFrame()];
  }

  lemma Lengths4(c: Frame, a: Frame, b: Frame, payload: seq<byte>)
    requires c == ConnectFrame() && a == Posted(0, []) && b == Posted(1, [])
    ensures TotalLen([c] + [c, c, c]) <= 900 && [c, c, c] + [a] == [c] + [c, c, a]
    ensures TotalLen([c] + [c, c, a]) <= 900 && [c, c, a] + [b] == [c] + [c, a, b]
    ensures TotalLen([c] + [a, b]) <= 900 && [c, a, b] == [c] + [a, b] && [a, b] + [Posted(0, payload)] ==
            [a, b, Posted(0, payload)]
  {
    PostedLen(0, []);
    PostedLen(1, []);
    hide Posted, ConnectPacket;
    ThreeLen(c, c, c);
    ThreeLen(c, c, a);
    TwoLen(a, b);
    assert ([c] + [c, c, c])[1..] == [c, c, c] && ([c] + [c, c, a])[1..] == [c, c, a] && ([c] + [a, b])[1..] == [a, b];
  }

  lemma TwoLen(x: Frame, y: Frame)
    ensures TotalLen([x, y]) == FrameLen(x) + FrameLen(y)
  {
    assert [x, y][1..] == [y] && [y][1..] == [];
    assert TotalLen([y]) == FrameLen(y);
  }

  lemma ThreeLen(x: Frame, y: Frame, z: Frame)
    ensures TotalLen([x, y, z]) == FrameLen(x) + FrameLen(y) + FrameLen(z)
  {
    assert [x, y, z][1..] == [y, z];
    TwoLen(y, z);
  }
}
