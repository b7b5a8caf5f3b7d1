// Reassembly of the inbound byte stream: bytes arrive in arbitrary chunks, whole
// packets are dispatched in order, the rest stays buffered.
module MqttReceive {
  import opened Bytes
  import opened MqttWire

  // ---------- one pass of mqtt_handle_messages ----------

  // The packets dispatched, the bytes kept, and whether the buffer was discarded.
  datatype Pass = Pass(packets: seq<seq<byte>>, rest: seq<byte>, discarded: bool)

  // verdicts[k] is what dispatching the k-th packet of this pass returns (0 beyond
  // the end): -1 discards the buffer, another negative value ends the pass.
  function Handle(s: seq<byte>, verdicts: seq<int>): Pass
    decreases |s|
  {
    if s == [] then Pass([], [], false)
    else
      match ReadMessage(s)
      case Partial => Pass([], s, false)
      case Malformed => Pass([], [], true)
      case Whole(n, _) =>
        var v := if verdicts == [] then 0 else verdicts[0];
        if v == -1 then Pass([s[..n]], [], true)
        else if v < 0 then Pass([s[..n]], s[n..], false)
        else
          var r := Handle(s[n..], if verdicts == [] then [] else verdicts[1..]);
          r.(packets := [s[..n]] + r.packets)
  }

  // The verdict on a packet: -1 drops all that is buffered behind it, another negative value
  // leaves it for a later pass, and the pass goes on otherwise.
  lemma VerdictDecides(p: seq<byte>, rest: seq<byte>, v: int, vs: seq<int>)
    requires WellFormed(p)
    ensures var r := Handle(p + rest, [v] + vs);
            if v == -1 then r == Pass([p], [], true)
            else if v < 0 then r == Pass([p], rest, false)
            else r == Handle(rest, vs).(packets := [p] + Handle(rest, vs).packets)
  {
    ReadMessagePrefix(p, rest);
    assert (p + rest)[..|p|] == p && (p + rest)[|p|..] == rest;
    assert ([v] + vs)[1..] == vs;
  }

  // mqtt_net_on_recv: a full buffer is emptied first, and what does not fit is cut off; an
  // empty chunk is refused.
  function Append(buf: seq<byte>, chunk: seq<byte>, size: nat): seq<byte>
    requires |buf| <= size
  {
    var kept := if |buf| == size && chunk != [] then [] else buf;
    kept + chunk[..if |chunk| > size - |kept| then size - |kept| else |chunk|]
  }

  // What is buffered afterwards is as much as fits of the old bytes and the chunk, or of the
  // chunk alone if the buffer was full.
  lemma AppendIsPrefix(buf: seq<byte>, chunk: seq<byte>, size: nat)
    requires |buf| <= size
    ensures var all := if |buf| == size && chunk != [] then chunk else buf + chunk;
            Append(buf, chunk, size) == if |all| <= size then all else all[..size]
  {
    if |buf| == size && chunk != [] {
      assert [] + chunk[..|chunk|] == chunk;
    } else if |buf| + |chunk| <= size {
      assert chunk[..|chunk|] == chunk;
    } else {
      assert (buf + chunk)[..size] == buf + chunk[..size - |buf|];
    }
  }

  // ---------- runs ----------

  datatype Event = Data(chunk: seq<byte>) | Tick(verdicts: seq<int>)

  datatype Receiving = Receiving(buf: seq<byte>, packets: seq<seq<byte>>, discarded: bool)

  function Step(st: Receiving, e: Event, size: nat): Receiving
    requires |st.buf| <= size
  {
    match e
    case Data(chunk) => st.(buf := Append(st.buf, chunk, size))
    case Tick(vs) =>
      var r := Handle(st.buf, vs);
      Receiving(r.rest, st.packets + r.packets, st.discarded || r.discarded)
  }

  lemma StepFits(st: Receiving, e: Event, size: nat)
    requires |st.buf| <= size
    ensures |Step(st, e, size).buf| <= size
  {
    if e.Tick? {
      HandleRest(st.buf, e.verdicts);
    }
  }

  lemma {:induction false} HandleRest(s: seq<byte>, vs: seq<int>)
    ensures |Handle(s, vs).rest| <= |s|
    decreases |s|
  {
    if s != [] && ReadMessage(s).Whole? {
      HandleRest(s[ReadMessage(s).len..], if vs == [] then [] else vs[1..]);
    }
  }

  function Run(st: Receiving, es: seq<Event>, size: nat): Receiving
    requires |st.buf| <= size
    decreases |es|
  {
    if es == [] then st else StepFits(st, es[0], size); Run(Step(st, es[0], size), es[1..], size)
  }

  // Every chunk fits into what is free of the buffer when it arrives.
  ghost predicate ChunksFit(st: Receiving, es: seq<Event>, size: nat)
    requires |st.buf| <= size
    decreases |es|
  {
    es != [] ==>
      && (es[0].Data? ==> es[0].chunk != [] && |es[0].chunk| <= size - |st.buf|)
      && (StepFits(st, es[0], size); ChunksFit(Step(st, es[0], size), es[1..], size))
  }

  function Bytestream(es: seq<Event>): seq<byte> {
    if es == [] then []
    else (match es[0] case Data(c) => c case Tick(_) => []) + Bytestream(es[1..])
  }

  function Concat(ps: seq<seq<byte>>): seq<byte> {
    if ps == [] then [] else ps[0] + Concat(ps[1..])
  }

  lemma {:induction false} ConcatAppend(a: seq<seq<byte>>, b: seq<seq<byte>>)
    ensures Concat(a + b) == Concat(a) + Concat(b)
  {
    if a == [] {
      assert a + b == b;
    } else {
      assert (a + b)[1..] == a[1..] + b;
      ConcatAppend(a[1..], b);
    }
  }

  // ---------- nothing is lost, duplicated or reordered ----------

  lemma {:induction false} HandleConserves(s: seq<byte>, vs: seq<int>)
    requires !Handle(s, vs).discarded
    ensures Concat(Handle(s, vs).packets) + Handle(s, vs).rest == s
    decreases |s|
  {
    if s != [] && ReadMessage(s).Whole? {
      var n := ReadMessage(s).len;
      var v := if vs == [] then 0 else vs[0];
      if v < 0 {
        PutBack(s, n, [], s[n..]);
      } else {
        var r := Handle(s[n..], if vs == [] then [] else vs[1..]);
        HandleConserves(s[n..], if vs == [] then [] else vs[1..]);
        PutBack(s, n, r.packets, r.rest);
      }
    }
  }

  lemma PutBack(s: seq<byte>, n: nat, ps: seq<seq<byte>>, rest: seq<byte>)
    requires n <= |s| && Concat(ps) + rest == s[n..]
    ensures Concat([s[..n]] + ps) + rest == s
    ensures ps == [] ==> Concat([s[..n]]) + rest == s
  {
    assert ([s[..n]] + ps)[1..] == ps;
    ConcatAssoc(s[..n], Concat(ps), rest);
    assert [s[..n]] + [] == [s[..n]];
  }

  lemma {:induction false} DiscardedSticks(st: Receiving, es: seq<Event>, size: nat)
    requires |st.buf| <= size
    ensures st.discarded ==> Run(st, es, size).discarded
    decreases |es|
  {
    if es != [] {
      StepFits(st, es[0], size);
      DiscardedSticks(Step(st, es[0], size), es[1..], size);
    }
  }

  // Over any run in which the chunks fit and the buffer is never discarded, the
  // packets dispatched so far followed by the bytes still buffered are the bytes
  // received, however they were cut into chunks.
  lemma {:induction false} RunConserves(st: Receiving, es: seq<Event>, size: nat)
    requires |st.buf| <= size
    requires ChunksFit(st, es, size)
    requires !Run(st, es, size).discarded
    ensures var r := Run(st, es, size);
            Concat(r.packets) + r.buf == Concat(st.packets) + st.buf + Bytestream(es)
    decreases |es|
  {
    hide Handle;
    if es != [] {
      StepFits(st, es[0], size);
      var st1 := Step(st, es[0], size);
      DiscardedSticks(st1, es[1..], size);
      RunConserves(st1, es[1..], size);
      match es[0] {
        case Data(chunk) =>
          assert chunk[..|chunk|] == chunk;
          assert st1.buf == st.buf + chunk;
        case Tick(vs) =>
          HandleConserves(st.buf, vs);
          ConcatAppend(st.packets, Handle(st.buf, vs).packets);
      }
    }
  }

  // ---------- streams of well-formed packets ----------

  ghost predicate AllWellFormed(ps: seq<seq<byte>>) {
    forall k :: 0 <= k < |ps| ==> WellFormed(ps[k])
  }

  // If s is what has arrived of a stream of well-formed packets and f is still to
  // come, s starts with the first packet or is incomplete; it is never malformed.
  lemma FirstPacket(s: seq<byte>, f: seq<byte>, ps: seq<seq<byte>>)
    requires AllWellFormed(ps) && s + f == Concat(ps) && s != []
    ensures ps != []
    ensures if |s| < |ps[0]| then ReadMessage(s).Partial?
            else ReadMessage(s) == ReadMessage(ps[0]) && s[..|ps[0]|] == ps[0]
                 && s[|ps[0]|..] + f == Concat(ps[1..])
  {
    var p := ps[0];
    var t := Concat(ps[1..]);
    assert s + f == p + t;
    if |s| < |p| {
      assert s == (s + f)[..|s|] == p[..|s|];
      ProperPrefixIsPartial(p, |s|);
    } else {
      assert s[..|p|] == (s + f)[..|p|] == p;
      assert s == p + s[|p|..];
      assert s[|p|..] + f == (s + f)[|p|..] == t;
      ReadMessagePrefix(p, s[|p|..]);
    }
  }

  // The pass has dispatched leading packets of the stream, and all complete ones
  // unless a verdict stopped it.
  ghost predicate PassOnTrack(r: Pass, f: seq<byte>, ps: seq<seq<byte>>, vs: seq<int>) {
    && !r.discarded
    && |r.packets| <= |ps| && r.packets == ps[..|r.packets|]
    && r.rest + f == Concat(ps[|r.packets|..])
    && ((forall v :: v in vs ==> v >= 0) ==>
          r.rest == [] || (|r.packets| < |ps| && |r.rest| < |ps[|r.packets|]|))
  }

  lemma ExtendPass(r: Pass, f: seq<byte>, ps: seq<seq<byte>>, vs: seq<int>)
    requires ps != [] && PassOnTrack(r, f, ps[1..], if vs == [] then [] else vs[1..])
    ensures PassOnTrack(r.(packets := [ps[0]] + r.packets), f, ps, vs)
  {
    var k := |r.packets|;
    assert ps[..k + 1] == [ps[0]] + ps[1..][..k];
    assert ps[k + 1..] == ps[1..][k..];
    assert vs != [] ==> forall w :: w in vs[1..] ==> w in vs;
  }

  // A pass dispatches the leading packets of the stream, exactly those that are
  // complete if no verdict stops it.
  lemma {:induction false} HandleStream(s: seq<byte>, vs: seq<int>, f: seq<byte>, ps: seq<seq<byte>>)
    requires AllWellFormed(ps) && s + f == Concat(ps)
    requires forall v :: v in vs ==> v != -1
    ensures PassOnTrack(Handle(s, vs), f, ps, vs)
    decreases |s|
  {
    assert ps[0..] == ps;
    if s != [] {
      FirstPacket(s, f, ps);
      var p := ps[0];
      if |p| <= |s| {
        var vs' := if vs == [] then [] else vs[1..];
        assert vs != [] ==> vs[0] in vs && forall w :: w in vs' ==> w in vs;
        if vs == [] || vs[0] >= 0 {
          HandleStream(s[|p|..], vs', f, ps[1..]);
          ExtendPass(Handle(s[|p|..], vs'), f, ps, vs);
        } else {
          assert ps[..1] == [p];
        }
      }
    }
  }

  ghost predicate NoFatal(es: seq<Event>) {
    forall e :: e in es && e.Tick? ==> forall v :: v in e.verdicts ==> v != -1
  }

  // The leading packets of ps have been dispatched, and the buffer followed by the
  // bytes f still to come is the rest of the stream.
  ghost predicate OnTrack(st: Receiving, f: seq<byte>, ps: seq<seq<byte>>) {
    && !st.discarded
    && |st.packets| <= |ps|
    && st.packets == ps[..|st.packets|]
    && st.buf + f == Concat(ps[|st.packets|..])
  }

  lemma TickStream(st: Receiving, vs: seq<int>, size: nat, f: seq<byte>, ps: seq<seq<byte>>)
    requires |st.buf| <= size && AllWellFormed(ps) && OnTrack(st, f, ps)
    requires forall v :: v in vs ==> v != -1
    ensures var st1 := Step(st, Tick(vs), size);
            && OnTrack(st1, f, ps)
            && ((forall v :: v in vs ==> v >= 0) ==>
                  st1.buf == [] || (|st1.packets| < |ps| && |st1.buf| < |ps[|st1.packets|]|))
  {
    var k := |st.packets|;
    var qs := ps[k..];
    HandleStream(st.buf, vs, f, qs);
    var j := |Handle(st.buf, vs).packets|;
    assert ps[..k + j] == ps[..k] + qs[..j];
    assert ps[k + j..] == qs[j..];
  }

  // However a stream of well-formed packets is cut into chunks, the packets
  // dispatched are its leading packets, each once and in order, and the buffer is
  // never discarded.
  lemma {:induction false} RunStream(st: Receiving, es: seq<Event>, size: nat, f: seq<byte>, ps: seq<seq<byte>>)
    requires |st.buf| <= size && ChunksFit(st, es, size)
    requires AllWellFormed(ps) && NoFatal(es)
    requires OnTrack(st, Bytestream(es) + f, ps)
    ensures OnTrack(Run(st, es, size), f, ps)
    decreases |es|
  {
    if es == [] {
      assert [] + f == f;
    } else {
      StepFits(st, es[0], size);
      var st1 := Step(st, es[0], size);
      var tail := Bytestream(es[1..]);
      assert es[0] in es && forall e :: e in es[1..] ==> e in es;
      match es[0] {
        case Data(chunk) =>
          assert chunk[..|chunk|] == chunk;
          assert st.buf + (chunk + tail + f) == (st.buf + chunk) + (tail + f);
        case Tick(vs) =>
          assert Bytestream(es) == tail;
          TickStream(st, vs, size, tail + f, ps);
      }
      RunStream(st1, es[1..], size, f, ps);
    }
  }

  lemma {:induction false} RunAppend(st: Receiving, es: seq<Event>, fs: seq<Event>, size: nat)
    requires |st.buf| <= size
    ensures |Run(st, es, size).buf| <= size
    ensures Run(st, es + fs, size) == Run(Run(st, es, size), fs, size)
    decreases |es|
  {
    if es == [] {
      assert es + fs == fs;
    } else {
      StepFits(st, es[0], size);
      assert (es + fs)[1..] == es[1..] + fs;
      RunAppend(Step(st, es[0], size), es[1..], fs, size);
    }
  }

  // The number of leading packets of the stream that n bytes contain in full.
  function Complete(ps: seq<seq<byte>>, n: nat): (k: nat)
    ensures k <= |ps|
  {
    if ps == [] || n < |ps[0]| then 0 else 1 + Complete(ps[1..], n - |ps[0]|)
  }

  lemma {:induction false} CompleteUnique(ps: seq<seq<byte>>, n: nat, k: nat)
    requires k <= |ps| && (forall i :: 0 <= i < |ps| ==> ps[i] != [])
    requires |Concat(ps[..k])| <= n
    requires n == |Concat(ps[..k])| || (k < |ps| && n < |Concat(ps[..k])| + |ps[k]|)
    ensures Complete(ps, n) == k
  {
    if k > 0 {
      assert ps[..k][1..] == ps[1..][..k - 1];
      CompleteUnique(ps[1..], n - |ps[0]|, k - 1);
    } else {
      assert ps[..0] == [];
    }
  }

  // After a tick that no verdict stops, exactly the packets completed by the bytes
  // received so far have been dispatched: the outcome depends on the bytes alone,
  // not on how they arrived.
  lemma ChunkingDoesNotMatter(es: seq<Event>, size: nat, ps: seq<seq<byte>>)
    requires ChunksFit(Receiving([], [], false), es, size)
    requires AllWellFormed(ps) && NoFatal(es) && Bytestream(es) <= Concat(ps)
    ensures var r := Run(Receiving([], [], false), es + [Tick([])], size);
            && !r.discarded
            && r.packets == ps[..Complete(ps, |Bytestream(es)|)]
            && Concat(r.packets) + r.buf == Bytestream(es)
  {
    var init := Receiving([], [], false);
    var bytes := Bytestream(es);
    var f := Concat(ps)[|bytes|..];
    assert ps[0..] == ps && bytes + f == Concat(ps) && [] + (bytes + f) == bytes + f;
    RunStream(init, es, size, f, ps);
    RunConserves(init, es, size);
    var st := Run(init, es, size);
    assert Concat([]) + [] + bytes == bytes;
    RunAppend(init, es, [Tick([])], size);
    assert [Tick([])][1..] == [];
    assert Run(st, [Tick([])], size) == Step(st, Tick([]), size);
    LastTick(st, size, f, ps, bytes);
  }

  lemma TickConserves(st: Receiving, vs: seq<int>, size: nat)
    requires |st.buf| <= size && !Handle(st.buf, vs).discarded
    ensures var r := Step(st, Tick(vs), size); Concat(r.packets) + r.buf == Concat(st.packets) + st.buf
  {
    HandleConserves(st.buf, vs);
    hide Handle, Concat;
    var h := Handle(st.buf, vs);
    ConcatAppend(st.packets, h.packets);
    ConcatAssoc(Concat(st.packets), Concat(h.packets), h.rest);
  }

  lemma LastTick(st: Receiving, size: nat, f: seq<byte>, ps: seq<seq<byte>>, bytes: seq<byte>)
    requires |st.buf| <= size && AllWellFormed(ps) && OnTrack(st, f, ps)
    requires Concat(st.packets) + st.buf == bytes
    ensures var r := Step(st, Tick([]), size);
            && !r.discarded
            && r.packets == ps[..Complete(ps, |bytes|)]
            && Concat(r.packets) + r.buf == bytes
  {
    TickStream(st, [], size, f, ps);
    TickConserves(st, [], size);
    var r := Step(st, Tick([]), size);
    forall i | 0 <= i < |ps| ensures ps[i] != [] {
      assert WellFormed(ps[i]);
    }
    CompleteUnique(ps, |bytes|, |r.packets|);
  }
}
