// What the DNS name decoder computes: labels and compression pointers.
module DnsDecode {
  import opened Bytes
  import opened Dns

  // total bytes of packet in data, and two readable bytes behind them, which the code
  // may look at; linked says whether pointers can be followed.
  datatype Source = Source(data: seq<byte>, total: nat, linked: bool)

  predicate Readable(p: Source) {
    p.total + 2 <= |p.data|
  }

  // pos is the read position, plain what has been written, encoded the number of bytes
  // taken before the first pointer, that pointer included.
  datatype State = State(pos: nat, plain: seq<byte>, encoded: nat, jumped: bool)

  datatype Outcome = Next(s: State) | Stop | Fail

  function Target(p: Source, pos: nat): nat
    requires Readable(p) && pos <= p.total
  {
    ((p.data[pos] as int) * 256 + p.data[pos + 1]) % 0x4000
  }

  predicate IsPointer(b: byte) {
    b >= 64
  }

  // One round of the loop in decode_dot_str: encode_covert_dot_str for a label and
  // encode_covert_reuse_domain for a pointer.
  function Step(p: Source, size: nat, s: State): (r: Outcome)
    requires Readable(p) && s.pos <= p.total
    ensures r.Next? ==> r.s.pos <= p.total
  {
    var b := p.data[s.pos];
    if b == 0 then Stop
    else if !IsPointer(b) then
      if b >= p.total - s.pos || |s.plain| + b + 1 > size then Fail
      else Next(State(s.pos + b + 1, s.plain + p.data[s.pos + 1..s.pos + 1 + b] + [DOT],
                      if s.jumped then s.encoded else s.encoded + b + 1, s.jumped))
    else if !p.linked || Target(p, s.pos) >= p.total then Fail
    else Next(State(Target(p, s.pos), s.plain, if s.jumped then s.encoded else s.encoded + 2, true))
  }

  datatype Result = Decoded(name: seq<byte>, encoded: nat) | Error | Running

  // encode_check_fail: the last dot makes way for the NUL, and a NUL in the packet is
  // counted unless a pointer led away from it.
  function Finish(s: State): Result {
    if |s.plain| < 1 then Error
    else Decoded(s.plain[..|s.plain| - 1], if s.jumped then s.encoded else s.encoded + 1)
  }

  // At most rounds rounds of the loop.
  function Run(p: Source, size: nat, s: State, rounds: nat): Result
    requires Readable(p) && s.pos <= p.total
    decreases rounds
  {
    if rounds == 0 then Running
    else
      match Step(p, size, s)
      case Stop => Finish(s)
      case Fail => Error
      case Next(t) => Run(p, size, t, rounds - 1)
  }

  function Begin(pos: nat): State {
    State(pos, [], 0, false)
  }

  lemma {:induction false} MoreRounds(p: Source, size: nat, s: State, m: nat, n: nat)
    requires Readable(p) && s.pos <= p.total && m <= n && Run(p, size, s, m) != Running
    ensures Run(p, size, s, n) == Run(p, size, s, m)
    decreases m
  {
    if m > 0 {
      match Step(p, size, s)
      case Next(t) => MoreRounds(p, size, t, m - 1, n - 1);
      case _ =>
    }
  }

  // ---------- what a position denotes ----------

  // The labels at pos are ls, reached over jumps pointers.
  ghost predicate Denotes(p: Source, pos: nat, ls: seq<seq<byte>>, jumps: nat)
    requires Readable(p) && pos <= p.total
    decreases |ls|, jumps
  {
    var b := p.data[pos];
    if b == 0 then ls == [] && jumps == 0
    else if !IsPointer(b) then
      && b < p.total - pos && ls != [] && ls[0] == p.data[pos + 1..pos + 1 + b]
      && Denotes(p, pos + b + 1, ls[1..], jumps)
    else p.linked && jumps > 0 && Target(p, pos) < p.total && Denotes(p, Target(p, pos), ls, jumps - 1)
  }

  // The bytes a name takes at pos: up to its NUL or its first pointer.
  function Extent(p: Source, pos: nat): nat
    requires Readable(p) && pos <= p.total
    decreases p.total - pos
  {
    var b := p.data[pos];
    if b == 0 then 1 else if IsPointer(b) then 2
    else if b >= p.total - pos then 0 else b + 1 + Extent(p, pos + b + 1)
  }

  function Taken(p: Source, s: State): nat
    requires Readable(p) && s.pos <= p.total
  {
    if s.jumped then s.encoded else s.encoded + Extent(p, s.pos)
  }

  function NameOf(plain: seq<byte>): seq<byte>
    requires plain != []
  {
    plain[..|plain| - 1]
  }

  lemma LabelStep(p: Source, size: nat, s: State, ls: seq<seq<byte>>, jumps: nat)
    requires Readable(p) && s.pos <= p.total && Denotes(p, s.pos, ls, jumps)
    requires p.data[s.pos] != 0 && !IsPointer(p.data[s.pos]) && |s.plain| + |Dotted(ls)| <= size
    ensures Step(p, size, s).Next?
    ensures var t := Step(p, size, s).s;
            && ls != [] && t.pos <= p.total && Denotes(p, t.pos, ls[1..], jumps)
            && t.plain + Dotted(ls[1..]) == s.plain + Dotted(ls) && Taken(p, t) == Taken(p, s)
  {
    hide Target;
    var b := p.data[s.pos];
    assert |ls[0]| == b && Dotted(ls) == ls[0] + [DOT] + Dotted(ls[1..]);
    var t := Step(p, size, s).s;
    assert t.plain == s.plain + ls[0] + [DOT];
    assert s.plain + (ls[0] + [DOT] + Dotted(ls[1..])) == (s.plain + ls[0] + [DOT]) + Dotted(ls[1..]);
  }

  lemma PointerStep(p: Source, size: nat, s: State, ls: seq<seq<byte>>, jumps: nat)
    requires Readable(p) && s.pos <= p.total && Denotes(p, s.pos, ls, jumps) && IsPointer(p.data[s.pos])
    ensures Step(p, size, s).Next?
    ensures var t := Step(p, size, s).s;
            && jumps > 0 && t.pos <= p.total && Denotes(p, t.pos, ls, jumps - 1)
            && t.plain == s.plain && Taken(p, t) == Taken(p, s)
  {
  }

  lemma LastStep(p: Source, size: nat, s: State)
    requires Readable(p) && s.pos <= p.total && p.data[s.pos] == 0 && s.plain != []
    ensures Run(p, size, s, 1) == Decoded(NameOf(s.plain), Taken(p, s))
  {
  }

  // Decoding from s yields name and the length of what is taken from s on.
  ghost predicate Yields(p: Source, size: nat, s: State, rounds: nat, name: seq<byte>)
    requires Readable(p)
  {
    s.pos <= p.total && Run(p, size, s, rounds) == Decoded(name, Taken(p, s))
  }

  lemma YieldsBefore(p: Source, size: nat, s: State, t: State, rounds: nat, name: seq<byte>)
    requires Readable(p) && s.pos <= p.total && Step(p, size, s) == Next(t) && Taken(p, t) == Taken(p, s)
    requires Yields(p, size, t, rounds, name)
    ensures Yields(p, size, s, rounds + 1, name)
  {
  }

  ghost predicate Covers(p: Source, size: nat, s: State, ls: seq<seq<byte>>, jumps: nat, full: seq<byte>) {
    && Readable(p) && s.pos <= p.total && Denotes(p, s.pos, ls, jumps)
    && full == s.plain + Dotted(ls) && full != [] && |full| <= size
  }

  lemma CoversNext(p: Source, size: nat, s: State, ls: seq<seq<byte>>, jumps: nat, full: seq<byte>)
    returns (t: State, rest: seq<seq<byte>>, more: nat)
    requires Covers(p, size, s, ls, jumps, full) && p.data[s.pos] != 0
    ensures Covers(p, size, t, rest, more, full) && Step(p, size, s) == Next(t) && Taken(p, t) == Taken(p, s)
    ensures |rest| + more + 1 == |ls| + jumps
  {
    hide Denotes, Taken, Target, Dotted;
    if IsPointer(p.data[s.pos]) {
      PointerStep(p, size, s, ls, jumps);
      rest, more := ls, jumps - 1;
    } else {
      LabelStep(p, size, s, ls, jumps);
      rest, more := ls[1..], jumps;
    }
    t := Step(p, size, s).s;
  }

  lemma {:induction false} DenotedIsDecoded(p: Source, size: nat, s: State, ls: seq<seq<byte>>, jumps: nat,
      full: seq<byte>)
    requires Covers(p, size, s, ls, jumps, full)
    ensures Yields(p, size, s, |ls| + jumps + 1, NameOf(full))
    decreases |ls| + jumps
  {
    if p.data[s.pos] == 0 {
      assert full == s.plain;
      LastStep(p, size, s);
    } else {
      var t, rest, more := CoversNext(p, size, s, ls, jumps, full);
      DenotedIsDecoded(p, size, t, rest, more, full);
      YieldsBefore(p, size, s, t, |rest| + more + 1, NameOf(full));
    }
  }

  // One round earlier: the label or the pointer in front.
  lemma DenotedBefore(p: Source, size: nat, s: State, ls: seq<seq<byte>>, jumps: nat)
    returns (all: seq<seq<byte>>, hops: nat)
    requires Readable(p) && s.pos <= p.total && Step(p, size, s).Next?
    requires Denotes(p, Step(p, size, s).s.pos, ls, jumps)
    ensures Denotes(p, s.pos, all, hops) && |s.plain| + |Dotted(all)| == |Step(p, size, s).s.plain| + |Dotted(ls)|
  {
    hide Target;
    var b := p.data[s.pos];
    if !IsPointer(b) {
      var l := p.data[s.pos + 1..s.pos + 1 + b];
      all, hops := [l] + ls, jumps;
      assert all[1..] == ls;
      assert |Dotted(all)| == |l| + 1 + |Dotted(ls)|;
    } else {
      all, hops := ls, jumps + 1;
    }
  }

  lemma {:induction false} DecodedIsDenoted(p: Source, size: nat, s: State, rounds: nat)
    returns (ls: seq<seq<byte>>, jumps: nat)
    requires Readable(p) && s.pos <= p.total && |s.plain| <= size && Run(p, size, s, rounds).Decoded?
    ensures Denotes(p, s.pos, ls, jumps) && 0 < |s.plain| + |Dotted(ls)| <= size
    decreases rounds
  {
    if p.data[s.pos] == 0 {
      ls, jumps := [], 0;
    } else {
      ls, jumps := DecodedIsDenoted(p, size, Step(p, size, s).s, rounds - 1);
      ls, jumps := DenotedBefore(p, size, s, ls, jumps);
    }
  }

  lemma {:induction false} DenotesOnce(p: Source, pos: nat, a: seq<seq<byte>>, i: nat, b: seq<seq<byte>>, j: nat)
    requires Readable(p) && pos <= p.total && Denotes(p, pos, a, i) && Denotes(p, pos, b, j)
    ensures a == b && i == j
    decreases |a|, i
  {
    var c := p.data[pos];
    if c != 0 {
      if !IsPointer(c) {
        DenotesOnce(p, pos + c + 1, a[1..], i, b[1..], j);
        assert a == [a[0]] + a[1..] && b == [b[0]] + b[1..];
      } else {
        DenotesOnce(p, Target(p, pos), a, i - 1, b, j - 1);
      }
    }
  }

  ghost predicate Means(p: Source, pos: nat, size: nat, name: seq<byte>, ls: seq<seq<byte>>, jumps: nat)
    requires Readable(p) && pos <= p.total
  {
    Denotes(p, pos, ls, jumps) && ls != [] && Name(ls) == name && |name| + 1 <= size
  }

  // Decoding yields a name exactly if the position denotes it and it fits, and then it
  // takes the bytes up to the NUL or the first pointer.
  lemma DecodesExactly(p: Source, pos: nat, size: nat, name: seq<byte>, encoded: nat)
    requires Readable(p) && pos <= p.total
    ensures (exists rounds: nat :: Run(p, size, Begin(pos), rounds) == Decoded(name, encoded))
            <==> (encoded == Extent(p, pos) && exists ls, jumps: nat :: Means(p, pos, size, name, ls, jumps))
  {
    if exists rounds: nat :: Run(p, size, Begin(pos), rounds) == Decoded(name, encoded) {
      var rounds: nat :| Run(p, size, Begin(pos), rounds) == Decoded(name, encoded);
      var ls, jumps := DecodedIsDenoted(p, size, Begin(pos), rounds);
      DecodedName(p, pos, size, ls, jumps);
      if rounds <= |ls| + jumps + 1 {
        MoreRounds(p, size, Begin(pos), rounds, |ls| + jumps + 1);
      } else {
        MoreRounds(p, size, Begin(pos), |ls| + jumps + 1, rounds);
      }
      assert Means(p, pos, size, name, ls, jumps);
    }
    if exists ls, jumps: nat :: Means(p, pos, size, name, ls, jumps) {
      var ls, jumps: nat :| Means(p, pos, size, name, ls, jumps);
      DecodedName(p, pos, size, ls, jumps);
    }
  }

  lemma DecodedName(p: Source, pos: nat, size: nat, ls: seq<seq<byte>>, jumps: nat)
    requires Readable(p) && pos <= p.total && Denotes(p, pos, ls, jumps)
    requires Dotted(ls) != [] && |Dotted(ls)| <= size
    ensures ls != [] && Run(p, size, Begin(pos), |ls| + jumps + 1) == Decoded(Name(ls), Extent(p, pos))
  {
    assert [] + Dotted(ls) == Dotted(ls);
    DenotedIsDecoded(p, size, Begin(pos), ls, jumps, Dotted(ls));
  }

  // ---------- round trip ----------

  ghost predicate ShortLabels(ls: seq<seq<byte>>) {
    forall i :: 0 <= i < |ls| ==> 1 <= |ls[i]| <= 63
  }

  ghost predicate StandsAt(p: Source, pos: nat, s: seq<byte>) {
    pos + |s| <= p.total && pos + |s| <= |p.data| && p.data[pos..pos + |s|] == s
  }

  lemma StandsSplit(p: Source, pos: nat, s: seq<byte>, t: seq<byte>)
    requires StandsAt(p, pos, s + t)
    ensures StandsAt(p, pos, s) && StandsAt(p, pos + |s|, t)
  {
    var d := p.data[pos..pos + |s + t|];
    assert p.data[pos..pos + |s|] == d[..|s|] == s;
    assert p.data[pos + |s|..pos + |s| + |t|] == d[|s|..] == t;
  }

  // The uncompressed encoding denotes its labels, wherever it stands in a packet.
  lemma {:induction false} FlatDenotes(p: Source, pos: nat, ls: seq<seq<byte>>)
    requires Readable(p) && ShortLabels(ls) && StandsAt(p, pos, Flat(ls) + [0])
    ensures pos <= p.total && Denotes(p, pos, ls, 0) && Extent(p, pos) == |Flat(ls)| + 1
    decreases |ls|
  {
    hide Denotes, Extent, StandsAt, Flat;
    if ls == [] {
      NothingDenotes(p, pos);
    } else {
      var n := |ls[0]|;
      var rest := Flat(ls[1..]) + [0];
      FlatCons(ls);
      StandsSplit(p, pos, [n], ls[0] + rest);
      StandsSplit(p, pos + 1, ls[0], rest);
      FlatDenotes(p, pos + 1 + n, ls[1..]);
      LabelDenotes(p, pos, ls[0], ls[1..]);
      assert ls == [ls[0]] + ls[1..];
    }
  }

  lemma FlatCons(ls: seq<seq<byte>>)
    requires ls != [] && |ls[0]| <= 63
    ensures Flat(ls) + [0] == [|ls[0]|] + (ls[0] + (Flat(ls[1..]) + [0]))
    ensures |Flat(ls)| == 1 + |ls[0]| + |Flat(ls[1..])|
  {
    var n, l, r := [|ls[0]| as byte], ls[0], Flat(ls[1..]);
    assert Flat(ls) == n + l + r;
    hide Flat;
    ConcatAssoc(n + l, r, [0]);
    ConcatAssoc(n, l, r + [0]);
  }

  lemma NothingDenotes(p: Source, pos: nat)
    requires Readable(p) && StandsAt(p, pos, Flat([]) + [0])
    ensures pos <= p.total && Denotes(p, pos, [], 0) && Extent(p, pos) == 1 == |Flat([])| + 1
  {
    assert p.data[pos..pos + 1][0] == 0;
  }

  lemma LabelDenotes(p: Source, pos: nat, l: seq<byte>, rest: seq<seq<byte>>)
    requires Readable(p) && 1 <= |l| <= 63 && StandsAt(p, pos, [|l|]) && StandsAt(p, pos + 1, l)
    requires Denotes(p, pos + 1 + |l|, rest, 0)
    ensures pos <= p.total && Denotes(p, pos, [l] + rest, 0) && Extent(p, pos) == |l| + 1 + Extent(p, pos + 1 + |l|)
  {
    assert p.data[pos..pos + 1][0] == |l|;
    assert ([l] + rest)[1..] == rest;
  }

  lemma NameDecodes(p: Source, pos: nat, size: nat, name: seq<byte>)
    requires Readable(p) && Labels(name) != [] && ShortLabels(Labels(name)) && |name| + 1 <= size
    requires StandsAt(p, pos, EncodeName(name))
    ensures Run(p, size, Begin(pos), |Labels(name)| + 1) == Decoded(Name(Labels(name)), |EncodeName(name)|)
  {
    var ls := Labels(name);
    FlatDenotes(p, pos, ls);
    FlatOfDotted(ls);
    FlatLength(name, 0);
    DecodedName(p, pos, size, ls, 0);
  }

  // What encode_dot_str writes for a name with labels of 1 to 63 bytes decodes to that
  // name, taking its length and two bytes, exactly if no label of it is empty.
  lemma NameRoundTrip(p: Source, pos: nat, size: nat, name: seq<byte>)
    requires Readable(p) && Labels(name) != [] && ShortLabels(Labels(name)) && |name| + 1 <= size
    requires StandsAt(p, pos, EncodeName(name))
    ensures Run(p, size, Begin(pos), |Labels(name)| + 1) == Decoded(name, |name| + 2) <==> WellDotted(name)
  {
    NameDecodes(p, pos, size, name);
    SplitJoin(name);
    FlatOfDotted(Labels(name));
  }

  // ---------- pointers in bytes ----------

  // Section 4.1.4 of RFC 1035: two bytes, the offset in the lower fourteen bits with its high
  // part first. The two highest bits are ones, top == 3; the decoder takes the reserved
  // values 1 and 2 as well.
  function PointerTo(k: nat, top: nat): seq<byte>
    requires k < 0x4000 && 1 <= top <= 3
  {
    [64 * top + k / 256, k % 256]
  }

  lemma PointerRead(p: Source, pos: nat, k: nat, top: nat)
    requires Readable(p) && k < 0x4000 && 1 <= top <= 3 && pos + 2 <= p.total
    requires p.data[pos..pos + 2] == PointerTo(k, top)
    ensures p.data[pos] >= 64 && IsPointer(p.data[pos]) && Target(p, pos) == k
  {
    var t := p.data[pos..pos + 2];
    assert t[0] == p.data[pos] && t[1] == p.data[pos + 1];
    assert (64 * top + k / 256) * 256 + k % 256 == 0x4000 * top + k;
  }

  // A pointer to k denotes what k denotes, over one pointer more.
  lemma PointerDenotes(p: Source, pos: nat, k: nat, top: nat, ls: seq<seq<byte>>, jumps: nat)
    requires Readable(p) && p.linked && k < 0x4000 && k < p.total && 1 <= top <= 3
    requires pos + 2 <= p.total && p.data[pos..pos + 2] == PointerTo(k, top)
    ensures Denotes(p, pos, ls, jumps + 1) <==> Denotes(p, k, ls, jumps)
    ensures !Denotes(p, pos, ls, 0) && Extent(p, pos) == 2
  {
    hide Target;
    PointerRead(p, pos, k, top);
  }

  // Both run on, both fail, or both give the same name.
  predicate SameName(a: Result, b: Result) {
    a.Running? == b.Running? && a.Error? == b.Error? && (a.Decoded? && b.Decoded? ==> a.name == b.name)
  }

  lemma {:induction false} CountDoesNotMatter(p: Source, size: nat, s: State, t: State, rounds: nat)
    requires Readable(p) && s.pos == t.pos <= p.total && s.plain == t.plain
    ensures SameName(Run(p, size, s, rounds), Run(p, size, t, rounds))
    ensures s.jumped && Run(p, size, s, rounds).Decoded? ==> Run(p, size, s, rounds).encoded == s.encoded
    decreases rounds
  {
    hide Target;
    if rounds > 0 {
      match Step(p, size, s)
      case Next(s1) => CountDoesNotMatter(p, size, s1, Step(p, size, t).s, rounds - 1);
      case _ =>
    }
  }

  // Decoding a pointer to k is decoding at k, one round later, and takes two bytes. Nothing
  // else is decoded from a pointer out of the packet, or where there are none to follow.
  lemma PointerIsFollowed(p: Source, pos: nat, k: nat, top: nat, size: nat, rounds: nat)
    requires Readable(p) && k < 0x4000 && 1 <= top <= 3 && pos + 2 <= p.total
    requires p.data[pos..pos + 2] == PointerTo(k, top)
    ensures var a := Run(p, size, Begin(pos), rounds + 1);
            if p.linked && k < p.total
            then SameName(a, Run(p, size, Begin(k), rounds)) && (a.Decoded? ==> a.encoded == 2)
            else a == Error
  {
    hide Target;
    PointerRead(p, pos, k, top);
    if p.linked && k < p.total {
      CountDoesNotMatter(p, size, State(k, [], 2, true), Begin(k), rounds);
      assert Step(p, size, Begin(pos)) == Next(State(k, [], 2, true));
    }
  }

  // Labels in front of what is denoted belong to the name.
  lemma {:induction false} FrontDenotes(p: Source, pos: nat, front: seq<seq<byte>>, rest: seq<seq<byte>>, jumps: nat)
    requires Readable(p) && ShortLabels(front) && StandsAt(p, pos, Flat(front))
    requires pos + |Flat(front)| <= p.total && Denotes(p, pos + |Flat(front)|, rest, jumps)
    ensures Denotes(p, pos, front + rest, jumps)
    ensures Extent(p, pos) == |Flat(front)| + Extent(p, pos + |Flat(front)|)
    decreases |front|
  {
    hide Denotes, Extent, StandsAt, Flat;
    if front == [] {
      assert front + rest == rest;
      FlatNone();
    } else {
      var l, more := front[0], front[1..];
      FlatFirst(front);
      StandsSplit(p, pos, [|l|], l + Flat(more));
      StandsSplit(p, pos + 1, l, Flat(more));
      StandsEnds(p, pos + 1 + |l|, Flat(more));
      FrontDenotes(p, pos + 1 + |l|, more, rest, jumps);
      OneLabelDenotes(p, pos, l, more + rest, jumps);
      assert [l] + (more + rest) == front + rest;
    }
  }

  lemma StandsEnds(p: Source, pos: nat, s: seq<byte>)
    requires StandsAt(p, pos, s)
    ensures pos + |s| <= p.total
  {
  }

  lemma FlatNone()
    ensures Flat([]) == []
  {
  }

  lemma FlatFirst(ls: seq<seq<byte>>)
    requires ls != [] && |ls[0]| <= 63
    ensures Flat(ls) == [|ls[0]|] + (ls[0] + Flat(ls[1..]))
  {
    ConcatAssoc([|ls[0]|], ls[0], Flat(ls[1..]));
  }

  lemma OneLabelDenotes(p: Source, pos: nat, l: seq<byte>, rest: seq<seq<byte>>, jumps: nat)
    requires Readable(p) && 1 <= |l| <= 63 && StandsAt(p, pos, [|l|]) && StandsAt(p, pos + 1, l)
    requires pos + 1 + |l| <= p.total && Denotes(p, pos + 1 + |l|, rest, jumps)
    ensures Denotes(p, pos, [l] + rest, jumps) && Extent(p, pos) == |l| + 1 + Extent(p, pos + 1 + |l|)
  {
    assert p.data[pos..pos + 1][0] == |l|;
    assert ([l] + rest)[1..] == rest;
  }

  // A name whose last labels are given by a pointer to where they stand uncompressed is
  // decoded like its uncompressed encoding, and takes the bytes up to the pointer's end.
  lemma CompressionIsTransparent(p: Source, pos: nat, k: nat, size: nat, name: seq<byte>, front: seq<seq<byte>>,
                                 rest: seq<seq<byte>>, q: Source, at: nat)
    requires Readable(p) && p.linked && k < 0x4000 && Readable(q)
    requires WellDotted(name) && ShortLabels(Labels(name)) && |name| + 1 <= size && Labels(name) == front + rest
    requires StandsAt(p, pos, Flat(front) + PointerTo(k, 3)) && StandsAt(p, k, Flat(rest) + [0])
    requires StandsAt(q, at, EncodeName(name))
    ensures pos <= p.total && Run(p, size, Begin(pos), |Labels(name)| + 2) == Decoded(name, |Flat(front)| + 2)
    ensures at <= q.total && Run(q, size, Begin(at), |Labels(name)| + 1) == Decoded(name, |name| + 2)
  {
    hide Run, Denotes, Extent, LabelsFrom, Flat, Name, EncodeName;
    var m := pos + |Flat(front)|;
    assert ShortLabels(front) && ShortLabels(rest) by {
      assert forall i :: 0 <= i < |front| ==> front[i] == (front + rest)[i];
      assert forall i :: 0 <= i < |rest| ==> rest[i] == (front + rest)[|front| + i];
    }
    StandsSplit(p, pos, Flat(front), PointerTo(k, 3));
    FlatDenotes(p, k, rest);
    PointerDenotes(p, m, k, 3, rest, 0);
    FrontDenotes(p, pos, front, rest, 1);
    SplitJoin(name);
    assert |Dotted(Labels(name))| == |name| + 1;
    DecodedName(p, pos, size, Labels(name), 1);
    NameRoundTrip(q, at, size, name);
  }

  // So it is over any number of pointers: whatever position denotes the labels of a name
  // decodes to the same name as its uncompressed encoding, and ends.
  lemma DenotedIsTransparent(p: Source, pos: nat, q: Source, at: nat, size: nat, name: seq<byte>, jumps: nat)
    requires Readable(p) && pos <= p.total && Readable(q)
    requires WellDotted(name) && ShortLabels(Labels(name)) && |name| + 1 <= size
    requires Denotes(p, pos, Labels(name), jumps)
    requires StandsAt(q, at, EncodeName(name))
    ensures var a := Run(p, size, Begin(pos), |Labels(name)| + jumps + 1);
            var b := Run(q, size, Begin(at), |Labels(name)| + 1);
            a.Decoded? && b.Decoded? && a.name == b.name == name && a.encoded == Extent(p, pos)
  {
    hide Run, Denotes, Extent, LabelsFrom, Flat, Name;
    SplitJoin(name);
    NameDecodes(q, at, size, name);
    assert |Dotted(Labels(name))| == |name| + 1;
    DecodedName(p, pos, size, Labels(name), jumps);
  }
}
