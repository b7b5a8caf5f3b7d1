// Which names come back from their encoding: those without empty labels and without labels
// of more than 63 bytes, of which the encoder writes the length all the same.
module DnsRoundTrip {
  import opened Bytes
  import opened Dns
  import opened DnsDecode

  // What is denoted where short labels stand begins with these labels.
  lemma {:induction false} FrontIsDenoted(p: Source, pos: nat, front: seq<seq<byte>>, ls: seq<seq<byte>>, jumps: nat)
    returns (rest: seq<seq<byte>>)
    requires Readable(p) && ShortLabels(front) && StandsAt(p, pos, Flat(front)) && pos <= p.total
    requires Denotes(p, pos, ls, jumps)
    ensures ls == front + rest && pos + |Flat(front)| <= p.total
    ensures Denotes(p, pos + |Flat(front)|, rest, jumps)
    ensures Extent(p, pos) == |Flat(front)| + Extent(p, pos + |Flat(front)|)
    decreases |front|
  {
    hide StandsAt, Flat, Denotes, Extent, ShortLabels, Readable;
    if front == [] {
      rest := ls;
      FlatNone();
      assert front + rest == rest;
    } else {
      var l, more := front[0], front[1..];
      FirstStands(p, pos, front);
      LabelIsDenoted(p, pos, l, ls, jumps);
      rest := FrontIsDenoted(p, pos + 1 + |l|, more, ls[1..], jumps);
      FrontAgain(front, ls, rest);
    }
  }

  lemma FirstStands(p: Source, pos: nat, front: seq<seq<byte>>)
    requires front != [] && ShortLabels(front) && StandsAt(p, pos, Flat(front))
    ensures var l := front[0];
            && 1 <= |l| <= 63 && ShortLabels(front[1..]) && |Flat(front)| == 1 + |l| + |Flat(front[1..])|
            && StandsAt(p, pos, [|l|]) && StandsAt(p, pos + 1, l) && StandsAt(p, pos + 1 + |l|, Flat(front[1..]))
  {
    hide StandsAt, Flat;
    var l, more := front[0], front[1..];
    FlatFirst(front);
    StandsSplit(p, pos, [|l|], l + Flat(more));
    StandsSplit(p, pos + 1, l, Flat(more));
  }

  lemma FrontAgain(front: seq<seq<byte>>, ls: seq<seq<byte>>, rest: seq<seq<byte>>)
    requires front != [] && ls != [] && ls == [front[0]] + ls[1..] && ls[1..] == front[1..] + rest
    ensures ls == front + rest
  {
    assert [front[0]] + front[1..] == front;
  }

  lemma LabelIsDenoted(p: Source, pos: nat, l: seq<byte>, ls: seq<seq<byte>>, jumps: nat)
    requires Readable(p) && 1 <= |l| <= 63 && StandsAt(p, pos, [|l|]) && StandsAt(p, pos + 1, l) && pos <= p.total
    requires Denotes(p, pos, ls, jumps)
    ensures ls != [] && ls == [l] + ls[1..] && pos + 1 + |l| <= p.total && Denotes(p, pos + 1 + |l|, ls[1..], jumps)
    ensures Extent(p, pos) == |l| + 1 + Extent(p, pos + 1 + |l|)
  {
    assert p.data[pos..pos + 1][0] == |l|;
  }

  lemma {:induction false} FlatJoin(a: seq<seq<byte>>, b: seq<seq<byte>>)
    ensures Flat(a + b) == Flat(a) + Flat(b)
    decreases |a|
  {
    if a == [] {
      assert a + b == b;
    } else {
      var n := [|a[0]| % 256];
      assert (a + b)[1..] == a[1..] + b;
      FlatJoin(a[1..], b);
      ConcatAssoc(n + a[0], Flat(a[1..]), Flat(b));
    }
  }

  lemma {:induction false} DottedJoin(a: seq<seq<byte>>, b: seq<seq<byte>>)
    ensures Dotted(a + b) == Dotted(a) + Dotted(b)
    decreases |a|
  {
    if a == [] {
      assert a + b == b;
    } else {
      assert (a + b)[1..] == a[1..] + b;
      DottedJoin(a[1..], b);
      ConcatAssoc(a[0] + [DOT], Dotted(a[1..]), Dotted(b));
    }
  }

  ghost predicate AllLabels(ls: seq<seq<byte>>) {
    forall i :: 0 <= i < |ls| ==> IsLabel(ls[i])
  }

  ghost predicate Begins(name: seq<byte>, k: nat, t: seq<byte>) {
    k + |t| <= |name| && name[k..k + |t|] == t
  }

  lemma BeginsSplit(name: seq<byte>, k: nat, s: seq<byte>, t: seq<byte>)
    requires Begins(name, k, s + t)
    ensures Begins(name, k, s) && Begins(name, k + |s|, t)
  {
    var d := name[k..k + |s + t|];
    assert name[k..k + |s|] == d[..|s|] == s;
    assert name[k + |s|..k + |s| + |t|] == d[|s|..] == t;
  }

  lemma LabelFound(name: seq<byte>, k: nat, l: seq<byte>)
    requires IsLabel(l) && Begins(name, k, l + [DOT])
    ensures k < |name| && name[k] != DOT && LabelEnd(name, k) == k + |l| < |name| && name[k + |l|] == DOT
    ensures LabelsFrom(name, k) == [l] + LabelsFrom(name, k + |l| + 1)
  {
    hide LabelsFrom, LabelEnd, SkipDots;
    BeginsSplit(name, k, l, [DOT]);
    var e := k + |l|;
    assert name[e..e + 1][0] == DOT;
    assert forall i :: 0 <= i < |l| ==> name[k + i] == name[k..e][i] == l[i];
    assert forall j :: k <= j < e ==> name[j] == l[j - k];
    FirstLabel(name, k);
    DotSkipped(name, e);
  }

  lemma DotSkipped(name: seq<byte>, e: nat)
    requires e < |name| && name[e] == DOT
    ensures LabelsFrom(name, e) == LabelsFrom(name, e + 1)
  {
    assert SkipDots(name, e) == SkipDots(name, e + 1);
  }

  // A name that begins with labels and a further label has that label in its place.
  lemma {:induction false} LabelInPlace(name: seq<byte>, k: nat, front: seq<seq<byte>>, u: seq<byte>)
    requires AllLabels(front) && IsLabel(u) && Begins(name, k, Dotted(front) + (u + [DOT]))
    ensures k <= |name| && |LabelsFrom(name, k)| > |front| && LabelsFrom(name, k)[|front|] == u
    decreases |front|
  {
    hide LabelsFrom, IsLabel, Begins;
    BeginsSplit(name, k, Dotted(front), u + [DOT]);
    if front == [] {
      LabelFound(name, k, u);
    } else {
      var l, more := front[0], front[1..];
      ConcatAssoc(l + [DOT], Dotted(more), u + [DOT]);
      BeginsSplit(name, k, l + [DOT], Dotted(more) + (u + [DOT]));
      LabelFound(name, k, l);
      LabelInPlace(name, k + |l| + 1, more, u);
    }
  }

  // ---------- a long label ----------

  // The labels of name are front, the long label l and more behind it, and its encoding
  // stands at pos.
  ghost predicate Long(p: Source, pos: nat, name: seq<byte>, front: seq<seq<byte>>, l: seq<byte>, back: seq<seq<byte>>)
  {
    && Readable(p) && pos <= p.total
    && Labels(name) == front + ([l] + back) && ShortLabels(front) && |l| > 63
    && StandsAt(p, pos, Flat(front)) && StandsAt(p, pos + |Flat(front)|, [|l| % 256])
    && StandsAt(p, pos + |Flat(front)| + 1, l)
  }

  lemma LongLength(name: seq<byte>, front: seq<seq<byte>>, l: seq<byte>, back: seq<seq<byte>>)
    requires Labels(name) == front + ([l] + back)
    ensures |name| >= |Flat(front)| + |l|
  {
    FlatLength(name, 0);
    FlatJoin(front, [l] + back);
    assert ([l] + back)[1..] == back;
  }

  // Where the length of the long label reads as a short one, the name would need a dot
  // inside the label.
  lemma ShortenedLabel(name: seq<byte>, front: seq<seq<byte>>, l: seq<byte>, back: seq<seq<byte>>,
                       u: seq<byte>, more: seq<seq<byte>>)
    requires Labels(name) == front + ([l] + back) && 0 < |u| < |l| && u == l[..|u|]
    ensures Name(front + ([u] + more)) != name
  {
    var ls := front + ([u] + more);
    LabelsAreLabels(name, 0);
    assert AllLabels(front) && IsLabel(l) by {
      assert forall i :: 0 <= i < |front| ==> front[i] == Labels(name)[i];
      assert l == Labels(name)[|front|];
    }
    if Name(ls) == name {
      DottedJoin(front, [u] + more);
      assert ([u] + more)[1..] == more;
      var d := Dotted(front) + (u + [DOT]);
      ConcatAssoc(Dotted(front), u + [DOT], Dotted(more));
      assert Dotted(ls) == d + Dotted(more);
      FlatOfDotted(front);
      LongLength(name, front, l, back);
      assert name + [DOT] == d + Dotted(more);
      assert |name| >= |d|;
      assert name[..|d|] == (name + [DOT])[..|d|] == d;
      LabelInPlace(name, 0, front, u);
    }
  }

  lemma LongDoesNotDecode(p: Source, pos: nat, size: nat, name: seq<byte>, front: seq<seq<byte>>, l: seq<byte>,
                          back: seq<seq<byte>>, ls: seq<seq<byte>>, jumps: nat)
    requires Long(p, pos, name, front, l, back) && Means(p, pos, size, name, ls, jumps)
    ensures Extent(p, pos) != |name| + 2
  {
    hide Flat, LabelsFrom, StandsAt, Denotes, Extent, Name;
    LongLength(name, front, l, back);
    var rest := FrontIsDenoted(p, pos, front, ls, jumps);
    var m := pos + |Flat(front)|;
    var b := |l| % 256;
    LengthAt(p, m, b);
    if b == 0 || b >= 64 {
      ExtentAt(p, m, b);
    } else {
      assert l[..b] + l[b..] == l;
      StandsSplit(p, m + 1, l[..b], l[b..]);
      LabelIsDenoted(p, m, l[..b], rest, jumps);
      ShortenedLabel(name, front, l, back, l[..b], rest[1..]);
    }
  }

  lemma LengthAt(p: Source, m: nat, b: byte)
    requires StandsAt(p, m, [b])
    ensures m < p.total && m < |p.data| && p.data[m] == b
  {
    assert p.data[m..m + 1][0] == b;
  }

  lemma ExtentAt(p: Source, m: nat, b: byte)
    requires Readable(p) && m < p.total && p.data[m] == b && (b == 0 || b >= 64)
    ensures Extent(p, m) <= 2
  {
  }

  // The first label of more than 63 bytes.
  lemma {:induction false} FirstLong(ls: seq<seq<byte>>) returns (f: nat)
    requires AllLabels(ls) && !ShortLabels(ls)
    ensures f < |ls| && |ls[f]| > 63 && ShortLabels(ls[..f])
  {
    f := 0;
    while |ls[f]| <= 63
      invariant f < |ls| && forall i :: 0 <= i < f ==> |ls[i]| <= 63
      invariant !ShortLabels(ls)
      decreases |ls| - f
    {
      if f + 1 == |ls| {
        assert forall i :: 0 <= i < |ls| ==> IsLabel(ls[i]) && |ls[i]| <= 63;
      }
      f := f + 1;
    }
    assert forall i :: 0 <= i < f ==> IsLabel(ls[i]);
  }

  lemma EncodingSplit(name: seq<byte>, front: seq<seq<byte>>, l: seq<byte>, back: seq<seq<byte>>)
    requires Labels(name) == front + ([l] + back)
    ensures EncodeName(name) == Flat(front) + ([|l| % 256] + (l + (Flat(back) + [0])))
  {
    hide LabelsFrom;
    FlatJoin(front, [l] + back);
    assert ([l] + back)[1..] == back;
    var n := [|l| % 256];
    assert Flat([l] + back) == n + l + Flat(back);
    hide Flat;
    ConcatAssoc(n, l, Flat(back));
    ConcatAssoc(n + l, Flat(back), [0]);
    ConcatAssoc(n, l, Flat(back) + [0]);
    ConcatAssoc(Flat(front), n + l + Flat(back), [0]);
  }

  lemma LongStands(p: Source, pos: nat, name: seq<byte>)
    returns (front: seq<seq<byte>>, l: seq<byte>, back: seq<seq<byte>>)
    requires Readable(p) && StandsAt(p, pos, EncodeName(name)) && !ShortLabels(Labels(name))
    ensures Long(p, pos, name, front, l, back)
  {
    hide Flat, LabelsFrom, EncodeName;
    var ls := Labels(name);
    assert pos <= p.total;
    hide StandsAt;
    LabelsAreLabels(name, 0);
    var f := FirstLong(ls);
    front, l, back := ls[..f], ls[f], ls[f + 1..];
    assert ls == front + ([l] + back);
    EncodingSplit(name, front, l, back);
    var n, more := [(|l| % 256) as byte], Flat(back) + [0];
    StandsSplit(p, pos, Flat(front), n + (l + more));
    StandsSplit(p, pos + |Flat(front)|, n, l + more);
    StandsSplit(p, pos + |Flat(front)| + 1, l, more);
  }

  // The round trip for every name: where the encoding of a name stands in a packet, decoding
  // gives back the name and takes the whole encoding exactly if no label of the name is
  // empty, none is longer than 63 bytes, and the name and its NUL fit.
  lemma RoundTripIff(p: Source, pos: nat, size: nat, name: seq<byte>)
    requires Readable(p) && Labels(name) != [] && StandsAt(p, pos, EncodeName(name))
    ensures pos <= p.total
    ensures (exists rounds: nat :: Run(p, size, Begin(pos), rounds) == Decoded(name, |name| + 2))
            <==> WellDotted(name) && ShortLabels(Labels(name)) && |name| + 1 <= size
  {
    hide LabelsFrom, Flat, Run, Denotes, Extent, EncodeName, Means;
    assert pos <= p.total;
    DecodesExactly(p, pos, size, name, |name| + 2);
    if ShortLabels(Labels(name)) && |name| + 1 <= size {
      ShortRoundTrip(p, pos, size, name);
    } else if ShortLabels(Labels(name)) {
      TooLongMeansNothing(p, pos, size, name);
    } else {
      var front, l, back := LongStands(p, pos, name);
      forall ls, jumps: nat ensures Means(p, pos, size, name, ls, jumps) ==> Extent(p, pos) != |name| + 2 {
        if Means(p, pos, size, name, ls, jumps) {
          LongDoesNotDecode(p, pos, size, name, front, l, back, ls, jumps);
        }
      }
    }
  }

  lemma TooLongMeansNothing(p: Source, pos: nat, size: nat, name: seq<byte>)
    requires Readable(p) && pos <= p.total && |name| + 1 > size
    ensures forall ls, jumps: nat :: !Means(p, pos, size, name, ls, jumps)
  {
  }

  lemma ShortRoundTrip(p: Source, pos: nat, size: nat, name: seq<byte>)
    requires Readable(p) && Labels(name) != [] && StandsAt(p, pos, EncodeName(name)) && pos <= p.total
    requires ShortLabels(Labels(name)) && |name| + 1 <= size
    ensures (exists rounds: nat :: Run(p, size, Begin(pos), rounds) == Decoded(name, |name| + 2)) <==> WellDotted(name)
  {
    hide LabelsFrom, Flat, Run, EncodeName;
    NameRoundTrip(p, pos, size, name);
    var n: nat := |Labels(name)| + 1;
    NameDecodes(p, pos, size, name);
    forall rounds: nat | Run(p, size, Begin(pos), rounds) == Decoded(name, |name| + 2)
      ensures Run(p, size, Begin(pos), n) == Decoded(name, |name| + 2) {
      if rounds <= n {
        MoreRounds(p, size, Begin(pos), rounds, n);
      } else {
        MoreRounds(p, size, Begin(pos), n, rounds);
      }
    }
  }
}
