// DNS names: the dotted form, the label form of section 3.1 of RFC 1035, and the
// decoder that follows the compression pointers of section 4.1.4.
module Dns {
  import opened Bytes

  const DOT: byte := 46

  // ---------- names ----------

  // Every label followed by a dot; the name proper lacks the last one.
  function Dotted(ls: seq<seq<byte>>): seq<byte> {
    if ls == [] then [] else ls[0] + [DOT] + Dotted(ls[1..])
  }

  function Name(ls: seq<seq<byte>>): (n: seq<byte>)
    requires ls != []
    ensures |n| + 1 == |Dotted(ls)| && n + [DOT] == Dotted(ls)
  {
    DottedEnds(ls);
    Dotted(ls)[..|Dotted(ls)| - 1]
  }

  lemma {:induction false} DottedEnds(ls: seq<seq<byte>>)
    requires ls != []
    ensures |Dotted(ls)| > 0 && Dotted(ls)[|Dotted(ls)| - 1] == DOT
    ensures Dotted(ls)[..|Dotted(ls)| - 1] + [DOT] == Dotted(ls)
  {
    if |ls| > 1 {
      DottedEnds(ls[1..]);
    } else {
      assert ls[1..] == [];
    }
  }

  // Length-prefixed labels.
  function Flat(ls: seq<seq<byte>>): seq<byte> {
    if ls == [] then [] else [|ls[0]| % 256] + ls[0] + Flat(ls[1..])
  }

  // The string is split at dots; empty labels do not occur.
  function SkipDots(name: seq<byte>, k: nat): (a: nat)
    requires k <= |name|
    ensures k <= a <= |name| && (forall j :: k <= j < a ==> name[j] == DOT) && (a < |name| ==> name[a] != DOT)
    decreases |name| - k
  {
    if k < |name| && name[k] == DOT then SkipDots(name, k + 1) else k
  }

  function LabelEnd(name: seq<byte>, k: nat): (e: nat)
    requires k <= |name|
    ensures k <= e <= |name| && (forall j :: k <= j < e ==> name[j] != DOT) && (e < |name| ==> name[e] == DOT)
    decreases |name| - k
  {
    if k < |name| && name[k] != DOT then LabelEnd(name, k + 1) else k
  }

  function LabelsFrom(name: seq<byte>, k: nat): seq<seq<byte>>
    requires k <= |name|
    decreases |name| - k
  {
    var a := SkipDots(name, k);
    if a == |name| then [] else [name[a..LabelEnd(name, a)]] + LabelsFrom(name, LabelEnd(name, a))
  }

  function Labels(name: seq<byte>): seq<seq<byte>> {
    LabelsFrom(name, 0)
  }

  // What encode_dot_str writes: nothing at all for a name without labels.
  function EncodeName(name: seq<byte>): seq<byte> {
    if Labels(name) == [] then [] else Flat(Labels(name)) + [0]
  }

  // No label of the name is empty.
  ghost predicate WellDotted(name: seq<byte>) {
    && name != [] && name[0] != DOT && name[|name| - 1] != DOT
    && forall i, j :: 0 <= i < j < |name| && j == i + 1 ==> name[i] != DOT || name[j] != DOT
  }

  lemma NameOne(l: seq<byte>)
    ensures Name([l]) == l
  {
    assert [l][1..] == [] && Dotted([l]) == l + [DOT];
    assert Name([l]) == (l + [DOT])[..|l|];
  }

  lemma NameMore(l: seq<byte>, rest: seq<seq<byte>>)
    requires rest != []
    ensures Name([l] + rest) == l + [DOT] + Name(rest)
  {
    assert ([l] + rest)[1..] == rest;
    var n := l + [DOT] + Name(rest);
    assert Dotted([l] + rest) == l + [DOT] + (Name(rest) + [DOT]) == n + [DOT];
    assert Name([l] + rest) == (n + [DOT])[..|n|];
  }

  lemma AfterLabel(name: seq<byte>, e: nat)
    requires WellDotted(name) && e < |name| && name[e] == DOT
    ensures e + 1 < |name| && name[e + 1] != DOT && LabelsFrom(name, e) == LabelsFrom(name, e + 1)
  {
    assert e < |name| - 1;
    assert name[e + 1] != DOT;
    assert SkipDots(name, e) == SkipDots(name, e + 1);
  }

  lemma FirstLabel(name: seq<byte>, k: nat)
    requires k < |name| && name[k] != DOT
    ensures LabelsFrom(name, k) == [name[k..LabelEnd(name, k)]] + LabelsFrom(name, LabelEnd(name, k))
  {
    assert SkipDots(name, k) == k;
  }

  lemma LastLabel(name: seq<byte>, k: nat)
    requires k < |name| && name[k] != DOT && LabelEnd(name, k) == |name|
    ensures LabelsFrom(name, k) == [name[k..]]
  {
    FirstLabel(name, k);
    assert SkipDots(name, |name|) == |name|;
    assert LabelsFrom(name, |name|) == [];
    assert name[k..|name|] == name[k..];
  }

  lemma {:induction false} WellDottedFrom(name: seq<byte>, k: nat)
    requires WellDotted(name) && k < |name| && name[k] != DOT
    ensures LabelsFrom(name, k) != [] && Name(LabelsFrom(name, k)) == name[k..]
    decreases |name| - k
  {
    hide LabelsFrom, LabelEnd, Name;
    var e := LabelEnd(name, k);
    if e == |name| {
      LastLabel(name, k);
      NameOne(name[k..]);
    } else {
      FirstLabel(name, k);
      AfterLabel(name, e);
      WellDottedFrom(name, e + 1);
      NameMore(name[k..e], LabelsFrom(name, e));
      NamePieces(name, k, e);
    }
  }

  lemma NamePieces(name: seq<byte>, k: nat, e: nat)
    requires k <= e < |name| && name[e] == DOT
    ensures name[k..] == name[k..e] + [DOT] + name[e + 1..]
  {
  }

  // Splitting and rejoining gives back exactly the names without empty labels.
  lemma SplitJoin(name: seq<byte>)
    ensures Labels(name) != [] && Name(Labels(name)) == name <==> WellDotted(name)
  {
    if WellDotted(name) {
      WellDottedFrom(name, 0);
    } else if Labels(name) != [] && Name(Labels(name)) == name {
      LabelsAreLabels(name, 0);
      JoinWellDotted(Labels(name));
    }
  }

  predicate IsLabel(l: seq<byte>) {
    l != [] && forall i :: 0 <= i < |l| ==> l[i] != DOT
  }

  lemma {:induction false} LabelsAreLabels(name: seq<byte>, k: nat)
    requires k <= |name|
    ensures forall i :: 0 <= i < |LabelsFrom(name, k)| ==> IsLabel(LabelsFrom(name, k)[i])
    decreases |name| - k
  {
    var a := SkipDots(name, k);
    if a < |name| {
      LabelsAreLabels(name, LabelEnd(name, a));
    }
  }

  lemma {:induction false} JoinWellDotted(ls: seq<seq<byte>>)
    requires ls != [] && forall i :: 0 <= i < |ls| ==> IsLabel(ls[i])
    ensures WellDotted(Name(ls))
  {
    var n := Name(ls);
    assert IsLabel(ls[0]);
    if |ls| == 1 {
      assert ls == [ls[0]];
      NameOne(ls[0]);
    } else {
      JoinWellDotted(ls[1..]);
      assert ls == [ls[0]] + ls[1..];
      NameMore(ls[0], ls[1..]);
    }
  }

  // The encoding is never longer than the name and two bytes, which is what the caller
  // allocates, and exactly that long for names without empty labels.
  lemma {:induction false} FlatLength(name: seq<byte>, k: nat)
    requires k <= |name|
    ensures |Flat(LabelsFrom(name, k))| <= |name| - k
            + (if k < |name| && name[k] == DOT then 0 else if k == |name| then 0 else 1)
    decreases |name| - k
  {
    var a := SkipDots(name, k);
    if a < |name| {
      var e := LabelEnd(name, a);
      FlatLength(name, e);
      var ls := LabelsFrom(name, k);
      assert ls[1..] == LabelsFrom(name, e);
    }
  }

  lemma EncodeFits(name: seq<byte>)
    ensures |EncodeName(name)| <= |name| + 2
  {
    FlatLength(name, 0);
  }

  lemma {:induction false} FlatOfDotted(ls: seq<seq<byte>>)
    ensures |Flat(ls)| == |Dotted(ls)|
  {
    if ls != [] {
      FlatOfDotted(ls[1..]);
    }
  }

  // ---------- the encoder ----------

  // strtok: the next label starts at a and ends before e; a == |name| if there is none.
  method NextLabel(name: seq<byte>, k: nat) returns (a: nat, e: nat)
    requires k <= |name|
    ensures a == SkipDots(name, k) && e == LabelEnd(name, a)
  {
    a := k;
    while a < |name| && name[a] == DOT
      invariant k <= a <= |name| && SkipDots(name, a) == SkipDots(name, k)
    {
      a := a + 1;
    }
    e := a;
    while e < |name| && name[e] != DOT
      invariant a <= e <= |name| && LabelEnd(name, e) == LabelEnd(name, a)
    {
      e := e + 1;
    }
  }

  // out holds the labels done so far, a NUL behind them and what it held before.
  ghost predicate Holds(out: seq<byte>, before: seq<byte>, done: seq<seq<byte>>) {
    && |out| == |before|
    && if done == [] then out == before
       else
         var at := |Flat(done)|;
         && at < |out| && out[..at] == Flat(done) && out[at] == 0
         && forall j :: at < j < |out| ==> out[j] == before[j]
  }

  // encode_dot_str. The size is only checked to be at least two.
  method EncodeDotStr(name: seq<byte>, out: array<byte>, size: nat) returns (ok: bool)
    requires |EncodeName(name)| <= out.Length
    modifies out
    ensures ok <==> size >= 2
    ensures !ok ==> out[..] == old(out[..])
    ensures ok ==> out[..|EncodeName(name)|] == EncodeName(name)
    ensures ok ==> out[|EncodeName(name)|..] == old(out[|EncodeName(name)|..])
  {
    if size < 2 {
      return false;
    }
    ok := true;
    var at := 0;
    ghost var before := out[..];
    ghost var done: seq<seq<byte>> := [];
    var a, e := NextLabel(name, 0);
    assert [] + Labels(name) == Labels(name);
    while a < |name|
      invariant a <= |name| && e == LabelEnd(name, a) && SkipDots(name, a) == a
      invariant done + LabelsFrom(name, a) == Labels(name) && at == |Flat(done)|
      invariant Holds(out[..], before, done)
      decreases |name| - a
    {
      LabelFits(name, done, a);
      AppendLabel(out, at, name[a..e], done, before);
      done := done + [name[a..e]];
      at := at + (e - a) + 1;
      a, e := NextLabel(name, e);
    }
    assert done == Labels(name);
    HoldsEncoding(out[..], before, name);
  }

  lemma HoldsEncoding(out: seq<byte>, before: seq<byte>, name: seq<byte>)
    requires Holds(out, before, Labels(name)) && |EncodeName(name)| <= |out|
    ensures out[..|EncodeName(name)|] == EncodeName(name) && out[|EncodeName(name)|..] == before[|EncodeName(name)|..]
  {
    if Labels(name) != [] {
      var at := |Flat(Labels(name))|;
      assert out[..at + 1] == out[..at] + [out[at]];
    }
  }

  // The next label and a NUL fit where the whole encoding does.
  lemma LabelFits(name: seq<byte>, done: seq<seq<byte>>, a: nat)
    requires a < |name| && SkipDots(name, a) == a && done + LabelsFrom(name, a) == Labels(name)
    ensures var e := LabelEnd(name, a);
            && a < e && |Flat(done)| + (e - a) + 2 <= |EncodeName(name)|
            && |Flat(done + [name[a..e]])| == |Flat(done)| + (e - a) + 1
            && (done + [name[a..e]]) + LabelsFrom(name, SkipDots(name, e)) == Labels(name)
  {
    var e := LabelEnd(name, a);
    var l, rest := name[a..e], LabelsFrom(name, e);
    assert LabelsFrom(name, a) == [l] + rest;
    assert done + ([l] + rest) == (done + [l]) + rest;
    FlatAppend(done, l);
    FlatPrefix(done + [l], rest);
  }

  lemma {:induction false} FlatAppend(ls: seq<seq<byte>>, l: seq<byte>)
    ensures Flat(ls + [l]) == Flat(ls) + [|l| % 256] + l
  {
    if ls == [] {
      assert ls + [l] == [l] && [l][1..] == [];
    } else {
      assert (ls + [l])[1..] == ls[1..] + [l];
      FlatAppend(ls[1..], l);
    }
  }

  lemma {:induction false} FlatPrefix(a: seq<seq<byte>>, b: seq<seq<byte>>)
    ensures |Flat(a)| <= |Flat(a + b)|
  {
    if a == [] {
    } else {
      assert (a + b)[1..] == a[1..] + b;
      FlatPrefix(a[1..], b);
    }
  }

  // The "%c%s" of sprintf: the length byte, the label and a terminating NUL.
  method AppendLabel(out: array<byte>, at: nat, lab: seq<byte>, ghost done: seq<seq<byte>>, ghost before: seq<byte>)
    requires Holds(out[..], before, done) && at == |Flat(done)| && at + |lab| + 1 < out.Length
    modifies out
    ensures Holds(out[..], before, done + [lab])
  {
    out[at] := |lab| % 256;
    for i := 0 to |lab|
      invariant forall j :: 0 <= j < i ==> out[at + 1 + j] == lab[j]
      invariant out[at] == |lab| % 256
      invariant forall j :: 0 <= j < out.Length && !(at <= j < at + 1 + i) ==> out[j] == old(out[j])
    {
      out[at + 1 + i] := lab[i];
    }
    out[at + 1 + |lab|] := 0;
    FlatAppend(done, lab);
    assert old(out[..])[..at] == Flat(done);
    assert out[..at] == Flat(done);
    assert out[at + 1..at + 1 + |lab|] == lab;
    assert out[..at + |lab| + 1] == out[..at] + [out[at]] + out[at + 1..at + 1 + |lab|];
  }
}
