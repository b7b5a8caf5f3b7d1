// Moving bytes towards the front of an array.
module Memmove {
  import opened Bytes

  // s after a memmove of moved bytes from at + n down to at.
  function AfterMove(s: seq<byte>, at: nat, n: nat, moved: nat): (r: seq<byte>)
    requires at + n + moved <= |s|
    ensures |r| == |s|
    ensures forall j :: at <= j < at + moved ==> r[j] == s[j + n]
    ensures forall j :: 0 <= j < |s| && !(at <= j < at + moved) ==> r[j] == s[j]
  {
    s[..at] + s[at + n..at + n + moved] + s[at + moved..]
  }

  lemma MoveIs(s: seq<byte>, r: seq<byte>, at: nat, n: nat, moved: nat)
    requires at + n + moved <= |s| == |r|
    requires forall j :: at <= j < at + moved ==> r[j] == s[j + n]
    requires forall j :: 0 <= j < |s| && !(at <= j < at + moved) ==> r[j] == s[j]
    ensures r == AfterMove(s, at, n, moved)
  {
    hide AfterMove;
    var t := AfterMove(s, at, n, moved);
    forall j | 0 <= j < |s| ensures r[j] == t[j] {
      if at <= j < at + moved {
        assert r[j] == s[j + n] == t[j];
      } else {
        assert r[j] == s[j] == t[j];
      }
    }
  }

  // memmove of moved bytes from at + n down to at.
  method MoveDown(data: array<byte>, at: nat, n: nat, moved: nat)
    requires at + n + moved <= data.Length
    modifies data
    ensures data[..] == AfterMove(old(data[..]), at, n, moved)
  {
    hide AfterMove;
    ghost var before := data[..];
    for i := 0 to moved
      invariant forall j :: at <= j < at + i ==> data[j] == before[j + n]
      invariant forall j :: 0 <= j < data.Length && !(at <= j < at + i) ==> data[j] == before[j]
    {
      data[at + i] := data[at + n + i];
    }
    MoveIs(before, data[..], at, n, moved);
  }

  lemma MovedPrefix(s: seq<byte>, r: seq<byte>, at: nat, n: nat, total: nat, moved: nat)
    requires at + n <= total <= at + n + moved <= |s| && r == AfterMove(s, at, n, moved)
    ensures r[..total - n] == s[..at] + s[at + n..total]
  {
    assert r[..at] == s[..at] && r[at..total - n] == s[at + n..total];
    assert r[..total - n] == r[..at] + r[at..total - n];
  }
}
