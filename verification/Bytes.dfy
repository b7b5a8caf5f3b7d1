// Little-endian words in a byte memory.
module Bytes {

  type byte = x: int | 0 <= x < 256

  function Pow256(k: nat): nat {
    if k == 0 then 1 else 256 * Pow256(k - 1)
  }

  function Encode(v: nat, k: nat): (s: seq<byte>)
    ensures |s| == k
  {
    if k == 0 then [] else [v % 256] + Encode(v / 256, k - 1)
  }

  function Decode(s: seq<byte>): nat {
    if s == [] then 0 else s[0] + 256 * Decode(s[1..])
  }

  lemma {:induction false} DecodeEncode(v: nat, k: nat)
    requires v < Pow256(k)
    ensures Decode(Encode(v, k)) == v
  {
    if k > 0 {
      DecodeEncode(v / 256, k - 1);
    }
  }

  lemma Pow256Values()
    ensures Pow256(4) == 0x1_0000_0000
    ensures Pow256(8) == 0x1_0000_0000_0000_0000
  {
    assert Pow256(2) == 65536;
    assert Pow256(6) == 65536 * 0x1_0000_0000;
  }

  // The k-byte word at address a.
  function Load(m: seq<byte>, a: int, k: nat): nat
    requires 0 <= a && a + k <= |m|
  {
    Decode(m[a..a + k])
  }

  lemma LoadSame(m: seq<byte>, m': seq<byte>, a: int, k: nat)
    requires 0 <= a && a + k <= |m| == |m'|
    requires forall t :: a <= t < a + k ==> m[t] == m'[t]
    ensures Load(m, a, k) == Load(m', a, k)
  {
    assert m[a..a + k] == m'[a..a + k];
  }

  // m' is m with the k-byte word at a set to v: nothing else changed, neither byte
  // by byte nor for any word elsewhere.
  ghost predicate Wrote(m: seq<byte>, m': seq<byte>, a: int, k: nat, v: nat) {
    && |m'| == |m|
    && 0 <= a && a + k <= |m|
    && Load(m', a, k) == v
    && SameExcept(m, m', a, k)
    && (forall c, n: nat {:trigger Load(m', c, n)} ::
          0 <= c && c + n <= |m| && (c + n <= a || a + k <= c) ==> Load(m', c, n) == Load(m, c, n))
  }

  ghost predicate SameExcept(m: seq<byte>, m': seq<byte>, a: int, k: nat) {
    |m'| == |m| && forall t :: 0 <= t < |m| && !(a <= t < a + k) ==> m'[t] == m[t]
  }

  // Store a k-byte word.
  method Store(mem: array<byte>, a: int, k: nat, v: nat)
    requires 0 <= a && a + k <= mem.Length
    requires v < Pow256(k)
    modifies mem
    ensures Wrote(old(mem[..]), mem[..], a, k, v)
  {
    var s := Encode(v, k);
    for i := 0 to k
      invariant forall t :: 0 <= t < mem.Length && !(a <= t < a + i) ==> mem[t] == old(mem[t])
      invariant forall t :: a <= t < a + i ==> mem[t] == s[t - a]
    {
      mem[a + i] := s[i];
    }
    assert mem[..][a..a + k] == s;
    DecodeEncode(v, k);
    ghost var m, m' := old(mem[..]), mem[..];
    forall c, n: nat {:trigger Load(m', c, n)} | 0 <= c && c + n <= |m| && (c + n <= a || a + k <= c)
      ensures Load(m', c, n) == Load(m, c, n)
    {
      LoadSame(m, m', c, n);
    }
  }

  lemma ConcatAssoc(a: seq<byte>, b: seq<byte>, c: seq<byte>)
    ensures a + b + c == a + (b + c)
  {
  }

  lemma PrefixSlice<T>(s: seq<T>, len: nat, i: nat, j: nat)
    requires i <= j <= len <= |s|
    ensures s[..len][i..j] == s[i..j]
  {
  }

  lemma SliceOfSlice<T>(s: seq<T>, at: nat, n: nat, i: nat, j: nat)
    requires i <= j <= n && at + n <= |s|
    ensures s[at..at + n][i..j] == s[at + i..at + j]
  {
    var a, b := s[at..at + n][i..j], s[at + i..at + j];
    assert |a| == |b| && forall k :: 0 <= k < |a| ==> a[k] == b[k];
  }

  lemma SameSlice<T>(s: seq<T>, t: seq<T>, i: nat, j: nat)
    requires i <= j <= |s| == |t| && forall k :: i <= k < j ==> s[k] == t[k]
    ensures s[i..j] == t[i..j]
  {
  }
}
