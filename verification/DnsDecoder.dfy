// The DNS name decoder on a packet and a name buffer.
module DnsDecoder {
  import opened Bytes
  import opened Dns
  import opened DnsDecode
  import opened DnsEnds

  // With rounds rounds to go from s, decoding ends in whole.
  ghost predicate Ahead(p: Source, size: nat, s: State, rounds: nat, whole: Result) {
    Readable(p) && s.pos <= p.total && whole != Running && Run(p, size, s, rounds) == whole
  }

  lemma OneRound(p: Source, size: nat, s: State, rounds: nat, whole: Result)
    requires Ahead(p, size, s, rounds, whole)
    ensures rounds > 0
    ensures match Step(p, size, s)
            case Next(t) => Ahead(p, size, t, rounds - 1, whole)
            case Stop => whole == Finish(s)
            case Fail => whole == Error
  {
  }

  // encode_covert_dot_str.
  method TakeLabel(packet: array<byte>, total: nat, linked: bool, dot: array<byte>, ghost s: State, pos: nat, len: nat)
    returns (ok: bool)
    requires total + 2 <= packet.Length && pos <= total && packet != dot && len <= dot.Length
    requires packet[pos] != 0 && !IsPointer(packet[pos]) && s.pos == pos && s.plain == dot[..len]
    modifies dot
    ensures var b := packet[pos];
            var r := Step(Source(packet[..], total, linked), dot.Length, s);
            if ok then len + b + 1 <= dot.Length && pos + b + 1 <= total
                       && r == Next(State(pos + b + 1, dot[..len + b + 1],
                           if s.jumped then s.encoded else s.encoded + b + 1, s.jumped))
            else r == Fail
  {
    var b := packet[pos];
    if b >= total - pos || len + b + 1 > dot.Length {
      return false;
    }
    CopyLabel(packet, pos + 1, b, dot, len);
    assert packet[pos + 1..pos + 1 + b] == packet[..][pos + 1..pos + 1 + b];
    ok := true;
  }

  // encode_covert_reuse_domain.
  method TakePointer(packet: array<byte>, total: nat, linked: bool, ghost size: nat, ghost s: State, pos: nat)
    returns (ok: bool, target: nat)
    requires total + 2 <= packet.Length && pos <= total && IsPointer(packet[pos]) && s.pos == pos
    ensures var r := Step(Source(packet[..], total, linked), size, s);
            if ok then target < total
                && r == Next(State(target, s.plain, if s.jumped then s.encoded else s.encoded + 2, true))
            else r == Fail
  {
    target := (packet[pos] as int * 256 + packet[pos + 1]) % 0x4000;
    ok := linked && target < total;
  }

  // One round of the loop.
  method Round(packet: array<byte>, total: nat, linked: bool, dot: array<byte>, pos: nat, len: nat, encoded: nat,
      jumped: bool)
    returns (ok: bool, pos1: nat, len1: nat, encoded1: nat, jumped1: bool)
    requires total + 2 <= packet.Length && pos <= total && packet != dot && len <= dot.Length && packet[pos] != 0
    modifies dot
    ensures pos1 <= total && len1 <= dot.Length
    ensures Step(Source(packet[..], total, linked), dot.Length, State(pos, old(dot[..len]), encoded, jumped))
            == if ok then Next(State(pos1, dot[..len1], encoded1, jumped1)) else Fail
  {
    ghost var s := State(pos, dot[..len], encoded, jumped);
    pos1, len1, encoded1, jumped1 := pos, len, encoded, jumped;
    var b := packet[pos];
    if b < 64 {
      ok := TakeLabel(packet, total, linked, dot, s, pos, len);
      if ok {
        pos1, len1 := pos + b + 1, len + b + 1;
        encoded1 := if jumped then encoded else encoded + b + 1;
      }
    } else {
      var target;
      ok, target := TakePointer(packet, total, linked, dot.Length, s, pos);
      if ok {
        pos1, jumped1 := target, true;
        encoded1 := if jumped then encoded else encoded + 2;
      }
    }
  }

  // decode_dot_str, for a name that does not lead into a circle of pointers.
  method DecodeDotStr(packet: array<byte>, start: nat, total: nat, linked: bool, dot: array<byte>)
    returns (ok: bool, encoded: nat)
    requires total + 2 <= packet.Length && start <= total && packet != dot
    requires !Caught(Source(packet[..], total, linked), dot.Length, Begin(start))
    modifies dot
    ensures var p := Source(old(packet[..]), total, linked);
            var r := Run(p, dot.Length, Begin(start), Rounds(p, dot.Length));
            && r != Running && ok == r.Decoded?
            && (ok ==> encoded == r.encoded && |r.name| < dot.Length && dot[..|r.name|] == r.name && dot[|r.name|] == 0)
  {
    ghost var p := Source(packet[..], total, linked);
    DecodingEnds(p, dot.Length, start);
    ghost var left := Rounds(p, dot.Length);
    ghost var whole := Run(p, dot.Length, Begin(start), left);
    var pos: nat, len: nat, jumped := start, 0, false;
    encoded := 0;
    ok := true;
    assert dot[..0] == [];
    while ok && packet[pos] != 0
      invariant pos <= total && len <= dot.Length
      invariant ok ==> Ahead(p, dot.Length, State(pos, dot[..len], encoded, jumped), left, whole)
      invariant !ok ==> whole == Error
      decreases left, ok
    {
      OneRound(p, dot.Length, State(pos, dot[..len], encoded, jumped), left, whole);
      ok, pos, len, encoded, jumped := Round(packet, total, linked, dot, pos, len, encoded, jumped);
      left := left - 1;
    }
    if ok {
      OneRound(p, dot.Length, State(pos, dot[..len], encoded, jumped), left, whole);
      ok := len >= 1;
      if ok {
        encoded := if jumped then encoded else encoded + 1;
        Terminate(dot, len);
      }
    }
  }

  method Terminate(dot: array<byte>, len: nat)
    requires 1 <= len <= dot.Length
    modifies dot
    ensures dot[len - 1] == 0 && dot[..len - 1] == old(dot[..len])[..len - 1]
  {
    ghost var plain := dot[..len];
    dot[len - 1] := 0;
    assert dot[..len - 1] == plain[..len - 1];
  }

  method CopyLabel(packet: array<byte>, from: nat, n: nat, dot: array<byte>, at: nat)
    requires packet != dot && from + n <= packet.Length && at + n + 1 <= dot.Length
    modifies dot
    ensures dot[..at + n + 1] == old(dot[..at]) + packet[from..from + n] + [DOT]
  {
    for i := 0 to n
      invariant forall j :: 0 <= j < at ==> dot[j] == old(dot[j])
      invariant forall j :: at <= j < at + i ==> dot[j] == packet[j - at + from]
    {
      dot[at + i] := packet[from + i];
    }
    dot[at + n] := DOT;
    assert dot[at..at + n] == packet[from..from + n];
    assert dot[..at] == old(dot[..at]);
  }
}
