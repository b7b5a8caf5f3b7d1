// The scan of mqtt_remove_send_message over the bytes of the send buffer, when the message
// of a tracker is still waiting there. Lengths are taken modulo 2^32, as they are computed.
module MqttScan {
  import opened Bytes
  import opened MqttWire
  import opened MqttFrames
  import opened Memmove

  const WORD := 0x1_0000_0000

  // ---------- headers ----------

  function From(s: seq<byte>, i: nat): seq<byte> {
    if i <= |s| then s[i..] else []
  }

  // Behind s all bytes are taken for zero.
  function ByteAt(s: seq<byte>, i: nat): byte {
    if i < |s| then s[i] else 0
  }

  // The length field that starts at offset from: all bytes up to the first without the
  // continuation bit, however many they are.
  function Field(s: seq<byte>, from: nat): (n: nat) {
    ReadPad(From(s, from)) % WORD
  }

  // The whole length of the message whose header stands at the front of s.
  function WholeLength(s: seq<byte>): (n: nat) {
    (HEADER_LEN + Field(s, 2)) % WORD
  }

  // mqtt_check_buffer.
  predicate Plausible(s: seq<byte>, left: nat)
    requires s != []
  {
    -1 <= ReadTag(s[0]) < SLOTS && ByteAt(s, 1) < 16 && WholeLength(s) <= left
  }

  lemma WordAdds(a: nat, b: nat, r: nat)
    ensures (a % WORD + (b % WORD) * r) % WORD == (a + b * r) % WORD
  {
    var p, q := a / WORD, b / WORD;
    assert a == WORD * p + a % WORD && b == WORD * q + b % WORD;
    assert b * r == WORD * (q * r) + (b % WORD) * r;
    WordDrops(a % WORD + (b % WORD) * r, p + q * r);
  }

  lemma WordDrops(a: nat, k: nat)
    ensures (a + WORD * k) % WORD == a % WORD
  {
  }

  // One byte of a length field that goes on.
  lemma FieldRound(length: nat, multiplier: nat, b: byte, r: nat)
    requires b >= 128
    ensures ((length + (b - 128) * multiplier) % WORD + (128 * multiplier % WORD) * r) % WORD
            == (length + multiplier * (b - 128 + 128 * r)) % WORD
  {
    WordAdds(length + (b - 128) * multiplier, 128 * multiplier, r);
    assert multiplier * (b - 128 + 128 * r) == (b - 128) * multiplier + 128 * multiplier * r;
  }

  lemma FieldStarts(s: seq<byte>, i: nat)
    ensures var b, r := ByteAt(s, i), ReadPad(From(s, i + 1));
            ReadPad(From(s, i)) == if b < 128 then b else b - 128 + 128 * r
  {
    if i < |s| {
      assert s[i..][1..] == s[i + 1..];
    }
  }

  // get_mqtt_packet_length.
  method PacketLength(data: array<byte>, from: nat) returns (length: nat)
    ensures length == Field(data[..], from)
  {
    hide ReadPad, From;
    ghost var s := data[..];
    length := 0;
    var multiplier: nat, i: nat := 1, from;
    while true
      invariant from <= i
      invariant (length + multiplier * ReadPad(From(s, i))) % WORD == Field(s, from)
      decreases if i < data.Length then data.Length - i else 0
    {
      var b: byte := if i < data.Length then data[i] else 0;
      FieldStarts(s, i);
      if b < 128 {
        length := (length + b * multiplier) % WORD;
        return;
      }
      FieldRound(length, multiplier, b, ReadPad(From(s, i + 1)));
      length := (length + (b - 128) * multiplier) % WORD;
      multiplier := 128 * multiplier % WORD;
      i := i + 1;
    }
  }

  // ---------- the loop ----------

  // mem is the memory from the start of the buffer on, left what is still to be scanned
  // from offset at on, len the length of the buffer by now.
  datatype Cursor = Cursor(mem: seq<byte>, at: nat, left: nat, len: nat)

  predicate Within(c: Cursor) {
    c.at + c.left <= |c.mem| && c.left <= c.len
  }

  predicate Stops(c: Cursor)
    requires Within(c)
  {
    c.left == 0 || !Plausible(c.mem[c.at..], c.left)
  }

  function Ahead(c: Cursor): nat
    requires Within(c)
  {
    WholeLength(c.mem[c.at..])
  }

  // One round of the loop, which moves on by the length of the message whatever it does.
  function Round(c: Cursor, key: int): (r: Cursor)
    requires Within(c) && !Stops(c)
    ensures Within(r) && |r.mem| == |c.mem| && r.left == c.left - Ahead(c) && r.at == c.at + Ahead(c)
  {
    var n := Ahead(c);
    if ReadTag(c.mem[c.at]) == key
    then Cursor(AfterMove(c.mem, c.at, n, c.left - n), c.at + n, c.left - n, c.len - n)
    else Cursor(c.mem, c.at + n, c.left - n, c.len)
  }

  function Rounds(c: Cursor, key: int, k: nat): (r: Cursor)
    requires Within(c)
    ensures Within(r)
    decreases k
  {
    if k == 0 || Stops(c) then c else Rounds(Round(c, key), key, k - 1)
  }

  // The memory and the length of the buffer afterwards, if there is an afterwards.
  datatype Scanned = Done(mem: seq<byte>, len: nat) | Forever

  function Scan(c: Cursor, key: int): (r: Scanned)
    requires Within(c)
    ensures r.Done? ==> |r.mem| == |c.mem| && r.len <= c.len
    decreases c.left
  {
    if Stops(c) then Done(c.mem, c.len)
    else if Ahead(c) == 0 then Forever
    else Scan(Round(c, key), key)
  }

  lemma ScanOnce(c: Cursor, key: int)
    requires Within(c)
    ensures Scan(c, key) == if Stops(c) then Done(c.mem, c.len)
                            else if Ahead(c) == 0 then Forever
                            else Scan(Round(c, key), key)
  {
  }

  lemma {:induction false} StandsStill(c: Cursor, key: int, k: nat)
    requires Within(c) && !Stops(c) && Ahead(c) == 0
    ensures !Stops(Rounds(c, key, k))
    decreases k
  {
    if k > 0 {
      assert AfterMove(c.mem, c.at, 0, c.left) == c.mem;
      assert Round(c, key) == c;
      StandsStill(c, key, k - 1);
    }
  }

  // The loop ends, after no more rounds than bytes, or it goes round for ever.
  lemma {:induction false} ScanIsLoop(c: Cursor, key: int)
    requires Within(c)
    ensures match Scan(c, key)
            case Done(m, n) => var d := Rounds(c, key, c.left); Stops(d) && d.mem == m && d.len == n
            case Forever => forall k: nat :: !Stops(Rounds(c, key, k))
    decreases c.left
  {
    hide AfterMove, Plausible, Ahead;
    if Stops(c) {
    } else if Ahead(c) == 0 {
      forall k: nat ensures !Stops(Rounds(c, key, k)) {
        StandsStill(c, key, k);
      }
    } else {
      var d := Round(c, key);
      ScanIsLoop(d, key);
      match Scan(d, key)
      case Done(_, _) => EnoughRounds(d, key, d.left, c.left - 1);
      case Forever =>
        forall k: nat ensures !Stops(Rounds(c, key, k)) {
          if k > 0 {
            assert Rounds(c, key, k) == Rounds(d, key, k - 1);
          }
        }
    }
  }

  lemma {:induction false} EnoughRounds(c: Cursor, key: int, k: nat, more: nat)
    requires Within(c) && k <= more && Stops(Rounds(c, key, k))
    ensures Rounds(c, key, more) == Rounds(c, key, k)
    decreases k
  {
    hide Round, Plausible, Ahead;
    if k > 0 && !Stops(c) {
      EnoughRounds(Round(c, key), key, k - 1, more - 1);
    }
  }

  // ---------- in place ----------

  // parse_send_packet_header and mqtt_check_buffer.
  method HeaderAt(data: array<byte>, at: nat, left: nat) returns (tag: int, n: nat, plausible: bool)
    requires at + left <= data.Length && left > 0
    ensures tag == ReadTag(data[at]) && n == WholeLength(data[at..]) && plausible == Plausible(data[at..], left)
  {
    hide ReadPad;
    tag := ReadTag(data[at]);
    n := PacketLength(data, at + 2);
    assert Field(data[..], at + 2) == Field(data[at..], 2) by {
      assert From(data[..], at + 2) == From(data[at..], 2);
    }
    n := (n + HEADER_LEN) % WORD;
    plausible := -1 <= tag < SLOTS && (at + 1 < data.Length ==> data[at + 1] < 16) && n <= left;
  }
}
