// The receive buffer: mqtt_net_on_recv, mqtt_read_message and mqtt_handle_messages
// on a fixed-size byte buffer, and the in-place topic termination.
module MqttReceiver {
  import opened Bytes
  import opened MqttWire
  import opened MqttReceive

  // The scan of mqtt_read_remaining_length with its accumulators.
  function ScanLength(s: seq<byte>, k: nat, mult: nat, acc: nat): LengthRead
    requires k <= 4 && k <= |s|
    decreases 4 - k
  {
    if k == 4 then Illegal
    else if k == |s| then TooShort
    else
      if s[k] < 128 then Got(k + 1, AddDigit(acc, s[k], mult))
      else ScanLength(s, k + 1, mult * 128, AddDigit(acc, s[k] - 128, mult))
  }

  function AddDigit(acc: nat, digit: nat, mult: nat): nat {
    acc + digit * mult
  }

  lemma Weigh(acc: int, mult: int, x: int, v: int)
    ensures acc + mult * (x + 128 * v) == acc + x * mult + (mult * 128) * v
  {
    assert mult * (x + 128 * v) == mult * x + mult * (128 * v);
  }

  // The accumulating scan reads the same value as the recursive definition.
  lemma {:induction false} ScanIsRead(s: seq<byte>, k: nat, mult: nat, acc: nat)
    requires k <= 4 && k <= |s|
    ensures match ReadRemLenFrom(s, k)
            case Got(b, v) => ScanLength(s, k, mult, acc) == Got(b, acc + mult * v)
            case other => ScanLength(s, k, mult, acc) == other
    decreases 4 - k
  {
    if k < 4 && k < |s| && s[k] >= 128 {
      var x: int := s[k] - 128;
      ScanIsRead(s, k + 1, mult * 128, acc + x * mult);
      match ReadRemLenFrom(s, k + 1)
      case Got(b, v) => Weigh(acc, mult, x, v);
      case _ =>
    }
  }

  ghost function Prepend(ps: seq<seq<byte>>, r: Pass): Pass {
    r.(packets := ps + r.packets)
  }

  // A pass over s that has dispatched packets, stands at at, has used k verdicts and
  // last got ret.
  ghost predicate Progress(s: seq<byte>, vs: seq<int>, packets: seq<seq<byte>>, at: nat, k: nat, ret: int) {
    && at <= |s| && k <= |vs|
    && (ret >= 0 ==> Handle(s, vs) == Prepend(packets, Handle(s[at..], vs[k..])))
    && (ret < 0 ==> Handle(s, vs) == Pass(packets, if ret == -1 then [] else s[at..], ret == -1))
  }

  lemma ProgressStart(s: seq<byte>, vs: seq<int>)
    ensures Progress(s, vs, [], 0, 0, 0)
  {
    assert s[0..] == s && vs[0..] == vs;
    assert [] + Handle(s, vs).packets == Handle(s, vs).packets;
  }

  lemma ProgressStop(s: seq<byte>, vs: seq<int>, packets: seq<seq<byte>>, at: nat, k: nat, ret: int)
    requires Progress(s, vs, packets, at, k, ret) && ret >= 0 && at < |s|
    requires !ReadMessage(s[at..]).Whole?
    ensures Progress(s, vs, packets, at, k, if ReadMessage(s[at..]).Partial? then -2 else -1)
  {
    assert packets + [] == packets;
  }

  lemma ProgressDispatch(s: seq<byte>, vs: seq<int>, packets: seq<seq<byte>>, at: nat, k: nat, ret: int)
    requires Progress(s, vs, packets, at, k, ret) && ret >= 0 && at < |s|
    requires ReadMessage(s[at..]).Whole?
    ensures var n := ReadMessage(s[at..]).len;
            at + n <= |s| && Progress(s, vs, packets + [s[at..at + n]], at + n, if k < |vs| then k + 1 else k,
                                      if k < |vs| then vs[k] else 0)
  {
    var n := ReadMessage(s[at..]).len;
    assert s[at..][..n] == s[at..at + n] && s[at..][n..] == s[at + n..];
    if k < |vs| {
      assert vs[k..][1..] == vs[k + 1..];
    }
    if k == |vs| || vs[k] >= 0 {
      PrependAssoc(packets, s[at..at + n], Handle(s[at + n..], vs[if k < |vs| then k + 1 else k..]));
    }
  }

  lemma ProgressEnd(s: seq<byte>, vs: seq<int>, packets: seq<seq<byte>>, at: nat, k: nat, ret: int)
    requires Progress(s, vs, packets, at, k, ret)
    requires ret < 0 || at == |s|
    ensures Handle(s, vs).packets == packets
    ensures Handle(s, vs).rest == if ret == -1 then [] else s[at..]
  {
    assert packets + [] == packets;
  }

  lemma PrependAssoc(ps: seq<seq<byte>>, p: seq<byte>, r: Pass)
    ensures Prepend(ps, Prepend([p], r)) == Prepend(ps + [p], r)
  {
    assert ps + ([p] + r.packets) == ps + [p] + r.packets;
  }

  class Receiver {
    const data: array<byte>
    var len: nat

    ghost predicate Valid()
      reads this
    {
      len <= data.Length
    }

    ghost function Buffered(): (s: seq<byte>)
      requires Valid()
      reads this, data
    {
      data[..len]
    }

    constructor (size: nat)
      ensures Valid() && fresh(data) && data.Length == size && Buffered() == []
    {
      data := new byte[size](_ => 0);
      len := 0;
    }

    // Append what has arrived; an empty chunk is refused.
    method OnRecv(chunk: seq<byte>) returns (ok: bool)
      requires Valid()
      modifies this, data
      ensures Valid() && ok == (chunk != [])
      ensures Buffered() == Append(old(Buffered()), chunk, data.Length)
    {
      if |chunk| == 0 {
        return false;
      }
      if len == data.Length {
        len := 0;
      }
      var at := len;
      var n := if |chunk| > data.Length - at then data.Length - at else |chunk|;
      ghost var kept := data[..at];
      for i := 0 to n
        invariant data[..at] == kept
        invariant data[at..at + i] == chunk[..i]
      {
        data[at + i] := chunk[i];
      }
      assert data[..at + n] == kept + chunk[..n];
      len := at + n;
      ok := true;
    }

    // The remaining length field in data[from..to).
    method ReadRemainingLength(from: nat, to: nat) returns (r: LengthRead)
      requires from <= to <= data.Length
      ensures r == ReadRemLen(data[from..to])
    {
      ghost var s := data[from..to];
      var idx: nat, multiplier: nat, value: nat := 0, 1, 0;
      ScanIsRead(s, 0, 1, 0);
      while true
        invariant idx <= 4 && idx <= |s|
        invariant ScanLength(s, idx, multiplier, value) == ReadRemLen(s)
        decreases 4 - idx
      {
        if idx == 4 {
          return Illegal;
        }
        if idx == to - from {
          return TooShort;
        }
        var b := data[from + idx];
        assert b == s[idx];
        idx := idx + 1;
        if b < 128 {
          return Got(idx, AddDigit(value, b, multiplier));
        }
        value := AddDigit(value, b - 128, multiplier);
        multiplier := multiplier * 128;
      }
    }

    // The packet that starts at from, if data[from..to) holds all of it.
    method ReadMessageAt(from: nat, to: nat) returns (r: Message)
      requires from <= to <= data.Length
      ensures r == ReadMessage(data[from..to])
    {
      if to - from < 2 {
        return Partial;
      }
      var l := ReadRemainingLength(from + 1, to);
      assert data[from..to][1..] == data[from + 1..to];
      match l {
        case TooShort => return Partial;
        case Illegal => return Malformed;
        case Got(b, v) =>
          ReadPrefixFrom(data[from + 1..to], [], 0);
          return if v > to - from - 1 - b then Partial else Whole(1 + b + v, b);
      }
    }

    // Dispatch every whole packet, then move the rest to the front.
    method HandleMessages(verdicts: seq<int>) returns (packets: seq<seq<byte>>)
      requires Valid()
      modifies this, data
      ensures Valid()
      ensures var r := Handle(old(Buffered()), verdicts); packets == r.packets && Buffered() == r.rest
    {
      hide Progress, Handle, ReadMessage;
      packets := [];
      ghost var s := data[..len];
      var at: nat, ret: int, k: nat, total := 0, 0, 0, len;
      ProgressStart(s, verdicts);
      while at < total && ret >= 0
        invariant at <= total && data[..total] == s
        invariant Progress(s, verdicts, packets, at, k, ret)
        decreases total - at, ret
      {
        var m := ReadMessageAt(at, total);
        assert data[at..total] == s[at..];
        if m.Whole? {
          ProgressDispatch(s, verdicts, packets, at, k, ret);
          assert data[at..at + m.len] == s[at..at + m.len];
          packets := packets + [data[at..at + m.len]];
          at := at + m.len;
          ret := if k < |verdicts| then verdicts[k] else 0;
          k := if k < |verdicts| then k + 1 else k;
        } else {
          ProgressStop(s, verdicts, packets, at, k, ret);
          ret := if m.Partial? then -2 else -1;
        }
      }
      ProgressEnd(s, verdicts, packets, at, k, ret);
      if ret == -1 {
        len := 0;
      } else {
        assert data[at..total] == s[at..];
        MoveToFront(at, total);
        len := total - at;
      }
    }

    // memmove of data[at..total) to the front.
    method MoveToFront(at: nat, total: nat)
      requires at <= total <= data.Length
      modifies data
      ensures data[..total - at] == old(data[at..total])
    {
      ghost var s := data[at..total];
      for i := 0 to total - at
        invariant data[..i] == s[..i]
        invariant data[at + i..total] == s[i..]
      {
        assert data[at + i] == data[at + i..total][0];
        data[i] := data[at + i];
      }
    }

    // Move the topic of n bytes one byte towards the front.
    method ShiftTopic(body: nat, n: nat)
      requires body + 2 + n <= data.Length
      modifies data
      ensures forall j :: 0 <= j < data.Length && !(body < j <= body + n) ==> data[j] == old(data[j])
      ensures forall j :: body < j <= body + n ==> data[j] == old(data[j + 1])
    {
      ghost var before := data[..];
      for i := 0 to n
        invariant forall j :: 0 <= j < data.Length && !(body < j <= body + i) ==> data[j] == before[j]
        invariant forall j :: body < j <= body + i ==> data[j] == before[j + 1]
      {
        data[body + 1 + i] := data[body + 2 + i];
      }
    }

    // mqtt_report_message: terminate the topic in place, for QoS 0 after moving it one
    // byte towards the front, because no message id follows it there.
    method TerminateTopic(body: nat, bodyLen: nat, qos: nat) returns (topic: nat)
      requires body + bodyLen <= data.Length
      requires ParsePublish(qos, data[body..body + bodyLen]).Received?
      modifies data
      ensures var r := ParsePublish(qos, old(data[body..body + bodyLen]));
              && topic + |r.topic| < body + bodyLen - |r.payload|
              && data[topic..topic + |r.topic|] == r.topic && data[topic + |r.topic|] == 0
              && data[body + bodyLen - |r.payload|..body + bodyLen] == r.payload
      ensures forall i :: 0 <= i < data.Length && !(body < i < body + bodyLen) ==> data[i] == old(data[i])
    {
      ghost var before := data[..];
      TopicFits(before, body, bodyLen, qos);
      var n := (data[body] as int) * 256 + (data[body + 1] as int);
      topic := PlaceTopic(body, n, qos);
      TopicPlace(before, data[..], body, bodyLen, qos, n, topic);
    }

    method PlaceTopic(body: nat, n: nat, qos: nat) returns (topic: nat)
      requires body + 2 + n < data.Length
      modifies data
      ensures topic == if qos == 0 then body + 1 else body + 2
      ensures data[topic + n] == 0
      ensures forall j :: topic <= j < topic + n ==> data[j] == old(data[..])[j + body + 2 - topic]
      ensures forall j :: 0 <= j < data.Length && !(body < j <= body + 2 + n) ==> data[j] == old(data[j])
      ensures qos == 0 ==> data[body + 2 + n] == old(data[body + 2 + n])
    {
      topic := body + 2;
      if qos == 0 {
        ShiftTopic(body, n);
        topic := body + 1;
      }
      data[topic + n] := 0;
    }
  }

  // There is room for the topic, its NUL and what follows.
  lemma TopicFits(m: seq<byte>, body: nat, bodyLen: nat, qos: nat)
    requires body + bodyLen <= |m| && ParsePublish(qos, m[body..body + bodyLen]).Received?
    ensures bodyLen >= 4 && ReadShort(m[body..body + bodyLen]) == (m[body] as int) * 256 + (m[body + 1] as int)
    ensures ReadShort(m[body..body + bodyLen]) + 4 <= bodyLen
  {
  }

  // Where the topic and the payload are after the termination.
  lemma TopicPlace(m: seq<byte>, m': seq<byte>, body: nat, bodyLen: nat, qos: nat, n: nat, topic: nat)
    requires body + bodyLen <= |m| == |m'|
    requires ParsePublish(qos, m[body..body + bodyLen]).Received?
    requires n == ReadShort(m[body..body + bodyLen])
    requires topic == if qos == 0 then body + 1 else body + 2
    requires m'[topic + n] == 0
    requires forall j :: topic <= j < topic + n ==> m'[j] == m[j + body + 2 - topic]
    requires forall j :: body + 2 + n < j < |m| ==> m'[j] == m[j]
    requires qos == 0 ==> body + 2 + n < |m| && m'[body + 2 + n] == m[body + 2 + n]
    ensures var r := ParsePublish(qos, m[body..body + bodyLen]);
            && topic + |r.topic| < body + bodyLen - |r.payload|
            && m'[topic..topic + |r.topic|] == r.topic && m'[topic + |r.topic|] == 0
            && m'[body + bodyLen - |r.payload|..body + bodyLen] == r.payload
  {
    var r, a := TopicParts(m, body, bodyLen, qos, n);
    hide ParsePublish;
    forall j | 0 <= j < n ensures m'[topic + j] == r.topic[j] {
      assert r.topic[j] == m[body + 2 + j];
      assert m'[topic + j] == m[(topic + j) + body + 2 - topic];
    }
    assert m'[topic..topic + n] == r.topic;
    assert forall j :: a <= j < body + bodyLen ==> m'[j] == m[j];
    SameSlice(m', m, a, body + bodyLen);
  }

  // Where they are before; the payload starts at a.
  lemma TopicParts(m: seq<byte>, body: nat, bodyLen: nat, qos: nat, n: nat) returns (r: Inbound, a: nat)
    requires body + bodyLen <= |m| && ParsePublish(qos, m[body..body + bodyLen]).Received?
    requires n == ReadShort(m[body..body + bodyLen])
    ensures r == ParsePublish(qos, m[body..body + bodyLen]) && r.Received?
    ensures a == body + 2 + n + (if qos > 0 then 2 else 0) <= body + bodyLen
    ensures r.topic == m[body + 2..body + 2 + n] && r.payload == m[a..body + bodyLen]
  {
    var s := m[body..body + bodyLen];
    r, a := ParsePublish(qos, s), body + 2 + n + (if qos > 0 then 2 else 0);
    assert r.topic == s[2..2 + n] && r.payload == s[a - body..bodyLen];
    SliceOfSlice(m, body, bodyLen, 2, 2 + n);
    SliceOfSlice(m, body, bodyLen, a - body, bodyLen);
  }
}
