// The cJSON parser: an offset and a nesting depth advanced over the text in place,
// proved against the functions of CjsonText.
module CjsonParser {
  import opened Bytes
  import opened CjsonText

  // The elements read so far and what the rest of the loop yields.
  function Attach<T>(xs: seq<T>, r: Result<seq<T>>): Result<seq<T>> {
    match r
    case Ok(rest, e) => Ok(xs + rest, e)
    case Fail => Fail
    case Unmodelled => Unmodelled
  }

  lemma AttachCons<T>(xs: seq<T>, x: T, r: Result<seq<T>>)
    ensures Attach(xs, Cons(x, r)) == Attach(xs + [x], r)
  {
    if r.Ok? {
      assert xs + ([x] + r.value) == (xs + [x]) + r.value;
    }
  }

  lemma DigitsSnoc(s: seq<byte>, from: nat, e: nat)
    requires from <= e < |s| && (forall i :: from <= i <= e ==> IsDigit(s[i]))
    ensures DigitsValue(s[from..e + 1]) == 10 * DigitsValue(s[from..e]) + DigitValue(s[e])
  {
    var t := s[from..e + 1];
    assert t[..|t| - 1] == s[from..e];
  }

  lemma AttachNone<T>(r: Result<seq<T>>)
    ensures Attach([], r) == r
  {
    if r.Ok? {
      assert [] + r.value == r.value;
    }
  }

  // One round of the loop of parse_array that read v.
  lemma ItemsRound(s: seq<byte>, o: nat, depth: nat, items: seq<Json>, v: Result<Json>)
    requires o <= |s| && ParseValue(s, Skip(s, o), depth) == v
    ensures v.Fail? ==> Attach(items, ParseItems(s, o, depth)) == Fail
    ensures v.Unmodelled? ==> Attach(items, ParseItems(s, o, depth)) == Unmodelled
    ensures v.Ok? ==> var k := Skip(s, v.next);
            Attach(items, ParseItems(s, o, depth))
            == if k < |s| && s[k] == COMMA then Attach(items + [v.value], ParseItems(s, k + 1, depth))
               else if k < |s| && s[k] == CLOSE_BRACKET then Ok(items + [v.value], k + 1) else Fail
  {
    hide ParseValue, Skip, ParseMembers;
    if v.Ok? {
      var k := Skip(s, v.next);
      assert ParseItems(s, o, depth) == ItemsAfter(s, v.value, v.next, depth);
      if k < |s| && s[k] == COMMA {
        AttachCons(items, v.value, ParseItems(s, k + 1, depth));
      }
    }
  }

  // One round of the loop of parse_object that read m.
  lemma MembersRound(s: seq<byte>, o: nat, depth: nat, members: seq<Member>, m: Result<Member>)
    requires o <= |s| && ParseMember(s, o, depth) == m
    ensures m.Fail? ==> Attach(members, ParseMembers(s, o, depth)) == Fail
    ensures m.Unmodelled? ==> Attach(members, ParseMembers(s, o, depth)) == Unmodelled
    ensures m.Ok? ==> var k := Skip(s, m.next);
            Attach(members, ParseMembers(s, o, depth))
            == if k < |s| && s[k] == COMMA then Attach(members + [m.value], ParseMembers(s, k + 1, depth))
               else if k < |s| && s[k] == CLOSE_BRACE then Ok(members + [m.value], k + 1) else Fail
  {
    hide ParseMember, Skip, ParseItems;
    if m.Ok? {
      var k := Skip(s, m.next);
      assert ParseMembers(s, o, depth) == MembersAfter(s, m.value, m.next, depth);
      if k < |s| && s[k] == COMMA {
        AttachCons(members, m.value, ParseMembers(s, k + 1, depth));
      }
    }
  }

  class ParseBuffer {
    const content: seq<byte>
    var offset: nat
    var depth: nat

    ghost predicate Valid()
      reads this
    {
      offset <= |content|
    }

    constructor (text: seq<byte>)
      ensures Valid() && content == text && offset == 0 && depth == 0
    {
      content, offset, depth := text, 0, 0;
    }

    // buffer_skip_whitespace.
    method SkipWhitespace()
      requires Valid()
      modifies this
      ensures Valid() && offset == Skip(content, old(offset)) && depth == old(depth)
    {
      if offset == |content| {
        return;
      }
      while offset < |content| && content[offset] <= 32
        invariant old(offset) <= offset <= |content| && depth == old(depth)
        invariant SkipBlanks(content, offset) == SkipBlanks(content, old(offset))
      {
        offset := offset + 1;
      }
      if offset == |content| {
        offset := offset - 1;
      }
    }

    method StartsWith(t: seq<byte>) returns (b: bool)
      requires Valid()
      ensures b == Has(content, offset, t)
    {
      if offset + |t| > |content| {
        return false;
      }
      for i := 0 to |t|
        invariant forall j :: 0 <= j < i ==> content[offset..offset + |t|][j] == t[j]
      {
        assert content[offset..offset + |t|][i] == content[offset + i];
        if content[offset + i] != t[i] {
          return false;
        }
      }
      b := true;
    }

    // ---------- strings ----------

    // The first loop of parse_string: the position of the closing quote, or the end, and
    // the number of backslashes that start an escape.
    method FindQuote(from: nat) returns (e: nat, skipped: nat)
      requires from <= |content|
      ensures e == ScanQuote(content, from)
      ensures e < |content| ==> skipped == Backslashes(content[from..e])
    {
      ghost var end := ScanQuote(content, from);
      e, skipped := from, 0;
      while e < |content| && content[e] != QUOTE
        invariant e <= |content| && ScanQuote(content, e) == end
        invariant end < |content| ==> skipped + Backslashes(content[e..end]) == Backslashes(content[from..end])
        decreases |content| - e
      {
        ghost var rest := content[e..end];
        if content[e] == BACKSLASH {
          if e + 1 >= |content| {
            e := |content|;
            return;
          }
          skipped := skipped + 1;
          e := e + 1;
          assert end < |content| ==> rest[2..] == content[e + 1..end];
        } else {
          assert end < |content| ==> rest[1..] == content[e + 1..end];
        }
        e := e + 1;
      }
    }

    // parse_string.
    method ParseStringLiteral() returns (r: Result<seq<byte>>)
      requires Valid()
      modifies this
      ensures Valid() && depth == old(depth) && r == ParseString(content, old(offset))
      ensures r.Ok? ==> offset == r.next
    {
      hide Unescape, ScanQuote, Backslashes, CString;
      if offset == |content| || content[offset] != QUOTE {
        return Fail;
      }
      var e, skipped := FindQuote(offset + 1);
      if e == |content| {
        return Fail;
      }
      var t := UnescapeLoop(content[offset + 1..e], skipped);
      if t.Bad? {
        return Fail;
      }
      offset := e + 1;
      r := Ok(CString(t.bytes), offset);
    }

    // ---------- numbers ----------

    // The digits from from on, at most up to limit, and their value.
    method TakeDigits(from: nat, limit: nat) returns (e: nat, v: nat)
      requires from <= |content|
      ensures e == DigitsEnd(content, from, limit) && v == DigitsValue(content[from..e])
    {
      e, v := from, 0;
      assert content[from..from] == [];
      while e < |content| && e < limit && IsDigit(content[e])
        invariant from <= e <= |content|
        invariant DigitsEnd(content, e, limit) == DigitsEnd(content, from, limit)
        invariant forall i :: from <= i < e ==> IsDigit(content[i])
        invariant v == DigitsValue(content[from..e])
      {
        DigitsSnoc(content, from, e);
        v := 10 * v + DigitValue(content[e]);
        e := e + 1;
      }
    }

    // parse_number: digits are collected up to the limit of the local buffer.
    method ParseNumberToken() returns (r: Result<Json>)
      requires Valid() && offset < |content|
      modifies this
      ensures Valid() && depth == old(depth) && r == ParseNumber(content, old(offset))
      ensures r.Ok? ==> offset == r.next
    {
      var negative := content[offset] == MINUS;
      var from := if negative then offset + 1 else offset;
      var limit := offset + 63;
      var e, v := TakeDigits(from, limit);
      if e == from {
        return if Fraction(content, e) then Unmodelled else Fail;
      }
      if e < |content| && e < limit && GoesOn(content[e]) {
        return Unmodelled;
      }
      var n: int := if negative then -(v as int) else v;
      if !Is32Bit(n) {
        return Unmodelled;
      }
      offset := e;
      r := Ok(Number(n), offset);
    }

    // ---------- values ----------

    // parse_value.
    method ParseAny() returns (r: Result<Json>)
      requires Valid()
      modifies this
      ensures Valid() && r == ParseValue(content, old(offset), old(depth))
      ensures r.Ok? ==> offset == r.next && depth == old(depth)
      decreases |content| - offset, 1
    {
      var isNull := StartsWith(NULL_TEXT);
      if isNull {
        offset := offset + 4;
        return Ok(Null, offset);
      }
      var isFalse := StartsWith(FALSE_TEXT);
      if isFalse {
        offset := offset + 5;
        return Ok(Bool(false), offset);
      }
      var isTrue := StartsWith(TRUE_TEXT);
      if isTrue {
        offset := offset + 4;
        return Ok(Bool(true), offset);
      }
      if offset == |content| {
        return Fail;
      }
      var b := content[offset];
      if b == QUOTE {
        var t := ParseStringLiteral();
        r := if t.Ok? then Ok(String(t.value), t.next) else Fail;
      } else if b == MINUS || IsDigit(b) {
        r := ParseNumberToken();
      } else if b == OPEN_BRACKET {
        r := ParseArray();
      } else if b == OPEN_BRACE {
        r := ParseObject();
      } else {
        r := Fail;
      }
    }

    // parse_array.
    method ParseArray() returns (r: Result<Json>)
      requires Valid() && offset < |content| && content[offset] == OPEN_BRACKET
      modifies this
      ensures Valid() && r == ParseValue(content, old(offset), old(depth))
      ensures r.Ok? ==> offset == r.next && depth == old(depth)
      decreases |content| - offset, 0
    {
      NoLiteral(content, offset);
      if depth >= NESTING_LIMIT {
        return Fail;
      }
      depth := depth + 1;
      offset := offset + 1;
      SkipWhitespace();
      if offset < |content| && content[offset] == CLOSE_BRACKET {
        depth := depth - 1;
        offset := offset + 1;
        return Ok(Array([]), offset);
      }
      if offset == |content| {
        offset := offset - 1;
        return Fail;
      }
      var items := ParseElements();
      if !items.Ok? {
        return if items.Fail? then Fail else Unmodelled;
      }
      depth := depth - 1;
      r := Ok(Array(items.value), offset);
    }

    // The loop of parse_array, up to and including the closing bracket.
    method ParseElements() returns (r: Result<seq<Json>>)
      requires Valid() && 0 < offset
      modifies this
      ensures Valid() && r == ParseItems(content, old(offset), old(depth))
      ensures r.Ok? ==> offset == r.next && depth == old(depth)
      decreases |content| - offset, 2
    {
      hide ParseItems, ParseValue, Attach, Skip;
      ghost var whole := ParseItems(content, offset, depth);
      ghost var start := offset;
      offset := offset - 1;
      var items: seq<Json> := [];
      var more := true;
      AttachNone(whole);
      while more
        invariant Valid() && start <= offset + 1 && depth == old(depth)
        invariant more ==> offset < |content| && whole == Attach(items, ParseItems(content, offset + 1, depth))
        invariant !more ==> whole == if offset < |content|
                  && content[offset] == CLOSE_BRACKET then Ok(items, offset + 1) else Fail
        decreases more, |content| - offset
      {
        offset := offset + 1;
        ghost var o := offset;
        SkipWhitespace();
        var v := ParseAny();
        ItemsRound(content, o, old(depth), items, v);
        if !v.Ok? {
          return if v.Fail? then Fail else Unmodelled;
        }
        SkipWhitespace();
        more := offset < |content| && content[offset] == COMMA;
        items := items + [v.value];
      }
      if offset == |content| || content[offset] != CLOSE_BRACKET {
        return Fail;
      }
      offset := offset + 1;
      r := Ok(items, offset);
    }

    // parse_object.
    method ParseObject() returns (r: Result<Json>)
      requires Valid() && offset < |content| && content[offset] == OPEN_BRACE
      modifies this
      ensures Valid() && r == ParseValue(content, old(offset), old(depth))
      ensures r.Ok? ==> offset == r.next && depth == old(depth)
      decreases |content| - offset, 0
    {
      NoLiteral(content, offset);
      if depth >= NESTING_LIMIT {
        return Fail;
      }
      depth := depth + 1;
      offset := offset + 1;
      SkipWhitespace();
      if offset < |content| && content[offset] == CLOSE_BRACE {
        depth := depth - 1;
        offset := offset + 1;
        return Ok(Object([]), offset);
      }
      if offset == |content| {
        offset := offset - 1;
        return Fail;
      }
      var members := ParseAllMembers();
      if !members.Ok? {
        return if members.Fail? then Fail else Unmodelled;
      }
      depth := depth - 1;
      r := Ok(Object(members.value), offset);
    }

    // A key, a colon and a value.
    method ParseOneMember() returns (r: Result<Member>)
      requires Valid()
      modifies this
      ensures Valid() && r == ParseMember(content, old(offset), old(depth))
      ensures r.Ok? ==> offset == r.next && depth == old(depth)
      decreases |content| - offset, 1
    {
      hide ParseValue, ParseString, Skip;
      SkipWhitespace();
      var key := ParseStringLiteral();
      if !key.Ok? {
        return if key.Fail? then Fail else Unmodelled;
      }
      SkipWhitespace();
      if offset == |content| || content[offset] != COLON {
        return Fail;
      }
      offset := offset + 1;
      SkipWhitespace();
      var v := ParseAny();
      if !v.Ok? {
        return if v.Fail? then Fail else Unmodelled;
      }
      r := Ok(Member(key.value, v.value), offset);
    }

    // The loop of parse_object, up to and including the closing brace.
    method ParseAllMembers() returns (r: Result<seq<Member>>)
      requires Valid() && 0 < offset
      modifies this
      ensures Valid() && r == ParseMembers(content, old(offset), old(depth))
      ensures r.Ok? ==> offset == r.next && depth == old(depth)
      decreases |content| - offset, 2
    {
      hide ParseMembers, ParseMember, Attach, Skip;
      ghost var whole := ParseMembers(content, offset, depth);
      ghost var start := offset;
      offset := offset - 1;
      var members: seq<Member> := [];
      var more := true;
      AttachNone(whole);
      while more
        invariant Valid() && start <= offset + 1 && depth == old(depth)
        invariant more ==> offset < |content| && whole == Attach(members, ParseMembers(content, offset + 1, depth))
        invariant !more ==> whole == if offset < |content|
                  && content[offset] == CLOSE_BRACE then Ok(members, offset + 1) else Fail
        decreases more, |content| - offset
      {
        offset := offset + 1;
        ghost var o := offset;
        var m := ParseOneMember();
        MembersRound(content, o, old(depth), members, m);
        if !m.Ok? {
          return if m.Fail? then Fail else Unmodelled;
        }
        SkipWhitespace();
        more := offset < |content| && content[offset] == COMMA;
        members := members + [m.value];
      }
      if offset == |content| || content[offset] != CLOSE_BRACE {
        return Fail;
      }
      offset := offset + 1;
      r := Ok(members, offset);
    }

    // cJSON_ParseWithLength.
    static method ParseText(text: seq<byte>) returns (r: Result<Json>)
      ensures r == Parse(text)
    {
      if text == [] {
        return Fail;
      }
      var p := new ParseBuffer(text);
      if |text| > 4 && text[..3] == [0xEF, 0xBB, 0xBF] {
        p.offset := 3;
      }
      p.SkipWhitespace();
      r := p.ParseAny();
    }
  }

  // ---------- unescaping ----------

  lemma PrependTwice(a: seq<byte>, b: seq<byte>, t: Text)
    ensures Prepend(a, Prepend(b, t)) == Prepend(a + b, t)
  {
    if t.Good? {
      assert a + (b + t.bytes) == (a + b) + t.bytes;
    }
  }

  // The number of backslashes that start an escape, reading two characters for each.
  function Backslashes(t: seq<byte>): nat
    decreases |t|
  {
    if t == [] then 0
    else if t[0] == BACKSLASH then 1 + Backslashes(if |t| < 2 then [] else t[2..])
    else Backslashes(t[1..])
  }

  // Reading from one character later finds as many, or one less.
  lemma {:induction false} BackslashesShift(t: seq<byte>)
    requires t != []
    ensures Backslashes(t[1..]) <= Backslashes(t) <= Backslashes(t[1..]) + 1
    decreases |t|
  {
    if t[0] == BACKSLASH && |t| >= 2 {
      BackslashesShift(t[1..]);
      assert t[1..][1..] == t[2..];
    }
  }

  lemma BackslashesOfFour(t: seq<byte>)
    requires |t| >= 4
    ensures Backslashes(t) <= Backslashes(t[4..]) + 2
    ensures (forall i :: 0 <= i < 4 ==> t[i] != BACKSLASH) ==> Backslashes(t) == Backslashes(t[4..])
  {
    assert t[1..][1..] == t[2..] && t[2..][1..] == t[3..] && t[3..][1..] == t[4..];
    assert t[1..][2..] == t[3..] && t[2..][2..] == t[4..];
    BackslashesShift(t[3..]);
    BackslashesShift(t[2..]);
  }

  lemma {:induction false} BackslashesFit(t: seq<byte>)
    ensures Backslashes(t) <= |t|
    decreases |t|
  {
    if t != [] {
      BackslashesFit(t[1..]);
      if |t| >= 2 {
        BackslashesFit(t[2..]);
      }
    }
  }

  // A UTF-16 literal gives no more bytes than it has characters besides its backslashes.
  lemma LiteralShrinks(t: seq<byte>)
    requires |t| >= 2 && t[0] == BACKSLASH && t[1] == 117 && Utf16(t).1 > 0
    ensures |Utf16(t).0| + Backslashes(t) <= Utf16(t).1 + Backslashes(t[Utf16(t).1..])
  {
    BackslashesOfFour(t[2..]);
    assert t[2..][4..] == t[6..];
    assert forall i :: 0 <= i < 4 ==> t[2..][i] == t[2..6][i];
    if Utf16(t).1 == 12 {
      BackslashesOfFour(t[8..]);
      assert t[8..][4..] == t[12..] && t[6..][2..] == t[8..];
      assert forall i :: 0 <= i < 4 ==> t[8..][i] == t[8..12][i];
    }
  }

  // What has been written for the first p characters of t leaves room for the rest: the
  // block that is allocated suffices.
  ghost predicate Room(t: seq<byte>, p: nat, out: seq<byte>) {
    && p <= |t| && |out| + Backslashes(t) <= p + Backslashes(t[p..])
    && Prepend(out, Unescape(t[p..])) == Unescape(t)
  }

  lemma RoomAtFirst(t: seq<byte>)
    ensures Room(t, 0, [])
  {
    assert t[0..] == t;
  }

  lemma RoomIsEnough(t: seq<byte>, p: nat, out: seq<byte>)
    requires Room(t, p, out)
    ensures |out| <= |t| - Backslashes(t)
    ensures p == |t| ==> Unescape(t) == Good(out)
  {
    BackslashesFit(t[p..]);
    assert out + [] == out;
  }

  lemma RoomAfter(t: seq<byte>, p: nat, out: seq<byte>, piece: seq<byte>, n: nat)
    requires Room(t, p, out) && p + n <= |t|
    requires Unescape(t[p..]) == if n == 0 then Bad else Prepend(piece, Unescape(t[p..][n..]))
    requires n > 0 ==> |piece| + Backslashes(t[p..]) <= n + Backslashes(t[p..][n..])
    ensures if n == 0 then Unescape(t) == Bad else Room(t, p + n, out + piece)
  {
    assert t[p..][n..] == t[p + n..];
    PrependTwice(out, piece, Unescape(t[p + n..]));
  }

  // The second loop of parse_string, into a block of the length computed before, with a
  // byte to spare behind the NUL.
  method UnescapeLoop(t: seq<byte>, skipped: nat) returns (r: Text)
    requires skipped == Backslashes(t)
    ensures r == Unescape(t)
    ensures r.Good? ==> |r.bytes| + skipped <= |t|
  {
    BackslashesFit(t);
    hide Unescape, Backslashes, Room;
    var output := new byte[|t| + 1 - skipped + 1](_ => 0);
    var p: nat, w: nat := 0, 0;
    RoomAtFirst(t);
    assert output[..0] == [];
    while p < |t|
      invariant p <= |t| && w <= output.Length && Room(t, p, output[..w])
    {
      var piece, n := UnescapeStep(t[p..]);
      ghost var out := output[..w];
      RoomAfter(t, p, out, piece, n);
      if n == 0 {
        return Bad;
      }
      RoomIsEnough(t, p + n, out + piece);
      w := WritePiece(output, w, piece);
      p := p + n;
    }
    RoomIsEnough(t, p, output[..w]);
    r := Good(output[..w]);
    output[w] := 0;
  }

  method WritePiece(output: array<byte>, at: nat, piece: seq<byte>) returns (w: nat)
    requires at + |piece| <= output.Length
    modifies output
    ensures w == at + |piece| && output[..w] == old(output[..at]) + piece
  {
    for i := 0 to |piece|
      invariant output[..at] == old(output[..at])
      invariant output[at..at + i] == piece[..i]
    {
      output[at + i] := piece[i];
    }
    w := at + |piece|;
    assert output[..w] == output[..at] + output[at..w];
  }

  // One character or one escape sequence: what it stands for and its length, 0 if bad.
  method UnescapeStep(t: seq<byte>) returns (piece: seq<byte>, n: nat)
    requires t != []
    ensures n <= |t|
    ensures Unescape(t) == if n == 0 then Bad else Prepend(piece, Unescape(t[n..]))
    ensures n > 0 ==> |piece| + Backslashes(t) <= n + Backslashes(t[n..])
  {
    piece, n := [t[0]], 1;
    if t[0] == BACKSLASH {
      if |t| < 2 {
        return [], 0;
      }
      n := 2;
      match t[1]
      case 98 => piece := [8];
      case 102 => piece := [12];
      case 110 => piece := [10];
      case 114 => piece := [13];
      case 116 => piece := [9];
      case 34 => piece := [34];
      case 92 => piece := [92];
      case 47 => piece := [47];
      case 117 =>
        var u := Utf16(t);
        piece, n := u.0, u.1;
        if n > 0 {
          LiteralShrinks(t);
        }
      case _ => n := 0;
    }
  }
}
