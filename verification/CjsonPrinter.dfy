// The cJSON printer: it writes into a buffer that grows, and leaves it to the caller to
// move the offset past what was written.
module CjsonPrinter {
  import opened Bytes
  import opened CjsonText

  const INT_MAX := 0x7FFF_FFFF
  const DEFAULT_SIZE := 256

  class PrintBuffer {
    var buffer: array<byte>
    var offset: nat
    var depth: nat
    const fmt: bool
    // All that has been printed, up to the offset and beyond.
    ghost var text: seq<byte>

    ghost predicate Valid()
      reads this, buffer
    {
      offset <= |text| < buffer.Length && forall i :: 0 <= i < |text| ==> buffer[i] == text[i]
    }

    // What lies beyond the offset is a C string.
    ghost predicate Terminated()
      requires Valid()
      reads this, buffer
    {
      buffer[|text|] == 0 && forall i :: offset <= i < |text| ==> text[i] != 0
    }

    constructor (size: nat, format: bool)
      requires size > 0
      ensures Valid() && fresh(buffer) && offset == 0 && depth == 0 && text == [] && fmt == format
    {
      buffer := new byte[size](_ => 0);
      offset, depth, fmt, text := 0, 0, format, [];
    }

    // ensure: room for needed bytes behind the offset and one more.
    method Ensure(needed: nat) returns (ok: bool)
      requires Valid() && offset == |text|
      modifies this
      ensures Valid() && offset == old(offset) && depth == old(depth) && text == old(text)
      ensures fresh(buffer) || buffer == old(buffer)
      ensures ok <==> needed <= INT_MAX && (needed + offset + 1 <= INT_MAX || needed + offset + 1 <= old(buffer.Length))
      ensures ok ==> offset + needed < buffer.Length
    {
      if needed > INT_MAX {
        return false;
      }
      var total := needed + offset + 1;
      if total <= buffer.Length {
        return true;
      }
      var size := total * 2;
      if total > INT_MAX / 2 {
        if total > INT_MAX {
          return false;
        }
        size := INT_MAX;
      }
      var bigger := new byte[size](_ => 0);
      for i := 0 to offset + 1
        invariant Valid() && buffer == old(buffer) && offset == old(offset) && depth == old(depth) && text == old(text)
        invariant forall j :: 0 <= j < i ==> bigger[j] == buffer[j]
      {
        bigger[i] := buffer[i];
      }
      buffer := bigger;
      ok := true;
    }

    // update_offset: on to the NUL.
    method UpdateOffset()
      requires Valid() && Terminated()
      modifies this
      ensures Valid() && Terminated() && offset == |text| && text == old(text) && depth == old(depth)
              && buffer == old(buffer)
    {
      while buffer[offset] != 0
        invariant Valid() && Terminated() && text == old(text) && depth == old(depth) && buffer == old(buffer)
        decreases |text| - offset
      {
        offset := offset + 1;
      }
    }

    // Write t behind the text, and a NUL behind it if end is set. Ensure has made room.
    method Put(t: seq<byte>, end: bool)
      requires Valid() && offset == |text| && offset + |t| < buffer.Length
      modifies this`text, buffer
      ensures Valid() && text == old(text) + t
      ensures end && NulFree(t) ==> Terminated()
    {
      for i := 0 to |t|
        invariant text == old(text) && offset == old(offset)
        invariant forall j :: 0 <= j < offset ==> buffer[j] == text[j]
        invariant forall j :: offset <= j < offset + i ==> buffer[j] == t[j - offset]
      {
        buffer[offset + i] := t[i];
      }
      if end {
        buffer[offset + |t|] := 0;
      }
      text := text + t;
    }

    // A piece of text that the offset moves past at once.
    method Emit(t: seq<byte>, room: nat, end: bool) returns (ok: bool)
      requires Valid() && offset == |text| && |t| <= room <= |t| + 1
      modifies this, buffer
      ensures Valid() && offset == |text| && depth == old(depth) && (fresh(buffer) || buffer == old(buffer))
      ensures text == if ok then old(text) + t else old(text)
      ensures !ok ==> |old(text)| + |t| + 2 > INT_MAX
    {
      ok := Ensure(room);
      if ok {
        Put(t, end);
        offset := offset + |t|;
      }
    }

    // A piece of text, terminated, that the offset is left in front of.
    method EmitTail(t: seq<byte>) returns (ok: bool)
      requires Valid() && offset == |text| && NulFree(t)
      modifies this, buffer
      ensures Valid() && depth == old(depth) && offset == old(offset) && (fresh(buffer) || buffer == old(buffer))
      ensures ok ==> text == old(text) + t && Terminated()
      ensures !ok ==> |old(text)| + |t| + 2 > INT_MAX
    {
      ok := Ensure(|t| + 1);
      if ok {
        Put(t, true);
      }
    }

    // ---------- strings and numbers ----------

    // print_string_ptr: count the escapes first, then write.
    method PrintStringPtr(t: seq<byte>) returns (ok: bool)
      requires Valid() && offset == |text| && NulFree(t)
      modifies this, buffer
      ensures Valid() && depth == old(depth) && (fresh(buffer) || buffer == old(buffer))
      ensures ok ==> text == old(text) + PrintString(t) && Terminated()
      ensures !ok ==> |old(text)| + |PrintString(t)| + 2 > INT_MAX
    {
      var escapes := CountEscapes(t);
      if escapes == 0 {
        EscapeNothing(t);
        ok := EmitTail([QUOTE] + t + [QUOTE]);
      } else {
        var body := Escaped(t, |t| + escapes);
        EscapeNulFree(t);
        ok := EmitTail([QUOTE] + body + [QUOTE]);
      }
    }

    static method CountEscapes(t: seq<byte>) returns (n: nat)
      ensures |EscapeAll(t)| == |t| + n
    {
      n := 0;
      for i := 0 to |t|
        invariant |EscapeAll(t[..i])| == i + n
      {
        EscapeSnoc(t, i);
        var c := t[i];
        if c == QUOTE || c == BACKSLASH || c == 8 || c == 12 || c == 10 || c == 13 || c == 9 {
          n := n + 1;
        } else if c < 32 {
          n := n + 5;
        }
      }
      assert t[..|t|] == t;
    }

    static method PutAt(out: array<byte>, p: nat, e: seq<byte>)
      requires p + |e| <= out.Length
      modifies out
      ensures out[..p + |e|] == old(out[..p]) + e
    {
      for k := 0 to |e|
        invariant forall j :: 0 <= j < p ==> out[j] == old(out[j])
        invariant forall j :: p <= j < p + k ==> out[j] == e[j - p]
      {
        out[p + k] := e[k];
      }
      assert out[..p] == old(out[..p]);
      assert out[p..p + |e|] == e;
      assert out[..p + |e|] == out[..p] + out[p..p + |e|];
    }

    // The escaping loop, into a block of exactly the counted length.
    static method Escaped(t: seq<byte>, length: nat) returns (s: seq<byte>)
      requires length == |EscapeAll(t)|
      ensures s == EscapeAll(t)
    {
      hide Escape;
      var out := new byte[length](_ => 0);
      var p := 0;
      for i := 0 to |t|
        invariant p == |EscapeAll(t[..i])| && p <= out.Length && out[..p] == EscapeAll(t[..i])
      {
        EscapeSnoc(t, i);
        EscapeGrow(t, i + 1);
        PutAt(out, p, Escape(t[i]));
        p := p + |Escape(t[i])|;
      }
      assert t[..|t|] == t;
      s := out[..p];
      assert out[..p] == out[..];
    }

    // print_number for an item whose double equals its integer.
    method PrintNumber(n: int) returns (ok: bool)
      requires Valid() && offset == |text| && Is32Bit(n)
      modifies this, buffer
      ensures Valid() && depth == old(depth) && (fresh(buffer) || buffer == old(buffer))
      ensures ok ==> text == old(text) + PrintInt(n) && Terminated()
      ensures !ok ==> |old(text)| + |PrintInt(n)| + 2 > INT_MAX
    {
      var t := PrintInt(n);
      IntNulFree(n);
      ok := EmitTail(t);
      if ok {
        offset := offset + |t|;
      }
    }

    // ---------- values ----------

    // print_value. On success the offset may still lie before the end of the text.
    method PrintValue(j: Json, ghost n: int) returns (ok: bool)
      requires Valid() && offset == |text| && Storable(j, n)
      modifies this, buffer
      ensures Valid() && (fresh(buffer) || buffer == old(buffer))
      ensures ok ==> text == old(text) + Print(j, old(depth), fmt) && Terminated() && depth == old(depth)
      ensures !ok ==> |old(text)| + |Print(j, old(depth), fmt)| + 2 > INT_MAX
      decreases j, 1
    {
      match j
      case Null => ok := EmitTail(NULL_TEXT);
      case Bool(b) => ok := EmitTail(if b then TRUE_TEXT else FALSE_TEXT);
      case Number(v) => ok := PrintNumber(v);
      case String(t) => ok := PrintStringPtr(t);
      case Array(items) => ok := PrintArray(items, n);
      case Object(members) => ok := PrintObject(members, n);
    }

    // A value, and the offset behind it.
    method PrintWhole(j: Json, ghost n: int) returns (ok: bool)
      requires Valid() && offset == |text| && Storable(j, n)
      modifies this, buffer
      ensures Valid() && (fresh(buffer) || buffer == old(buffer))
      ensures ok ==> text == old(text) + Print(j, old(depth), fmt) && offset == |text| && depth == old(depth)
      ensures !ok ==> |old(text)| + |Print(j, old(depth), fmt)| + 2 > INT_MAX
      decreases j, 2
    {
      ok := PrintValue(j, n);
      if ok {
        UpdateOffset();
      }
    }

    // One round of the loop of print_array.
    method PrintItem(j: Json, more: bool, ghost n: int) returns (ok: bool)
      requires Valid() && offset == |text| && Storable(j, n)
      modifies this, buffer
      ensures Valid() && (fresh(buffer) || buffer == old(buffer))
      ensures ok ==> offset == |text| && depth == old(depth)
      ensures ok ==> text == old(text) + (Print(j, depth, fmt) + Separator(more, fmt))
      ensures !ok ==> |old(text)| + |Print(j, old(depth), fmt)| + |Separator(more, fmt)| + 2 > INT_MAX
      decreases j, 3
    {
      ghost var t := text;
      ok := PrintWhole(j, n);
      if !ok {
        return;
      }
      if more {
        ok := Emit(Separator(true, fmt), |Separator(true, fmt)| + 1, true);
        if !ok {
          return;
        }
      }
      assert text == (t + Print(j, depth, fmt)) + Separator(more, fmt);
      ConcatAssoc(t, Print(j, depth, fmt), Separator(more, fmt));
    }

    // print_array.
    method PrintArray(items: seq<Json>, ghost n: int) returns (ok: bool)
      requires Valid() && offset == |text| && StorableItems(items, n - 1)
      modifies this, buffer
      ensures Valid() && (fresh(buffer) || buffer == old(buffer))
      ensures ok ==> text == old(text) + Print(Array(items), old(depth), fmt) && Terminated() && depth == old(depth)
      ensures !ok ==> |old(text)| + |Print(Array(items), old(depth), fmt)| + 2 > INT_MAX
      decreases items, 0, 1
    {
      hide PrintItems, StorableItems;
      ghost var whole := text + Print(Array(items), depth, fmt);
      ConcatAssoc(text, [OPEN_BRACKET], PrintItems(items, depth, fmt));
      ok := Emit([OPEN_BRACKET], 1, false);
      if !ok {
        return;
      }
      depth := depth + 1;
      ok := PrintElements(items, n, depth - 1, whole);
      if !ok {
        return;
      }
      ok := EmitTail([CLOSE_BRACKET]);
      if ok {
        depth := depth - 1;
      }
    }

    // The loop of print_array.
    method PrintElements(items: seq<Json>, ghost n: int, ghost d: nat, ghost whole: seq<byte>) returns (ok: bool)
      requires Valid() && offset == |text| && StorableItems(items, n - 1) && depth == d + 1
      requires text + PrintItems(items, d, fmt) == whole
      modifies this, buffer
      ensures Valid() && (fresh(buffer) || buffer == old(buffer))
      ensures ok ==> offset == |text| && depth == d + 1 && text + [CLOSE_BRACKET] == whole
      ensures !ok ==> |whole| + 2 > INT_MAX
      decreases items, 0, 0
    {
      ok := true;
      var i := 0;
      assert items[0..] == items;
      while i < |items|
        invariant i <= |items| && Valid() && offset == |text| && depth == d + 1
                  && (fresh(buffer) || buffer == old(buffer))
        invariant text + PrintItems(items[i..], d, fmt) == whole && ok
      {
        ItemsFrom(items, i, d, fmt);
        ConcatAssoc(text, Print(items[i], d + 1, fmt) + Separator(i + 1 < |items|, fmt),
            PrintItems(items[i + 1..], d, fmt));
        ok := PrintItem(items[i], i + 1 < |items|, n - 1);
        if !ok {
          return;
        }
        i := i + 1;
      }
      assert items[i..] == [];
    }

    // The indentation and the key of a member, and the colon.
    method PrintKey(key: seq<byte>) returns (ok: bool)
      requires Valid() && offset == |text| && NulFree(key)
      modifies this, buffer
      ensures Valid() && (fresh(buffer) || buffer == old(buffer))
      ensures ok ==> offset == |text| && depth == old(depth) && text == old(text) + KeyText(key, old(depth), fmt)
      ensures !ok ==> |old(text)| + |KeyText(key, old(depth), fmt)| + 2 > INT_MAX
    {
      ok := true;
      if fmt {
        ok := Emit(Tabs(depth), depth, false);
        if !ok {
          return;
        }
      }
      Pieces(old(text), Lead(depth, fmt), PrintString(key), Colon(fmt));
      assert text == old(text) + Lead(depth, fmt);
      ok := PrintStringPtr(key);
      if !ok {
        return;
      }
      UpdateOffset();
      ok := Emit(Colon(fmt), |Colon(fmt)|, false);
    }

    // One round of the loop of print_object.
    method PrintMember(m: Member, more: bool, ghost n: int) returns (ok: bool)
      requires Valid() && offset == |text| && NulFree(m.key) && Storable(m.value, n)
      modifies this, buffer
      ensures Valid() && (fresh(buffer) || buffer == old(buffer))
      ensures ok ==> offset == |text| && depth == old(depth)
      ensures ok ==> text == old(text) + MemberPiece(m, more, old(depth), fmt)
      ensures !ok ==> |old(text)| + |MemberPiece(m, more, old(depth), fmt)| + 2 > INT_MAX
      decreases m, 3
    {
      Pieces(text, KeyText(m.key, depth, fmt), Print(m.value, depth, fmt), LineEnd(more, fmt));
      ok := PrintKey(m.key);
      if !ok {
        return;
      }
      ok := PrintWhole(m.value, n);
      if !ok {
        return;
      }
      ok := Emit(LineEnd(more, fmt), |LineEnd(more, fmt)| + 1, true);
    }

    // print_object.
    method PrintObject(members: seq<Member>, ghost n: int) returns (ok: bool)
      requires Valid() && offset == |text| && StorableMembers(members, n - 1)
      modifies this, buffer
      ensures Valid() && (fresh(buffer) || buffer == old(buffer))
      ensures ok ==> text == old(text) + Print(Object(members), old(depth), fmt) && Terminated() && depth == old(depth)
      ensures !ok ==> |old(text)| + |Print(Object(members), old(depth), fmt)| + 2 > INT_MAX
      decreases members, 0, 1
    {
      hide Print, PrintMembers, StorableMembers;
      ghost var whole := text + Print(Object(members), depth, fmt);
      var open: seq<byte> := if fmt then [OPEN_BRACE, NEWLINE] else [OPEN_BRACE];
      OpenThenMembers(members, depth, fmt, open);
      ConcatAssoc(text, open, PrintMembers(members, depth, fmt));
      ok := Emit(open, |open| + 1, false);
      if !ok {
        return;
      }
      depth := depth + 1;
      ok := PrintAllMembers(members, n, depth - 1, whole);
      if !ok {
        return;
      }
      ok := EmitTail(Lead(depth - 1, fmt) + [CLOSE_BRACE]);
      if ok {
        depth := depth - 1;
      }
    }

    // The loop of print_object.
    method PrintAllMembers(members: seq<Member>, ghost n: int, ghost d: nat, ghost whole: seq<byte>) returns (ok: bool)
      requires Valid() && offset == |text| && StorableMembers(members, n - 1) && depth == d + 1
      requires text + PrintMembers(members, d, fmt) == whole
      modifies this, buffer
      ensures Valid() && (fresh(buffer) || buffer == old(buffer))
      ensures ok ==> offset == |text| && depth == d + 1 && text + (Lead(d, fmt) + [CLOSE_BRACE]) == whole
      ensures !ok ==> |whole| + 2 > INT_MAX
      decreases members, 0, 0
    {
      ok := true;
      var i := 0;
      assert members[0..] == members;
      while i < |members|
        invariant i <= |members| && Valid() && offset == |text| && depth == d + 1
                  && (fresh(buffer) || buffer == old(buffer))
        invariant text + PrintMembers(members[i..], d, fmt) == whole && ok
      {
        MembersFrom(members, i, d, fmt);
        ConcatAssoc(text, MemberPiece(members[i], i + 1 < |members|, d + 1, fmt),
            PrintMembers(members[i + 1..], d, fmt));
        ok := PrintMember(members[i], i + 1 < |members|, n - 1);
        if !ok {
          return;
        }
        i := i + 1;
      }
      assert members[i..] == [];
    }

    // The text so far and a NUL, in a block of its own.
    method Copied() returns (printed: array<byte>)
      requires Valid() && offset == |text|
      ensures fresh(printed) && printed[..] == text + [0]
    {
      printed := new byte[offset + 1](_ => 0);
      for i := 0 to offset
        invariant printed[offset] == 0 && forall k :: 0 <= k < i ==> printed[k] == text[k]
      {
        printed[i] := buffer[i];
      }
    }

    // print.
    static method PrintText(j: Json, format: bool, ghost n: int) returns (printed: array?<byte>)
      requires Storable(j, n)
      ensures printed != null ==> fresh(printed) && printed[..] == Print(j, 0, format) + [0]
      ensures printed == null ==> |Print(j, 0, format)| + 2 > INT_MAX
    {
      var p := new PrintBuffer(DEFAULT_SIZE, format);
      var ok := p.PrintWhole(j, n);
      if !ok {
        return null;
      }
      assert p.text == Print(j, 0, format);
      printed := p.Copied();
    }
  }

  lemma OpenThenMembers(members: seq<Member>, depth: nat, fmt: bool, open: seq<byte>)
    requires open == if fmt then [OPEN_BRACE, NEWLINE] else [OPEN_BRACE]
    ensures Print(Object(members), depth, fmt) == open + PrintMembers(members, depth, fmt)
  {
    assert open == [OPEN_BRACE] + (if fmt then [NEWLINE] else []);
  }

  function Lead(depth: nat, fmt: bool): seq<byte> {
    if fmt then Tabs(depth) else []
  }

  function KeyText(key: seq<byte>, depth: nat, fmt: bool): seq<byte> {
    Lead(depth, fmt) + PrintString(key) + Colon(fmt)
  }

  // The text of one member of an object whose members are indented by depth tabs.
  function MemberPiece(m: Member, more: bool, depth: nat, fmt: bool): seq<byte> {
    KeyText(m.key, depth, fmt) + Print(m.value, depth, fmt) + LineEnd(more, fmt)
  }

  // The text from member i on.
  lemma MembersFrom(members: seq<Member>, i: nat, depth: nat, fmt: bool)
    requires i < |members|
    ensures PrintMembers(members[i..], depth, fmt)
            == MemberPiece(members[i], i + 1 < |members|, depth + 1, fmt) + PrintMembers(members[i + 1..], depth, fmt)
  {
    assert members[i..][1..] == members[i + 1..];
  }

  // The text from element i on.
  lemma ItemsFrom(items: seq<Json>, i: nat, depth: nat, fmt: bool)
    requires i < |items|
    ensures PrintItems(items[i..], depth, fmt)
            == Print(items[i], depth + 1, fmt) + Separator(i + 1 < |items|, fmt)
                + PrintItems(items[i + 1..], depth, fmt)
  {
    assert items[i..][1..] == items[i + 1..];
  }

  lemma Pieces(a: seq<byte>, b: seq<byte>, c: seq<byte>, d: seq<byte>)
    ensures a + (b + c + d) == ((a + b) + c) + d && |b + c + d| == |b| + |c| + |d|
  {
  }

  lemma {:induction false} EscapeSnoc(t: seq<byte>, k: nat)
    requires k < |t|
    ensures EscapeAll(t[..k + 1]) == EscapeAll(t[..k]) + Escape(t[k])
    decreases k
  {
    if k == 0 {
      assert t[..1][1..] == [] && t[..0] == [];
    } else {
      EscapeSnoc(t[1..], k - 1);
      assert t[..k + 1][1..] == t[1..][..k] && t[..k][1..] == t[1..][..k - 1];
    }
  }

  lemma {:induction false} EscapeGrow(t: seq<byte>, k: nat)
    requires k <= |t|
    ensures |EscapeAll(t[..k])| <= |EscapeAll(t)|
    decreases |t| - k
  {
    if k < |t| {
      EscapeSnoc(t, k);
      EscapeGrow(t, k + 1);
    } else {
      assert t[..k] == t;
    }
  }

  // A string none of whose characters needs an escape is copied.
  lemma {:induction false} EscapeNothing(t: seq<byte>)
    requires |EscapeAll(t)| == |t|
    ensures EscapeAll(t) == t
  {
    if t != [] {
      EscapeLonger(t[1..]);
      EscapeNothing(t[1..]);
    }
  }

  lemma {:induction false} EscapeLonger(t: seq<byte>)
    ensures |EscapeAll(t)| >= |t|
  {
    if t != [] {
      EscapeLonger(t[1..]);
    }
  }

  lemma {:induction false} EscapeNulFree(t: seq<byte>)
    requires NulFree(t)
    ensures NulFree(EscapeAll(t))
  {
    if t != [] {
      EscapeNulFree(t[1..]);
    }
  }

  lemma IntNulFree(n: int)
    ensures NulFree(PrintInt(n))
  {
  }
}
