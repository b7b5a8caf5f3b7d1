// Parsing what cJSON printed gives back the tree.
module CjsonRoundTrip {
  import opened Bytes
  import opened CjsonText

  // ---------- text at an offset ----------

  lemma HasSplit(s: seq<byte>, o: nat, a: seq<byte>, b: seq<byte>)
    requires Has(s, o, a + b)
    ensures Has(s, o, a) && Has(s, o + |a|, b)
  {
    var t := s[o..o + |a + b|];
    assert s[o..o + |a|] == t[..|a|] == a;
    assert s[o + |a|..o + |a| + |b|] == t[|a|..] == b;
  }

  lemma HasAt(s: seq<byte>, o: nat, a: seq<byte>, i: nat)
    requires Has(s, o, a) && i < |a|
    ensures o + i < |s| && s[o + i] == a[i]
  {
    assert s[o..o + |a|][i] == a[i];
  }

  // Blanks before a character that is none are skipped.
  lemma {:induction false} SkipOver(s: seq<byte>, o: nat, n: nat)
    requires o + n < |s| && (forall i :: o <= i < o + n ==> s[i] <= 32) && s[o + n] > 32
    ensures Skip(s, o) == o + n
  {
    SkipBlanksOver(s, o, n);
  }

  lemma {:induction false} SkipBlanksOver(s: seq<byte>, o: nat, n: nat)
    requires o + n < |s| && (forall i :: o <= i < o + n ==> s[i] <= 32) && s[o + n] > 32
    ensures SkipBlanks(s, o) == o + n
    decreases n
  {
    if n > 0 {
      SkipBlanksOver(s, o + 1, n - 1);
    }
  }

  // ---------- strings ----------

  lemma HexBack(d: nat)
    requires d < 16
    ensures HexValue(HexDigit(d)) == d
  {
  }

  // One escaped character is read back.
  lemma UnescapeOne(c: byte, rest: seq<byte>)
    ensures Unescape(Escape(c) + rest) == CjsonText.Prepend([c], Unescape(rest))
  {
    var t := Escape(c) + rest;
    if c == QUOTE || c == BACKSLASH || c == 8 || c == 12 || c == 10 || c == 13 || c == 9 {
      assert t[2..] == rest;
    } else if c < 32 {
      assert t[6..] == rest;
      HexBack(c / 16);
      HexBack(c % 16);
      assert t[2..6] == [48, 48, HexDigit(c / 16), HexDigit(c % 16)];
      assert Hex4(t[2..6]) == c;
    } else {
      assert t[1..] == rest;
    }
  }

  lemma {:induction false} UnescapeAll(t: seq<byte>)
    ensures Unescape(EscapeAll(t)) == Good(t)
  {
    if t != [] {
      UnescapeAll(t[1..]);
      UnescapeOne(t[0], EscapeAll(t[1..]));
      assert [t[0]] + t[1..] == t;
    }
  }

  // The scan for the closing quote passes over one escaped character.
  lemma ScanOne(s: seq<byte>, e: nat, c: byte)
    requires Has(s, e, Escape(c)) && c != 0
    ensures e + |Escape(c)| <= |s| && ScanQuote(s, e) == ScanQuote(s, e + |Escape(c)|)
  {
    var t := Escape(c);
    HasFirst(s, e, t);
    if |t| == 6 {
      HasAt(s, e, t, 1);
      HasAt(s, e, t, 2);
      HasAt(s, e, t, 3);
      HasAt(s, e, t, 4);
      HasAt(s, e, t, 5);
      ScanPlain(s, e + 2);
      ScanPlain(s, e + 3);
      ScanPlain(s, e + 4);
      ScanPlain(s, e + 5);
    }
  }

  lemma ScanEnds(s: seq<byte>, e: nat)
    requires e < |s| && s[e] == QUOTE
    ensures ScanQuote(s, e) == e
  {
  }

  lemma ScanPlain(s: seq<byte>, e: nat)
    requires e < |s| && s[e] != QUOTE && s[e] != BACKSLASH
    ensures ScanQuote(s, e) == ScanQuote(s, e + 1)
  {
  }

  lemma {:induction false} ScanAll(s: seq<byte>, e: nat, t: seq<byte>)
    requires NulFree(t) && Has(s, e, EscapeAll(t) + [QUOTE])
    ensures ScanQuote(s, e) == e + |EscapeAll(t)|
    decreases |t|
  {
    hide Escape, ScanQuote, Has;
    if t == [] {
      assert EscapeAll(t) + [QUOTE] == [QUOTE];
      HasFirst(s, e, [QUOTE]);
      ScanEnds(s, e);
    } else {
      var a, b := Escape(t[0]), EscapeAll(t[1..]) + [QUOTE];
      assert EscapeAll(t) + [QUOTE] == a + b;
      HasSplit(s, e, a, b);
      ScanOne(s, e, t[0]);
      ScanAll(s, e + |a|, t[1..]);
    }
  }

  lemma {:induction false} CStringOfNulFree(t: seq<byte>)
    requires NulFree(t)
    ensures CString(t) == t
  {
    if t != [] {
      CStringOfNulFree(t[1..]);
    }
  }

  lemma Quoted(s: seq<byte>, o: nat, body: seq<byte>)
    requires Has(s, o, [QUOTE] + body + [QUOTE])
    ensures o < |s| && s[o] == QUOTE && Has(s, o + 1, body + [QUOTE])
    ensures o + 1 + |body| < |s| && s[o + 1..o + 1 + |body|] == body
  {
    assert [QUOTE] + body + [QUOTE] == [QUOTE] + (body + [QUOTE]);
    HasSplit(s, o, [QUOTE], body + [QUOTE]);
    HasFirst(s, o, [QUOTE]);
    HasSplit(s, o + 1, body, [QUOTE]);
  }

  lemma StringJoin(s: seq<byte>, o: nat, e: nat, body: seq<byte>, t: seq<byte>)
    requires o < |s| && s[o] == QUOTE && ScanQuote(s, o + 1) == e && e < |s| && s[o + 1..e] == body
    requires Unescape(body) == Good(t) && CString(t) == t
    ensures ParseString(s, o) == Ok(t, e + 1)
  {
  }

  // A printed string is read back, wherever it stands.
  lemma StringParses(s: seq<byte>, o: nat, t: seq<byte>)
    requires NulFree(t) && Has(s, o, PrintString(t))
    ensures ParseString(s, o) == Ok(t, o + |PrintString(t)|)
  {
    var body := EscapeAll(t);
    Quoted(s, o, body);
    ScanAll(s, o + 1, t);
    UnescapeAll(t);
    CStringOfNulFree(t);
    StringJoin(s, o, o + 1 + |body|, body, t);
  }

  // ---------- numbers ----------

  lemma {:induction false} DigitsBack(n: nat)
    ensures DigitsValue(Digits(n)) == n
  {
    var t := Digits(n);
    if n >= 10 {
      DigitsBack(n / 10);
      assert t[..|t| - 1] == Digits(n / 10);
    } else {
      assert t[..0] == [];
      assert DigitsValue([]) == 0;
    }
  }

  lemma {:induction false} DigitsShort(n: nat, k: nat, bound: nat)
    requires k > 0 && bound == Pow10(k) && n < bound
    ensures |Digits(n)| <= k
    decreases k
  {
    if n >= 10 {
      DigitsShort(n / 10, k - 1, Pow10(k - 1));
    }
  }

  function Pow10(k: nat): nat {
    if k == 0 then 1 else 10 * Pow10(k - 1)
  }

  lemma Pow10Ten()
    ensures Pow10(10) == 10_000_000_000
  {
    assert Pow10(5) == 100_000;
  }

  lemma {:induction false} DigitsEndAt(s: seq<byte>, o: nat, e: nat, limit: nat)
    requires o <= e <= |s| && e <= limit && (forall i :: o <= i < e ==> IsDigit(s[i]))
    requires e == |s| || e == limit || !IsDigit(s[e])
    ensures DigitsEnd(s, o, limit) == e
    decreases e - o
  {
    if o < e {
      DigitsEndAt(s, o + 1, e, limit);
    }
  }

  // What follows does not continue a number.
  predicate Stops(s: seq<byte>, e: nat) {
    e >= |s| || (!IsDigit(s[e]) && !GoesOn(s[e]))
  }

  lemma NumberParses(s: seq<byte>, o: nat, n: int)
    requires Is32Bit(n) && Has(s, o, PrintInt(n)) && Stops(s, o + |PrintInt(n)|)
    ensures o < |s| && (s[o] == MINUS || IsDigit(s[o]))
    ensures ParseNumber(s, o) == Ok(Number(n), o + |PrintInt(n)|)
  {
    hide Digits, DigitsValue, DigitsEnd, Has;
    var v: nat := if n < 0 then -n else n;
    var t := Digits(v);
    HasFirst(s, o, PrintInt(n));
    if n < 0 {
      HasSplit(s, o, [MINUS], t);
    }
    Pow10Ten();
    DigitsShort(v, 10, 10_000_000_000);
    DigitsRead(s, if n < 0 then o + 1 else o, v, o + 63);
    NumberIs(s, o, n, v, o + |PrintInt(n)|);
  }

  lemma NumberIs(s: seq<byte>, o: nat, n: int, v: nat, e: nat)
    requires o < e <= |s| && Is32Bit(n) && v == (if n < 0 then -n else n) && (n < 0 <==> s[o] == MINUS) && Stops(s, e)
    requires var from := if n < 0 then o + 1 else o;
             from < e && DigitsEnd(s, from, o + 63) == e && DigitsValue(s[from..e]) == v
    ensures ParseNumber(s, o) == Ok(Number(n), e)
  {
    hide DigitsEnd, DigitsValue;
  }

  lemma DigitsRead(s: seq<byte>, from: nat, v: nat, limit: nat)
    requires Has(s, from, Digits(v)) && Stops(s, from + |Digits(v)|) && from + |Digits(v)| <= limit
    ensures var e := from + |Digits(v)|;
            from < e <= |s| && IsDigit(s[from]) && DigitsEnd(s, from, limit) == e && DigitsValue(s[from..e]) == v
  {
    hide Digits, DigitsValue, DigitsEnd;
    var t := Digits(v);
    var e := from + |t|;
    HasFirst(s, from, t);
    DigitsBack(v);
    forall i | from <= i < e ensures IsDigit(s[i]) {
      HasAt(s, from, t, i - from);
    }
    DigitsEndAt(s, from, e, limit);
    assert s[from..e] == t;
  }

  // ---------- values ----------

  predicate Opening(b: byte) {
    b > 32 && b != CLOSE_BRACKET && b != CLOSE_BRACE && b != COMMA
  }

  lemma PrintStart(j: Json, depth: nat, fmt: bool)
    ensures |Print(j, depth, fmt)| > 0 && Opening(Print(j, depth, fmt)[0])
  {
  }

  lemma LiteralParses(s: seq<byte>, o: nat, j: Json, depth: nat, fmt: bool, pd: nat)
    requires j.Null? || j.Bool?
    requires Has(s, o, Print(j, depth, fmt))
    ensures ParseValue(s, o, pd) == Ok(j, o + |Print(j, depth, fmt)|)
  {
    HasFirst(s, o, Print(j, depth, fmt));
    if Has(s, o, NULL_TEXT) {
      HasFirst(s, o, NULL_TEXT);
    }
    if Has(s, o, FALSE_TEXT) {
      HasFirst(s, o, FALSE_TEXT);
    }
  }

  lemma ScalarParses(s: seq<byte>, o: nat, j: Json, depth: nat, fmt: bool, pd: nat)
    requires Storable(j, 0) && !j.Array? && !j.Object?
    requires Has(s, o, Print(j, depth, fmt)) && Stops(s, o + |Print(j, depth, fmt)|)
    ensures ParseValue(s, o, pd) == Ok(j, o + |Print(j, depth, fmt)|)
  {
    match j
    case Number(n) =>
      NumberParses(s, o, n);
      NoLiteral(s, o);
    case String(t) =>
      StringParses(s, o, t);
      HasFirst(s, o, PrintString(t));
      NoLiteral(s, o);
    case _ => LiteralParses(s, o, j, depth, fmt, pd);
  }

  // ---------- arrays ----------

  lemma StopsAt(s: seq<byte>, e: nat)
    requires e < |s| && (s[e] == COMMA || s[e] == CLOSE_BRACKET || s[e] == CLOSE_BRACE || s[e] == NEWLINE)
    ensures Stops(s, e)
  {
  }

  lemma ArrayParses(s: seq<byte>, o: nat, items: seq<Json>, pd: nat, e: nat)
    requires o + 1 < |s| && s[o] == OPEN_BRACKET && pd < NESTING_LIMIT && Skip(s, o + 1) == o + 1
    requires if items == [] then s[o + 1] == CLOSE_BRACKET && e == o + 2
             else s[o + 1] != CLOSE_BRACKET && ParseItems(s, o + 1, pd + 1) == Ok(items, e)
    ensures ParseValue(s, o, pd) == Ok(Array(items), e)
  {
    NoLiteral(s, o);
  }

  lemma ObjectParses(s: seq<byte>, o: nat, k: nat, members: seq<Member>, pd: nat, e: nat)
    requires o + 1 < |s| && s[o] == OPEN_BRACE && pd < NESTING_LIMIT && Skip(s, o + 1) == k && k < |s|
    requires if members == [] then s[k] == CLOSE_BRACE && e == k + 1
             else s[k] != CLOSE_BRACE && ParseMembers(s, k, pd + 1) == Ok(members, e)
    ensures ParseValue(s, o, pd) == Ok(Object(members), e)
  {
    NoLiteral(s, o);
  }

  lemma {:induction false} ArrayValueParses(s: seq<byte>, o: nat, items: seq<Json>, depth: nat, fmt: bool, pd: nat,
      e: nat)
    requires pd < NESTING_LIMIT && StorableItems(items, NESTING_LIMIT - pd - 1)
    requires Has(s, o, [OPEN_BRACKET] + PrintItems(items, depth, fmt)) && e == o + 1 + |PrintItems(items, depth, fmt)|
    ensures ParseValue(s, o, pd) == Ok(Array(items), e)
    decreases items, 3
  {
    hide ParseValue, ParseItems, PrintItems, Skip, Has;
    HasSplit(s, o, [OPEN_BRACKET], PrintItems(items, depth, fmt));
    HasFirst(s, o, [OPEN_BRACKET]);
    ArrayBody(s, o + 1, items, depth, fmt, pd + 1, e);
    ArrayParses(s, o, items, pd, e);
  }

  lemma {:induction false} ObjectValueParses(s: seq<byte>, o: nat, members: seq<Member>, depth: nat, fmt: bool,
      pd: nat, e: nat)
    requires pd < NESTING_LIMIT && StorableMembers(members, NESTING_LIMIT - pd - 1)
    requires Has(s, o, [OPEN_BRACE] + ObjectText(members, depth, fmt)) && e == o + 1 + |ObjectText(members, depth, fmt)|
    ensures ParseValue(s, o, pd) == Ok(Object(members), e)
    decreases members, 4
  {
    hide ParseValue, ParseMembers, ObjectText, Skip, Has;
    HasSplit(s, o, [OPEN_BRACE], ObjectText(members, depth, fmt));
    HasFirst(s, o, [OPEN_BRACE]);
    ObjectBody(s, o + 1, members, depth, fmt, pd + 1, e);
    ObjectParses(s, o, Skip(s, o + 1), members, pd, e);
  }

  lemma {:induction false} ValueParses(s: seq<byte>, o: nat, j: Json, depth: nat, fmt: bool, pd: nat, e: nat)
    requires Storable(j, NESTING_LIMIT - pd)
    requires Has(s, o, Print(j, depth, fmt)) && e == o + |Print(j, depth, fmt)| && Stops(s, e)
    ensures ParseValue(s, o, pd) == Ok(j, e)
    decreases j, 1
  {
    match j
    case Array(items) => ArrayValueParses(s, o, items, depth, fmt, pd, e);
    case Object(members) =>
      ObjectPrint(members, depth, fmt);
      ObjectValueParses(s, o, members, depth, fmt, pd, e);
    case _ => ScalarParses(s, o, j, depth, fmt, pd);
  }

  function ObjectText(members: seq<Member>, depth: nat, fmt: bool): seq<byte> {
    (if fmt then [NEWLINE] else []) + PrintMembers(members, depth, fmt)
  }

  lemma ObjectPrint(members: seq<Member>, depth: nat, fmt: bool)
    ensures Print(Object(members), depth, fmt) == [OPEN_BRACE] + ObjectText(members, depth, fmt)
  {
    hide PrintMembers;
    var nl: seq<byte> := if fmt then [NEWLINE] else [];
    assert [OPEN_BRACE] + nl + PrintMembers(members, depth, fmt)
           == [OPEN_BRACE] + (nl + PrintMembers(members, depth, fmt));
  }

  lemma {:induction false} ArrayBody(s: seq<byte>, o: nat, items: seq<Json>, depth: nat, fmt: bool, pd: nat, e: nat)
    requires StorableItems(items, NESTING_LIMIT - pd)
    requires Has(s, o, PrintItems(items, depth, fmt)) && e == o + |PrintItems(items, depth, fmt)|
    ensures o < |s| && Skip(s, o) == o
    ensures if items == [] then s[o] == CLOSE_BRACKET && e == o + 1
            else s[o] != CLOSE_BRACKET && ParseItems(s, o, pd) == Ok(items, e)
    decreases items, 2
  {
    ItemsStart(items, depth, fmt);
    HasFirst(s, o, PrintItems(items, depth, fmt));
    SkipOver(s, o, 0);
    if items != [] {
      ItemsParse(s, o, o, items, depth, fmt, pd, e);
    }
  }

  lemma ItemsStart(items: seq<Json>, depth: nat, fmt: bool)
    ensures var t := PrintItems(items, depth, fmt);
            |t| > 0 && (if items == [] then t == [CLOSE_BRACKET] else Opening(t[0]))
  {
    if items != [] {
      PrintStart(items[0], depth + 1, fmt);
    }
  }

  // A piece p, a separator that is a comma and blanks, and the rest.
  lemma PieceThenRest(s: seq<byte>, k: nat, p: seq<byte>, sep: seq<byte>, rest: seq<byte>) returns (e: nat, next: nat)
    requires Has(s, k, p + sep + rest) && sep != [] && sep[0] == COMMA && (forall i :: 1 <= i < |sep| ==> sep[i] <= 32)
    requires rest != [] && rest[0] > 32
    ensures Has(s, k, p) && e == k + |p| && e < |s| && s[e] == COMMA && Stops(s, e) && Skip(s, e) == e
    ensures next == e + |sep| && Skip(s, e + 1) == next && Has(s, next, rest)
  {
    assert p + sep + rest == p + ([COMMA] + (sep[1..] + rest));
    HasSplit(s, k, p, [COMMA] + (sep[1..] + rest));
    e := k + |p|;
    HasSplit(s, e, [COMMA], sep[1..] + rest);
    HasFirst(s, e, [COMMA]);
    SkipOver(s, e, 0);
    SkipIndent(s, e + 1, sep[1..], rest);
    next := e + |sep|;
  }

  // A piece p, blanks and a closing bracket or brace.
  lemma PieceThenEnd(s: seq<byte>, k: nat, p: seq<byte>, w: seq<byte>, close: byte) returns (e: nat)
    requires Has(s, k, p + w + [close]) && (w == [] || w[0] == NEWLINE) && (forall i :: 0 <= i < |w| ==> w[i] <= 32)
    requires close == CLOSE_BRACKET || close == CLOSE_BRACE
    ensures Has(s, k, p) && e == k + |p| && e < |s| && Stops(s, e)
    ensures e + |w| < |s| && s[e + |w|] == close && Skip(s, e) == e + |w|
  {
    assert p + w + [close] == p + (w + [close]);
    HasSplit(s, k, p, w + [close]);
    e := k + |p|;
    HasFirst(s, e, w + [close]);
    SkipIndent(s, e, w, [close]);
  }

  // Where the first element ends and where the others begin.
  lemma ItemsLayout(s: seq<byte>, k: nat, items: seq<Json>, depth: nat, fmt: bool) returns (e: nat, next: nat)
    requires items != [] && Has(s, k, PrintItems(items, depth, fmt))
    ensures Has(s, k, Print(items[0], depth + 1, fmt)) && e == k + |Print(items[0], depth + 1, fmt)|
    ensures e < |s| && Stops(s, e) && Skip(s, e) == e
    ensures |items| == 1 ==> s[e] == CLOSE_BRACKET && e + 1 == k + |PrintItems(items, depth, fmt)|
    ensures |items| > 1 ==> s[e] == COMMA && Skip(s, e + 1) == next && Has(s, next, PrintItems(items[1..], depth, fmt))
                            && next + |PrintItems(items[1..], depth, fmt)| == k + |PrintItems(items, depth, fmt)|
  {
    var p, rest := Print(items[0], depth + 1, fmt), PrintItems(items[1..], depth, fmt);
    ItemsStart(items[1..], depth, fmt);
    if |items| > 1 {
      e, next := PieceThenRest(s, k, p, Separator(true, fmt), rest);
    } else {
      assert p + [] + [CLOSE_BRACKET] == p + Separator(false, fmt) + rest;
      e := PieceThenEnd(s, k, p, [], CLOSE_BRACKET);
      next := e;
    }
  }

  lemma ItemsStep(s: seq<byte>, pd: nat, v: Json, e: nat, k: nat, rest: seq<Json>, f: nat)
    requires e <= |s| && Skip(s, e) == k && k < |s| && s[k] == COMMA && ParseItems(s, k + 1, pd) == Ok(rest, f)
    ensures ItemsAfter(s, v, e, pd) == Ok([v] + rest, f)
  {
  }

  lemma ItemsEnd(s: seq<byte>, pd: nat, v: Json, e: nat, k: nat)
    requires e <= |s| && Skip(s, e) == k && k < |s| && s[k] == CLOSE_BRACKET
    ensures ItemsAfter(s, v, e, pd) == Ok([v], k + 1)
  {
  }

  lemma ItemsJoin(s: seq<byte>, o: nat, k: nat, pd: nat, v: Json, e: nat, r: Result<seq<Json>>)
    requires o <= |s| && Skip(s, o) == k && ParseValue(s, k, pd) == Ok(v, e) && ItemsAfter(s, v, e, pd) == r
    ensures ParseItems(s, o, pd) == r
  {
  }

  lemma {:induction false} ItemsAfterParse(s: seq<byte>, e: nat, next: nat, items: seq<Json>, depth: nat, fmt: bool,
      pd: nat, f: nat)
    requires items != [] && StorableItems(items, NESTING_LIMIT - pd) && e < |s| && Skip(s, e) == e
    requires |items| == 1 ==> s[e] == CLOSE_BRACKET && f == e + 1
    requires |items| > 1 ==> s[e] == COMMA && Skip(s, e + 1) == next && Has(s, next, PrintItems(items[1..], depth, fmt))
                             && f == next + |PrintItems(items[1..], depth, fmt)|
    ensures ItemsAfter(s, items[0], e, pd) == Ok(items, f)
    decreases items, 0
  {
    if |items| > 1 {
      ItemsParse(s, e + 1, next, items[1..], depth, fmt, pd, f);
      ItemsStep(s, pd, items[0], e, e, items[1..], f);
      assert [items[0]] + items[1..] == items;
    } else {
      ItemsEnd(s, pd, items[0], e, e);
      assert items == [items[0]];
    }
  }

  lemma {:induction false} ItemsParse(s: seq<byte>, o: nat, k: nat, items: seq<Json>, depth: nat, fmt: bool, pd: nat,
      f: nat)
    requires items != [] && StorableItems(items, NESTING_LIMIT - pd)
    requires o <= |s| && Skip(s, o) == k && Has(s, k, PrintItems(items, depth, fmt))
    requires f == k + |PrintItems(items, depth, fmt)|
    ensures ParseItems(s, o, pd) == Ok(items, f)
    decreases items, 1
  {
    var e, next := ItemsLayout(s, k, items, depth, fmt);
    ValueParses(s, k, items[0], depth + 1, fmt, pd, e);
    ItemsAfterParse(s, e, next, items, depth, fmt, pd, f);
    ItemsJoin(s, o, k, pd, items[0], e, Ok(items, f));
  }

  // ---------- objects ----------

  function Indent(n: nat, fmt: bool): (t: seq<byte>)
    ensures forall i :: 0 <= i < |t| ==> t[i] <= 32
  {
    if fmt then Tabs(n) else []
  }

  lemma SkipIndent(s: seq<byte>, o: nat, w: seq<byte>, rest: seq<byte>)
    requires (forall i :: 0 <= i < |w| ==> w[i] <= 32) && rest != [] && rest[0] > 32 && Has(s, o, w + rest)
    ensures Skip(s, o) == o + |w| && Has(s, o + |w|, rest) && o + |w| < |s| && s[o + |w|] == rest[0]
  {
    HasSplit(s, o, w, rest);
    HasFirst(s, o + |w|, rest);
    forall i | o <= i < o + |w| ensures s[i] <= 32 {
      HasAt(s, o, w, i - o);
    }
    SkipOver(s, o, |w|);
  }

  // The blanks an object begins with, up to its first key or its brace.
  function LeadIn(members: seq<Member>, depth: nat, fmt: bool): (w: seq<byte>)
    ensures forall i :: 0 <= i < |w| ==> w[i] <= 32
    ensures w == [] || w[0] == NEWLINE
  {
    (if fmt then [NEWLINE] else []) + Indent(if members == [] then depth else depth + 1, fmt)
  }

  function AfterLeadIn(members: seq<Member>, depth: nat, fmt: bool): (t: seq<byte>)
    ensures t != [] && t[0] == (if members == [] then CLOSE_BRACE else QUOTE)
  {
    if members == [] then [CLOSE_BRACE] else MemberText(members, depth, fmt)
  }

  lemma ObjectTextIs(members: seq<Member>, depth: nat, fmt: bool)
    ensures ObjectText(members, depth, fmt) == LeadIn(members, depth, fmt) + AfterLeadIn(members, depth, fmt)
  {
    if members != [] {
      MembersSplit(members, depth, fmt);
    }
  }

  // Where the first key of an object begins, or its brace.
  lemma ObjectLayout(s: seq<byte>, o: nat, members: seq<Member>, depth: nat, fmt: bool) returns (k: nat)
    requires Has(s, o, ObjectText(members, depth, fmt))
    ensures o < |s| && Skip(s, o) == k && k < |s|
    ensures members == [] ==> s[k] == CLOSE_BRACE && k + 1 == o + |ObjectText(members, depth, fmt)|
    ensures members != [] ==> s[k] == QUOTE && Skip(s, k) == k && Has(s, k, MemberText(members, depth, fmt))
                              && k + |MemberText(members, depth, fmt)| == o + |ObjectText(members, depth, fmt)|
  {
    hide ObjectText, MemberText, PrintMembers, Has;
    var w, t := LeadIn(members, depth, fmt), AfterLeadIn(members, depth, fmt);
    ObjectTextIs(members, depth, fmt);
    SkipIndent(s, o, w, t);
    k := o + |w|;
    SkipOver(s, k, 0);
  }

  lemma {:induction false} ObjectBody(s: seq<byte>, o: nat, members: seq<Member>, depth: nat, fmt: bool, pd: nat,
      e: nat)
    requires StorableMembers(members, NESTING_LIMIT - pd)
    requires Has(s, o, ObjectText(members, depth, fmt)) && e == o + |ObjectText(members, depth, fmt)|
    ensures o < |s| && Skip(s, o) < |s|
    ensures if members == [] then s[Skip(s, o)] == CLOSE_BRACE && Skip(s, o) + 1 == e
            else s[Skip(s, o)] != CLOSE_BRACE && ParseMembers(s, Skip(s, o), pd) == Ok(members, e)
    decreases members, 3
  {
    var k := ObjectLayout(s, o, members, depth, fmt);
    if members != [] {
      MembersParse(s, k, k, members, depth, fmt, pd, e);
    }
  }

  // The text of the members without the indentation of the first.
  function MemberText(members: seq<Member>, depth: nat, fmt: bool): (t: seq<byte>)
    requires members != []
    ensures |t| > 0 && t[0] == QUOTE
  {
    PrintString(members[0].key)
        + (Colon(fmt) + (Print(members[0].value, depth + 1, fmt) + TailText(members, depth, fmt)))
  }

  lemma MembersSplit(members: seq<Member>, depth: nat, fmt: bool)
    requires members != []
    ensures PrintMembers(members, depth, fmt) == Indent(depth + 1, fmt) + MemberText(members, depth, fmt)
  {
  }

  lemma TailStart(members: seq<Member>, depth: nat, fmt: bool)
    requires members != []
    ensures var t := LineEnd(|members| > 1, fmt) + PrintMembers(members[1..], depth, fmt);
            |t| > 0 && (t[0] == COMMA || t[0] == NEWLINE || t[0] == CLOSE_BRACE)
  {
    if |members| == 1 {
      assert members[1..] == [];
    }
  }

  function TailText(members: seq<Member>, depth: nat, fmt: bool): seq<byte>
    requires members != []
  {
    LineEnd(|members| > 1, fmt) + PrintMembers(members[1..], depth, fmt)
  }

  lemma FirstApart(a: seq<byte>, b: seq<byte>)
    requires a != []
    ensures a + b == [a[0]] + (a[1..] + b)
  {
  }

  // A key, a colon and blanks, a value, and what follows it.
  lemma KeyThenValue(s: seq<byte>, k: nat, key: seq<byte>, colon: seq<byte>, v: seq<byte>, tail: seq<byte>)
    returns (c: nat, f: nat, g: nat)
    requires Has(s, k, key + (colon + (v + tail))) && colon != [] && colon[0] == COLON
    requires (forall i :: 1 <= i < |colon| ==> colon[i] <= 32) && v != [] && v[0] > 32
    requires tail != [] && (tail[0] == COMMA || tail[0] == NEWLINE || tail[0] == CLOSE_BRACE)
    ensures Has(s, k, key) && c == k + |key| && c < |s| && Skip(s, c) == c && s[c] == COLON && Skip(s, c + 1) == f
    ensures Has(s, f, v) && g == f + |v| && g < |s| && Stops(s, g) && Has(s, g, tail)
    ensures g == k + |key| + |colon| + |v|
  {
    hide Skip, Has;
    HasSplit(s, k, key, colon + (v + tail));
    c := k + |key|;
    FirstApart(colon, v + tail);
    HasSplit(s, c, [COLON], colon[1..] + (v + tail));
    HasFirst(s, c, [COLON]);
    SkipOver(s, c, 0);
    SkipIndent(s, c + 1, colon[1..], v + tail);
    f := c + |colon|;
    HasSplit(s, f, v, tail);
    g := f + |v|;
    HasFirst(s, g, tail);
    StopsAt(s, g);
  }

  // Where the key ends, where the value begins and ends, and what follows it.
  lemma MemberLayout(s: seq<byte>, k: nat, members: seq<Member>, depth: nat, fmt: bool) returns (c: nat, f: nat, g: nat)
    requires members != [] && Has(s, k, MemberText(members, depth, fmt))
    ensures Has(s, k, PrintString(members[0].key)) && c == k + |PrintString(members[0].key)|
    ensures c < |s| && Skip(s, c) == c && s[c] == COLON && Skip(s, c + 1) == f
    ensures Has(s, f, Print(members[0].value, depth + 1, fmt)) && g == f + |Print(members[0].value, depth + 1, fmt)|
    ensures g < |s| && Stops(s, g) && Has(s, g, TailText(members, depth, fmt))
    ensures g + |TailText(members, depth, fmt)| == k + |MemberText(members, depth, fmt)|
  {
    var m := members[0];
    PrintStart(m.value, depth + 1, fmt);
    TailStart(members, depth, fmt);
    c, f, g := KeyThenValue(s, k, PrintString(m.key), Colon(fmt), Print(m.value, depth + 1, fmt),
        TailText(members, depth, fmt));
  }

  lemma TailIs(members: seq<Member>, depth: nat, fmt: bool)
    requires members != []
    ensures TailText(members, depth, fmt)
            == (if |members| > 1 then [COMMA] else []) + ObjectText(members[1..], depth, fmt)
  {
    ConcatAssoc(if |members| > 1 then [COMMA] else [], if fmt then [NEWLINE] else [],
        PrintMembers(members[1..], depth, fmt));
  }

  // Behind a value: the end of the object, or a comma and the next key.
  lemma CommaThenKey(s: seq<byte>, g: nat, w: seq<byte>, t: seq<byte>)
    requires Has(s, g, [COMMA] + (w + t)) && (forall i :: 0 <= i < |w| ==> w[i] <= 32) && t != [] && t[0] > 32
    ensures g < |s| && s[g] == COMMA && Skip(s, g) == g && Skip(s, g + 1) == g + 1 + |w| && Has(s, g + 1 + |w|, t)
  {
    HasSplit(s, g, [COMMA], w + t);
    HasFirst(s, g, [COMMA]);
    SkipOver(s, g, 0);
    SkipIndent(s, g + 1, w, t);
  }

  lemma LastTail(s: seq<byte>, g: nat, m: Member, depth: nat, fmt: bool) returns (k: nat)
    requires g < |s| && Has(s, g, TailText([m], depth, fmt))
    ensures k < |s| && Skip(s, g) == k && s[k] == CLOSE_BRACE && k + 1 == g + |TailText([m], depth, fmt)|
  {
    assert [m][1..] == [];
    TailIs([m], depth, fmt);
    ObjectTextIs([], depth, fmt);
    var w := LeadIn([], depth, fmt);
    assert [] + (w + [CLOSE_BRACE]) == w + [CLOSE_BRACE];
    SkipIndent(s, g, w, [CLOSE_BRACE]);
    k := g + |w|;
  }

  lemma MoreTail(s: seq<byte>, g: nat, members: seq<Member>, depth: nat, fmt: bool) returns (next: nat)
    requires |members| > 1 && g < |s| && Has(s, g, TailText(members, depth, fmt))
    ensures Skip(s, g) == g && s[g] == COMMA && Skip(s, g + 1) == next
            && Has(s, next, MemberText(members[1..], depth, fmt))
    ensures next + |MemberText(members[1..], depth, fmt)| == g + |TailText(members, depth, fmt)|
  {
    hide TailText, ObjectText, MemberText, Skip, PrintMembers;
    TailIs(members, depth, fmt);
    ObjectTextIs(members[1..], depth, fmt);
    var w := LeadIn(members[1..], depth, fmt);
    CommaThenKey(s, g, w, MemberText(members[1..], depth, fmt));
    next := g + 1 + |w|;
  }

  lemma MemberParses(s: seq<byte>, o: nat, pd: nat, a: nat, key: seq<byte>, c: nat, f: nat, v: Json, g: nat)
    requires o <= |s| && Skip(s, o) == a && ParseString(s, a) == Ok(key, c)
    requires c < |s| && Skip(s, c) == c && s[c] == COLON && Skip(s, c + 1) == f && ParseValue(s, f, pd) == Ok(v, g)
    ensures ParseMember(s, o, pd) == Ok(Member(key, v), g)
  {
  }

  lemma MembersStep(s: seq<byte>, pd: nat, m: Member, e: nat, k: nat, rest: seq<Member>, f: nat)
    requires e <= |s| && Skip(s, e) == k && k < |s| && s[k] == COMMA && ParseMembers(s, k + 1, pd) == Ok(rest, f)
    ensures MembersAfter(s, m, e, pd) == Ok([m] + rest, f)
  {
  }

  lemma MembersEnd(s: seq<byte>, pd: nat, m: Member, e: nat, k: nat)
    requires e <= |s| && Skip(s, e) == k && k < |s| && s[k] == CLOSE_BRACE
    ensures MembersAfter(s, m, e, pd) == Ok([m], k + 1)
  {
  }

  lemma MembersJoin(s: seq<byte>, o: nat, pd: nat, m: Member, e: nat, r: Result<seq<Member>>)
    requires o <= |s| && ParseMember(s, o, pd) == Ok(m, e) && MembersAfter(s, m, e, pd) == r
    ensures ParseMembers(s, o, pd) == r
  {
  }

  lemma {:induction false} FirstMember(s: seq<byte>, o: nat, at: nat, members: seq<Member>, depth: nat, fmt: bool,
      pd: nat)
    returns (g: nat)
    requires members != [] && StorableMembers(members, NESTING_LIMIT - pd)
    requires o <= |s| && Skip(s, o) == at && Has(s, at, MemberText(members, depth, fmt))
    ensures ParseMember(s, o, pd) == Ok(members[0], g) && g < |s| && Has(s, g, TailText(members, depth, fmt))
    ensures g + |TailText(members, depth, fmt)| == at + |MemberText(members, depth, fmt)|
    decreases members, 0
  {
    hide MemberText, TailText, Skip, Has, Print, ParseValue, ParseString, ParseMember, PrintString;
    var m := members[0];
    var c, f;
    c, f, g := MemberLayout(s, at, members, depth, fmt);
    StringParses(s, at, m.key);
    ValueParses(s, f, m.value, depth + 1, fmt, pd, g);
    MemberParses(s, o, pd, at, m.key, c, f, m.value, g);
  }

  lemma {:induction false} MembersAfterParse(s: seq<byte>, g: nat, members: seq<Member>, depth: nat, fmt: bool,
      pd: nat, end: nat)
    requires members != [] && StorableMembers(members, NESTING_LIMIT - pd)
    requires g < |s| && Has(s, g, TailText(members, depth, fmt)) && end == g + |TailText(members, depth, fmt)|
    ensures MembersAfter(s, members[0], g, pd) == Ok(members, end)
    decreases members, 1
  {
    hide MembersAfter, ParseMembers, PrintMembers, TailText, MemberText, Skip;
    if |members| > 1 {
      var next := MoreTail(s, g, members, depth, fmt);
      MembersParse(s, g + 1, next, members[1..], depth, fmt, pd, end);
      MembersStep(s, pd, members[0], g, g, members[1..], end);
      assert [members[0]] + members[1..] == members;
    } else {
      assert members == [members[0]];
      var k := LastTail(s, g, members[0], depth, fmt);
      MembersEnd(s, pd, members[0], g, k);
    }
  }

  lemma {:induction false} MembersParse(s: seq<byte>, o: nat, at: nat, members: seq<Member>, depth: nat, fmt: bool,
      pd: nat, end: nat)
    requires members != [] && StorableMembers(members, NESTING_LIMIT - pd)
    requires o <= |s| && Skip(s, o) == at && Has(s, at, MemberText(members, depth, fmt))
    requires end == at + |MemberText(members, depth, fmt)|
    ensures ParseMembers(s, o, pd) == Ok(members, end)
    decreases members, 2
  {
    var g := FirstMember(s, o, at, members, depth, fmt, pd);
    MembersAfterParse(s, g, members, depth, fmt, pd, end);
    MembersJoin(s, o, pd, members[0], g, Ok(members, end));
  }

  // ---------- whole texts ----------

  lemma PrintHasNoBom(j: Json, depth: nat, fmt: bool)
    ensures Print(j, depth, fmt)[0] != 0xEF
  {
    PrintStart(j, depth, fmt);
  }

  // Parsing a printed text starts at its first byte.
  lemma TextStart(j: Json, fmt: bool)
    ensures var s := Print(j, 0, fmt) + [0];
            Has(s, 0, Print(j, 0, fmt)) && Parse(s) == ParseValue(s, 0, 0)
  {
    var t := Print(j, 0, fmt);
    var s := t + [0];
    PrintStart(j, 0, fmt);
    PrintHasNoBom(j, 0, fmt);
    assert s[0] == t[0];
    assert |s| > 4 ==> s[..3][0] == s[0];
    assert SkipBom(s) == 0;
    SkipOver(s, 0, 0);
    assert s[0..|t|] == t;
  }

  // cJSON_Parse reads back what cJSON_Print or cJSON_PrintUnformatted wrote, with its
  // terminating NUL: the same tree.
  lemma PrintParse(j: Json, fmt: bool)
    requires Storable(j, NESTING_LIMIT)
    ensures Parse(Print(j, 0, fmt) + [0]) == Ok(j, |Print(j, 0, fmt)|)
  {
    var t := Print(j, 0, fmt);
    TextStart(j, fmt);
    assert Stops(t + [0], |t|);
    ValueParses(t + [0], 0, j, 0, fmt, 0, |t|);
  }

  // Printing is therefore unambiguous: different trees have different texts.
  lemma PrintInjective(a: Json, b: Json, fmt: bool)
    requires Storable(a, NESTING_LIMIT) && Storable(b, NESTING_LIMIT) && Print(a, 0, fmt) == Print(b, 0, fmt)
    ensures a == b
  {
    PrintParse(a, fmt);
    PrintParse(b, fmt);
  }
}
