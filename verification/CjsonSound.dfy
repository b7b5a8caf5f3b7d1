// What the parser accepts is a text of the grammar, and what it gives is its meaning. The
// one liberty it takes is a code in a string whose four digits are none, which it reads as
// NUL.
module CjsonSound {
  import opened Bytes
  import opened CjsonText
  import opened CjsonUtf8
  import opened CjsonRoundTrip
  import opened CjsonGrammar

  lemma Cut(s: seq<byte>, a: nat, b: nat, c: nat)
    requires a <= b <= c <= |s|
    ensures s[a..b] + s[b..c] == s[a..c]
  {
  }

  lemma SkippedIsBlank(s: seq<byte>, o: nat)
    requires o <= |s|
    ensures o <= Skip(s, o) <= |s| && Blank(s[o..Skip(s, o)])
  {
  }

  // Blanks and the character behind them.
  lemma BlanksThen(s: seq<byte>, o: nat, k: nat)
    requires o <= |s| && Skip(s, o) == k && k < |s|
    ensures o <= k && Blank(s[o..k]) && s[o..k + 1] == s[o..k] + [s[k]]
  {
    SkippedIsBlank(s, o);
  }

  // ---------- strings ----------

  lemma DigitOrNot(b: byte)
    ensures if HexValue(b) >= 0 then Hex(b, HexValue(b)) else b !in LOWER && b !in UPPER
  {
  }

  lemma CodeIs(t: seq<byte>)
    requires |t| == 6 && t[0] == 92 && t[1] == 117
    ensures Escapes(t, Hex4(t[2..6])) || (Hex4(t[2..6]) == 0 && IsLoose(t))
  {
    DigitOrNot(t[2]);
    DigitOrNot(t[3]);
    DigitOrNot(t[4]);
    DigitOrNot(t[5]);
    hide Hex;
    var a, b, c, d := HexValue(t[2]), HexValue(t[3]), HexValue(t[4]), HexValue(t[5]);
    if a >= 0 && b >= 0 && c >= 0 && d >= 0 {
      FourParts(a, b, c, d);
    }
  }

  lemma FourParts(a: nat, b: nat, c: nat, d: nat)
    requires a < 16 && b < 16 && c < 16 && d < 16
    ensures var v := ((a * 16 + b) * 16 + c) * 16 + d;
            v < 65536 && v / 4096 == a && v / 256 % 16 == b && v / 16 % 16 == c && v % 16 == d
  {
    var v := ((a * 16 + b) * 16 + c) * 16 + d;
    assert v / 16 == (a * 16 + b) * 16 + c;
    assert v / 256 == a * 16 + b;
  }

  lemma SurrogatePair(a: nat, b: nat)
    requires 0xD800 <= a <= 0xDBFF && 0xDC00 <= b <= 0xDFFF
    ensures var cp := 0x10000 + (a - 0xD800) * 1024 + (b - 0xDC00);
            && 0x10000 <= cp < 0x110000
            && 0xD800 + (cp - 0x10000) / 1024 == a && 0xDC00 + (cp - 0x10000) % 1024 == b
  {
  }

  // Half a pair, with no code of the other half behind it, is refused.
  lemma HalfPairRefused(t: seq<byte>, a: nat, rest: seq<byte>)
    requires Escapes(t, a) && 0xD800 <= a <= 0xDFFF
    requires a < 0xDC00 && |rest| >= 6 ==> forall b :: 0xDC00 <= b <= 0xDFFF ==> !Escapes(rest[..6], b)
    ensures Unescape(t + rest) == Bad
  {
    hide Hex4, Utf8;
    var s := t + rest;
    EscapeRead(t, a);
    assert s[2..6] == t[2..6];
    if a < 0xDC00 && |rest| >= 6 && rest[0] == 92 && rest[1] == 117 {
      CodeIs(rest[..6]);
      assert s[8..12] == rest[..6][2..6];
    }
  }

  // A C string ends in front of its first NUL.
  lemma {:induction false} StringEnds(t: seq<byte>, rest: seq<byte>)
    requires NulFree(t)
    ensures CString(t) == t && CString(t + [0] + rest) == t
  {
    if t != [] {
      StringEnds(t[1..], rest);
      assert (t + [0] + rest)[1..] == t[1..] + [0] + rest;
    }
  }

  lemma NulIsByte()
    ensures Utf8(0) == [0]
  {
  }

  // A code or a pair of codes at the start of t.
  lemma CodeSound(t: seq<byte>) returns (p: Piece)
    requires |t| >= 2 && t[0] == 92 && t[1] == 117 && Utf16(t).1 > 0
    ensures PieceOk(p, false) && PieceText(p) == t[..Utf16(t).1] && PieceMeans(p) == Utf16(t).0
  {
    hide Hex4, Escapes, Utf8, IsLoose;
    var n := Utf16(t).1;
    var a := Hex4(t[2..6]);
    assert t[..6][2..6] == t[2..6];
    CodeIs(t[..6]);
    if n == 6 {
      if Escapes(t[..6], a) {
        p := Coded(a, t[..6]);
      } else {
        p := Loose(t[..6]);
        NulIsByte();
      }
    } else {
      var b := Hex4(t[8..12]);
      assert t[6..12][2..6] == t[8..12];
      CodeIs(t[6..12]);
      SurrogatePair(a, b);
      var u := t[..12];
      assert u[..6] == t[..6] && u[6..] == t[6..12];
      p := Coded(0x10000 + (a - 0xD800) * 1024 + (b - 0xDC00), u);
    }
  }

  lemma {:induction false} ContentSound(t: seq<byte>) returns (ps: seq<Piece>)
    requires Unescape(t).Good?
    ensures PiecesOk(ps, false) && Content(ps) == t && ContentMeans(ps) == Unescape(t).bytes
    decreases |t|
  {
    if t == [] {
      ps := [];
    } else {
      var p: Piece;
      if t[0] != BACKSLASH {
        p := Plain(t[0]);
        FirstPlain(t);
      } else if t[1] == 117 {
        p := CodeSound(t);
        FirstCode(t);
      } else {
        p := Short(t[1]);
        FirstShort(t);
      }
      var n := |PieceText(p)|;
      var rest := ContentSound(t[n..]);
      ps := [p] + rest;
      PiecesJoin(p, rest);
      assert t == t[..n] + t[n..];
    }
  }

  lemma FirstPlain(t: seq<byte>)
    requires t != [] && t[0] != BACKSLASH && Unescape(t).Good?
    ensures t[..1] == [t[0]] && Unescape(t) == CjsonText.Prepend([t[0]], Unescape(t[1..]))
  {
  }

  lemma FirstCode(t: seq<byte>)
    requires |t| >= 2 && t[0] == BACKSLASH && t[1] == 117 && Unescape(t).Good?
    ensures var (u, n) := Utf16(t);
            0 < n <= |t| && Unescape(t) == CjsonText.Prepend(u, Unescape(t[n..]))
  {
    hide Utf16, Prepend;
  }

  lemma FirstShort(t: seq<byte>)
    requires |t| >= 2 && t[0] == BACKSLASH && t[1] != 117 && Unescape(t).Good?
    ensures var p := Short(t[1]);
            && PieceOk(p, false) && t[..2] == [92, t[1]]
            && Unescape(t) == CjsonText.Prepend(PieceMeans(p), Unescape(t[2..]))
  {
    hide Utf16, Prepend;
  }

  lemma PiecesJoin(p: Piece, rest: seq<Piece>)
    requires PieceOk(p, false) && PiecesOk(rest, false)
    ensures PiecesOk([p] + rest, false) && Content([p] + rest) == PieceText(p) + Content(rest)
    ensures ContentMeans([p] + rest) == PieceMeans(p) + ContentMeans(rest)
  {
    assert ([p] + rest)[1..] == rest;
  }

  lemma StringSound(s: seq<byte>, o: nat) returns (ps: seq<Piece>)
    requires o <= |s| && ParseString(s, o).Ok?
    ensures var r := ParseString(s, o);
            && PiecesOk(ps, false) && s[o..r.next] == StringText(ps) && r.value == CString(ContentMeans(ps))
  {
    hide ParseString, Unescape, CString, Content;
    var e := StringParts(s, o);
    ps := ContentSound(s[o + 1..e]);
    Around(s, o, e);
  }

  lemma Around(s: seq<byte>, o: nat, e: nat)
    requires o < e < |s|
    ensures s[o..e + 1] == [s[o]] + s[o + 1..e] + [s[e]]
  {
  }

  lemma StringParts(s: seq<byte>, o: nat) returns (e: nat)
    requires o <= |s| && ParseString(s, o).Ok?
    ensures var r := ParseString(s, o);
            && o < e < |s| && s[o] == 34 && s[e] == 34 && r.next == e + 1
            && Unescape(s[o + 1..e]).Good? && r.value == CString(Unescape(s[o + 1..e]).bytes)
  {
    hide ScanQuote, Unescape, CString;
    e := ScanQuote(s, o + 1);
  }

  // ---------- numbers ----------

  lemma NumberSound(s: seq<byte>, o: nat) returns (d: Doc)
    requires o < |s| && ParseNumber(s, o).Ok?
    ensures var r := ParseNumber(s, o); DocOk(d, 0, false) && s[o..r.next] == DocText(d) && r.value == Meaning(d)
  {
    hide ParseNumber, Decimal, DigitsValue, AllDigits;
    var minus := s[o] == MINUS;
    var from, e := NumberParts(s, o);
    var t := s[from..e];
    DecimalIsValue(t);
    d := NumberDoc(minus, t);
    assert [] + t == t;
    Cut(s, o, from, e);
    assert minus ==> s[o..from] == [45];
  }

  lemma NumberParts(s: seq<byte>, o: nat) returns (from: nat, e: nat)
    requires o < |s| && ParseNumber(s, o).Ok?
    ensures from == (if s[o] == MINUS then o + 1 else o) && from < e <= |s| && e <= o + 63
    ensures AllDigits(s[from..e])
    ensures var v := Signed(s[o] == MINUS, DigitsValue(s[from..e]));
            Is32Bit(v) && ParseNumber(s, o) == Ok(Number(v), e)
  {
    hide DigitsEnd, DigitsValue;
    from := if s[o] == MINUS then o + 1 else o;
    e := DigitsEnd(s, from, o + 63);
    EndsInTime(s, from, o + 63);
  }

  lemma {:induction false} EndsInTime(s: seq<byte>, o: nat, limit: nat)
    requires o <= |s| && o <= limit
    ensures DigitsEnd(s, o, limit) <= limit
    decreases |s| - o
  {
    if o < |s| && o < limit && IsDigit(s[o]) {
      EndsInTime(s, o + 1, limit);
    }
  }

  // ---------- values ----------

  // The text from a to b is that of d, which means v.
  ghost predicate Says(s: seq<byte>, a: nat, b: nat, d: Doc, v: Json, n: int) {
    a <= b <= |s| && DocOk(d, n, false) && s[a..b] == DocText(d) && Meaning(d) == v
  }

  lemma {:induction false} ValueSound(s: seq<byte>, o: nat, depth: nat) returns (d: Doc)
    requires o <= |s| && ParseValue(s, o, depth).Ok?
    ensures var r := ParseValue(s, o, depth); Says(s, o, r.next, d, r.value, NESTING_LIMIT - depth)
    decreases |s| - o, 0
  {
    hide ParseItems, ParseMembers, ParseString, ParseNumber, Skip;
    if Has(s, o, NULL_TEXT) {
      d := NullDoc;
    } else if Has(s, o, FALSE_TEXT) {
      d := BoolDoc(false);
    } else if Has(s, o, TRUE_TEXT) {
      d := BoolDoc(true);
    } else if s[o] == QUOTE {
      var ps := StringSound(s, o);
      d := StringDoc(ps);
    } else if s[o] == MINUS || IsDigit(s[o]) {
      d := NumberSound(s, o);
    } else if s[o] == OPEN_BRACKET {
      d := ArraySound(s, o, depth);
    } else {
      d := ObjectSound(s, o, depth);
    }
  }

  lemma {:induction false} ArraySound(s: seq<byte>, o: nat, depth: nat) returns (d: Doc)
    requires o < |s| && s[o] == OPEN_BRACKET && ParseValue(s, o, depth).Ok?
    ensures var r := ParseValue(s, o, depth); Says(s, o, r.next, d, r.value, NESTING_LIMIT - depth)
    decreases |s| - o - 1, 5
  {
    hide ParseValue, ParseItems, Skip, Says, NESTING_LIMIT;
    var k := ArrayParts(s, o, depth);
    var w := s[o + 1..k];
    BlanksThen(s, o + 1, k);
    if s[k] == CLOSE_BRACKET {
      EmptyArraySays(s, o, k, NESTING_LIMIT - depth);
      d := ArrayDoc(w, []);
    } else {
      var items := ItemsSound(s, k, depth + 1);
      ArraySays(s, o, k, ParseItems(s, k, depth + 1).next, items, NESTING_LIMIT - depth);
      d := ArrayDoc([], Widened(items, w));
    }
  }

  lemma ArrayParts(s: seq<byte>, o: nat, depth: nat) returns (k: nat)
    requires o < |s| && s[o] == OPEN_BRACKET && ParseValue(s, o, depth).Ok?
    ensures depth < NESTING_LIMIT && k == Skip(s, o + 1) && k < |s|
    ensures var r := ParseValue(s, o, depth);
            if s[k] == CLOSE_BRACKET then r == Ok(Array([]), k + 1)
            else ParseItems(s, k, depth + 1).Ok?
                 && r == Ok(Array(ParseItems(s, k, depth + 1).value), ParseItems(s, k, depth + 1).next)
  {
    hide ParseItems, ParseMembers, ParseString, ParseNumber, Skip;
    NoLiteral(s, o);
    k := Skip(s, o + 1);
  }

  lemma EmptyArraySays(s: seq<byte>, o: nat, k: nat, n: int)
    requires o < k < |s| && s[o] == 91 && s[k] == 93 && Blank(s[o + 1..k]) && n > 0
    ensures Says(s, o, k + 1, ArrayDoc(s[o + 1..k], []), Array([]), n)
  {
    Around(s, o, k);
    ConcatAssoc([s[o]], s[o + 1..k], [s[k]]);
  }

  function Widened(items: seq<Item>, w: seq<byte>): seq<Item>
    requires items != []
  {
    [items[0].(before := w + items[0].before)] + items[1..]
  }

  lemma ArraySays(s: seq<byte>, o: nat, k: nat, e: nat, items: seq<Item>, n: int)
    requires o < k <= e <= |s| && s[o] == 91 && Blank(s[o + 1..k]) && n > 0
    requires items != [] && ItemsOk(items, n - 1, false) && s[k..e] == items[0].before + ItemsText(items)
    ensures Says(s, o, e, ArrayDoc([], Widened(items, s[o + 1..k])), Array(ItemsMean(items)), n)
  {
    hide ItemsText, ItemsMean;
    var w := s[o + 1..k];
    WiderFirst(items, w, n - 1);
    Cut(s, o + 1, k, e);
    assert s[o..e] == [s[o]] + s[o + 1..e];
    ConcatAssoc(w, items[0].before, ItemsText(items));
  }

  // More blanks in front change neither the text behind them nor the meaning.
  lemma WiderFirst(items: seq<Item>, w: seq<byte>, n: int)
    requires items != [] && ItemsOk(items, n, false) && Blank(w)
    ensures var all := Widened(items, w);
            && ItemsOk(all, n, false) && ItemsText(all) == ItemsText(items) && ItemsMean(all) == ItemsMean(items)
  {
    hide DocText, Meaning, DocOk;
    var all := Widened(items, w);
    assert all[1..] == items[1..];
    assert MoreItems(all) == MoreItems(items);
    forall i | 0 <= i < |all| ensures ItemOk(all[i], n, false) {
      assert ItemOk(items[i], n, false);
    }
  }

  lemma {:induction false} ItemsSound(s: seq<byte>, o: nat, depth: nat) returns (items: seq<Item>)
    requires o <= |s| && ParseItems(s, o, depth).Ok?
    ensures var r := ParseItems(s, o, depth);
            && items != [] && ItemsOk(items, NESTING_LIMIT - depth, false)
            && s[o..r.next] == items[0].before + ItemsText(items) && r.value == ItemsMean(items)
    decreases |s| - o, 1
  {
    hide ParseValue, ItemsAfter, Skip, DocText, Meaning, DocOk;
    var k := Skip(s, o);
    SkippedIsBlank(s, o);
    var r := ParseValue(s, k, depth);
    var d := ValueSound(s, k, depth);
    var after, rest := AfterItem(s, r.value, r.next, depth);
    items := [Item(s[o..k], d, after)] + rest;
    ItemsJoined(s[o..k], d, after, rest, NESTING_LIMIT - depth);
    var e := ParseItems(s, o, depth).next;
    Cut(s, k, r.next, e);
    Cut(s, o, k, e);
  }

  lemma ItemsJoined(w: seq<byte>, d: Doc, after: seq<byte>, rest: seq<Item>, n: int)
    requires Blank(w) && Blank(after) && DocOk(d, n, false) && ItemsOk(rest, n, false)
    ensures var items := [Item(w, d, after)] + rest;
            && ItemsOk(items, n, false) && ItemsMean(items) == [Meaning(d)] + ItemsMean(rest)
            && ItemsText(items) == DocText(d) + (after + RestOfItems(rest))
  {
    hide DocText, Meaning, DocOk;
    var items := [Item(w, d, after)] + rest;
    assert items[1..] == rest;
    assert MoreItems(items) == RestOfItems(rest);
    forall i | 0 <= i < |items| ensures ItemOk(items[i], n, false) {
      assert i > 0 ==> ItemOk(rest[i - 1], n, false);
    }
  }

  // What follows a value and its blanks in an array.
  function RestOfItems(rest: seq<Item>): seq<byte> {
    if rest == [] then [93] else [44] + (rest[0].before + ItemsText(rest))
  }

  lemma {:induction false} AfterItem(s: seq<byte>, v: Json, e: nat, depth: nat)
    returns (after: seq<byte>, rest: seq<Item>)
    requires e <= |s| && ItemsAfter(s, v, e, depth).Ok?
    ensures var r := ItemsAfter(s, v, e, depth);
            && Blank(after) && ItemsOk(rest, NESTING_LIMIT - depth, false)
            && s[e..r.next] == after + RestOfItems(rest) && r.value == [v] + ItemsMean(rest)
    decreases |s| - e, 2
  {
    hide ParseItems, Skip, ItemsText;
    var k := Skip(s, e);
    BlanksThen(s, e, k);
    after := s[e..k];
    if s[k] == COMMA {
      rest := ItemsSound(s, k + 1, depth);
      var f := ParseItems(s, k + 1, depth).next;
      Cut(s, e, k + 1, f);
      ConcatAssoc(after, [44], s[k + 1..f]);
    } else {
      rest := [];
    }
  }

  lemma {:induction false} ObjectSound(s: seq<byte>, o: nat, depth: nat) returns (d: Doc)
    requires o < |s| && s[o] == OPEN_BRACE && ParseValue(s, o, depth).Ok?
    ensures var r := ParseValue(s, o, depth); Says(s, o, r.next, d, r.value, NESTING_LIMIT - depth)
    decreases |s| - o - 1, 6
  {
    hide ParseValue, ParseMembers, Skip, Says, NESTING_LIMIT;
    var k := ObjectParts(s, o, depth);
    var w := s[o + 1..k];
    BlanksThen(s, o + 1, k);
    if s[k] == CLOSE_BRACE {
      EmptyObjectSays(s, o, k, NESTING_LIMIT - depth);
      d := ObjectDoc(w, []);
    } else {
      var es := EntriesSound(s, k, depth + 1);
      ObjectSays(s, o, k, ParseMembers(s, k, depth + 1).next, es, NESTING_LIMIT - depth);
      d := ObjectDoc([], WidenedEntries(es, w));
    }
  }

  lemma ObjectParts(s: seq<byte>, o: nat, depth: nat) returns (k: nat)
    requires o < |s| && s[o] == OPEN_BRACE && ParseValue(s, o, depth).Ok?
    ensures depth < NESTING_LIMIT && k == Skip(s, o + 1) && k < |s|
    ensures var r := ParseValue(s, o, depth);
            if s[k] == CLOSE_BRACE then r == Ok(Object([]), k + 1)
            else ParseMembers(s, k, depth + 1).Ok?
                 && r == Ok(Object(ParseMembers(s, k, depth + 1).value), ParseMembers(s, k, depth + 1).next)
  {
    hide ParseItems, ParseMembers, ParseString, ParseNumber, Skip;
    NoLiteral(s, o);
    k := Skip(s, o + 1);
  }

  lemma EmptyObjectSays(s: seq<byte>, o: nat, k: nat, n: int)
    requires o < k < |s| && s[o] == 123 && s[k] == 125 && Blank(s[o + 1..k]) && n > 0
    ensures Says(s, o, k + 1, ObjectDoc(s[o + 1..k], []), Object([]), n)
  {
    Around(s, o, k);
    ConcatAssoc([s[o]], s[o + 1..k], [s[k]]);
  }

  function WidenedEntries(es: seq<Entry>, w: seq<byte>): seq<Entry>
    requires es != []
  {
    [es[0].(before := w + es[0].before)] + es[1..]
  }

  lemma ObjectSays(s: seq<byte>, o: nat, k: nat, e: nat, es: seq<Entry>, n: int)
    requires o < k <= e <= |s| && s[o] == 123 && Blank(s[o + 1..k]) && n > 0
    requires es != [] && EntriesOk(es, n - 1, false) && s[k..e] == es[0].before + EntriesText(es)
    ensures Says(s, o, e, ObjectDoc([], WidenedEntries(es, s[o + 1..k])), Object(EntriesMean(es)), n)
  {
    hide EntriesText, EntriesMean;
    var w := s[o + 1..k];
    WiderEntry(es, w, n - 1);
    Cut(s, o + 1, k, e);
    assert s[o..e] == [s[o]] + s[o + 1..e];
    ConcatAssoc(w, es[0].before, EntriesText(es));
  }

  lemma WiderEntry(es: seq<Entry>, w: seq<byte>, n: int)
    requires es != [] && EntriesOk(es, n, false) && Blank(w)
    ensures var all := WidenedEntries(es, w);
            && EntriesOk(all, n, false) && EntriesText(all) == EntriesText(es) && EntriesMean(all) == EntriesMean(es)
  {
    hide DocText, Meaning, DocOk, StringText, ContentMeans, CString;
    var all := WidenedEntries(es, w);
    assert all[1..] == es[1..];
    assert MoreEntries(all) == MoreEntries(es);
    forall i | 0 <= i < |all| ensures EntryOk(all[i], n, false) {
      assert EntryOk(es[i], n, false);
    }
  }

  lemma {:induction false} EntriesSound(s: seq<byte>, o: nat, depth: nat) returns (es: seq<Entry>)
    requires o <= |s| && ParseMembers(s, o, depth).Ok?
    ensures var r := ParseMembers(s, o, depth);
            && es != [] && EntriesOk(es, NESTING_LIMIT - depth, false)
            && s[o..r.next] == es[0].before + EntriesText(es) && r.value == EntriesMean(es)
    decreases |s| - o, 4
  {
    hide ParseMember, MembersAfter, DocText, Meaning, DocOk, StringText, EntriesText, EntriesMean;
    var r := ParseMember(s, o, depth);
    var x := EntrySound(s, o, depth);
    var after, rest := AfterEntry(s, r.value, r.next, depth);
    es := [x.(after := after)] + rest;
    EntriesJoined(x, after, rest, NESTING_LIMIT - depth);
    Cut(s, o, r.next, ParseMembers(s, o, depth).next);
  }

  // A key, a colon and a value, with the blanks before and between them.
  function EntryFront(x: Entry): seq<byte> {
    x.before + (StringText(x.key) + (x.afterKey + ([58] + (x.beforeValue + DocText(x.value)))))
  }

  lemma EntriesJoined(x: Entry, after: seq<byte>, rest: seq<Entry>, n: int)
    requires EntryOk(x, n, false) && Blank(after) && EntriesOk(rest, n, false)
    ensures var es := [x.(after := after)] + rest;
            && EntriesOk(es, n, false)
            && EntriesMean(es) == [Member(CString(ContentMeans(x.key)), Meaning(x.value))] + EntriesMean(rest)
            && es[0].before + EntriesText(es) == EntryFront(x) + (after + RestOfEntries(rest))
  {
    hide DocText, Meaning, DocOk, StringText, ContentMeans, CString;
    var es := [x.(after := after)] + rest;
    assert es[1..] == rest;
    assert MoreEntries(es) == RestOfEntries(rest);
    forall i | 0 <= i < |es| ensures EntryOk(es[i], n, false) {
      assert i > 0 ==> EntryOk(rest[i - 1], n, false);
    }
    Regroup(x.before, StringText(x.key), x.afterKey, [58], x.beforeValue, DocText(x.value),
            after + RestOfEntries(rest));
  }

  lemma Regroup(a: seq<byte>, b: seq<byte>, c: seq<byte>, d: seq<byte>, e: seq<byte>, f: seq<byte>, g: seq<byte>)
    ensures a + (b + (c + (d + (e + (f + g))))) == (a + (b + (c + (d + (e + f))))) + g
  {
    ConcatAssoc(e, f, g);
    ConcatAssoc(d, e + f, g);
    ConcatAssoc(c, d + (e + f), g);
    ConcatAssoc(b, c + (d + (e + f)), g);
    ConcatAssoc(a, b + (c + (d + (e + f))), g);
  }

  // What follows a value and its blanks in an object.
  function RestOfEntries(rest: seq<Entry>): seq<byte> {
    if rest == [] then [125] else [44] + (rest[0].before + EntriesText(rest))
  }

  lemma {:induction false} EntrySound(s: seq<byte>, o: nat, depth: nat) returns (x: Entry)
    requires o <= |s| && ParseMember(s, o, depth).Ok?
    ensures var r := ParseMember(s, o, depth);
            && EntryOk(x, NESTING_LIMIT - depth, false) && x.after == []
            && s[o..r.next] == EntryFront(x)
            && r.value == Member(CString(ContentMeans(x.key)), Meaning(x.value))
    decreases |s| - o, 1
  {
    hide ParseValue, ParseString, Skip, DocText, Meaning, DocOk, StringText, ContentMeans, CString;
    var a := Skip(s, o);
    SkippedIsBlank(s, o);
    var k := ParseString(s, a);
    var ps := StringSound(s, a);
    var c := Skip(s, k.next);
    BlanksThen(s, k.next, c);
    var f := Skip(s, c + 1);
    SkippedIsBlank(s, c + 1);
    var r := ParseValue(s, f, depth);
    var d := ValueSound(s, f, depth);
    x := Entry(s[o..a], ps, s[k.next..c], s[c + 1..f], d, []);
    SixParts(s, o, a, k.next, c, f, r.next);
  }

  lemma SixParts(s: seq<byte>, a: nat, b: nat, c: nat, d: nat, f: nat, g: nat)
    requires a <= b <= c <= d < f <= g <= |s|
    ensures s[a..g] == s[a..b] + (s[b..c] + (s[c..d] + ([s[d]] + (s[d + 1..f] + s[f..g]))))
  {
    Cut(s, d + 1, f, g);
    assert [s[d]] + s[d + 1..g] == s[d..g];
    Cut(s, c, d, g);
    Cut(s, b, c, g);
    Cut(s, a, b, g);
  }

  lemma {:induction false} AfterEntry(s: seq<byte>, m: Member, e: nat, depth: nat)
    returns (after: seq<byte>, rest: seq<Entry>)
    requires e <= |s| && MembersAfter(s, m, e, depth).Ok?
    ensures var r := MembersAfter(s, m, e, depth);
            && Blank(after) && EntriesOk(rest, NESTING_LIMIT - depth, false)
            && s[e..r.next] == after + RestOfEntries(rest) && r.value == [m] + EntriesMean(rest)
    decreases |s| - e, 5
  {
    hide ParseMembers, Skip, EntriesText;
    var k := Skip(s, e);
    BlanksThen(s, e, k);
    after := s[e..k];
    if s[k] == COMMA {
      rest := EntriesSound(s, k + 1, depth);
      var f := ParseMembers(s, k + 1, depth).next;
      Cut(s, e, k + 1, f);
      ConcatAssoc(after, [44], s[k + 1..f]);
    } else {
      rest := [];
    }
  }

  // ---------- whole texts ----------

  // What is accepted begins with a text of the grammar, no deeper than the limit, that means
  // what is given; codes may have digits that are none.
  lemma AcceptedIsText(s: seq<byte>) returns (bom: bool, w: seq<byte>, d: Doc)
    requires Parse(s).Ok?
    ensures var r := Parse(s);
            && Blank(w) && DocOk(d, 1000, false)
            && r.next <= |s| && s[..r.next] == Front(bom, w) + DocText(d) && r.value == Meaning(d)
  {
    hide ParseValue, Skip, DocText, Meaning, DocOk;
    var m := SkipBom(s);
    var k := Skip(s, m);
    bom := m == 3;
    SkippedIsBlank(s, m);
    w := s[m..k];
    d := ValueSound(s, k, 0);
    var e := ParseValue(s, k, 0).next;
    Cut(s, 0, m, k);
    Cut(s, 0, k, e);
    assert s[..m] == if bom then [0xEF, 0xBB, 0xBF] else [];
  }

  // In a text of four bytes a byte order mark is none, so that it is refused.
  lemma ShortMarkRefused(c: byte)
    ensures Parse([0xEF, 0xBB, 0xBF, c]) == Fail
  {
    var s: seq<byte> := [0xEF, 0xBB, 0xBF, c];
    NoLiteral(s, 0);
    SkipOver(s, 0, 0);
  }
}
