// JSON texts by the grammar of RFC 8259, byte by byte, each with the tree it means; and the
// parser reads every such text as what it means.
module CjsonGrammar {
  import opened Bytes
  import opened CjsonText
  import opened CjsonUtf8
  import opened CjsonRoundTrip

  // ---------- strings ----------

  // What stands in a string: a byte for itself, an escape with a letter, an escaped
  // character and how it is spelt, or a code whose digits are none.
  datatype Piece = Plain(b: byte) | Short(letter: byte) | Coded(cp: nat, spelling: seq<byte>) | Loose(text: seq<byte>)

  predicate PieceOk(p: Piece, strict: bool) {
    match p
    case Plain(b) => b != 92 && (strict ==> b != 34)
    case Short(c) => c in {34, 92, 47, 98, 102, 110, 114, 116}
    case Coded(cp, t) => Spells(t, cp)
    case Loose(t) => !strict && IsLoose(t)
  }

  // A backslash, a u and four bytes that are not all hexadecimal digits.
  predicate IsLoose(t: seq<byte>) {
    && |t| == 6 && t[0] == 92 && t[1] == 117
    && exists k :: 2 <= k < 6 && t[k] !in LOWER && t[k] !in UPPER
  }

  function PieceText(p: Piece): (t: seq<byte>) {
    match p
    case Plain(b) => [b]
    case Short(c) => [92, c]
    case Coded(_, t) => t
    case Loose(t) => t
  }

  function PieceMeans(p: Piece): seq<byte> {
    match p
    case Plain(b) => [b]
    case Short(c) => [if c == 98 then 8 else if c == 102 then 12 else if c == 110 then 10
                      else if c == 114 then 13 else if c == 116 then 9 else c]
    case Coded(cp, _) => if cp < 0x110000 then Utf8(cp) else []
    case Loose(_) => [0]
  }

  ghost predicate PiecesOk(ps: seq<Piece>, strict: bool) {
    forall i :: 0 <= i < |ps| ==> PieceOk(ps[i], strict)
  }

  function Content(ps: seq<Piece>): seq<byte> {
    if ps == [] then [] else PieceText(ps[0]) + Content(ps[1..])
  }

  function ContentMeans(ps: seq<Piece>): seq<byte> {
    if ps == [] then [] else PieceMeans(ps[0]) + ContentMeans(ps[1..])
  }

  function StringText(ps: seq<Piece>): (t: seq<byte>)
    ensures |t| >= 2 && t[0] == 34
  {
    [34] + Content(ps) + [34]
  }

  // ---------- values ----------

  datatype Doc =
    | NullDoc
    | BoolDoc(b: bool)
    | NumberDoc(minus: bool, digits: seq<byte>)
    | StringDoc(pieces: seq<Piece>)
    | ArrayDoc(blanks: seq<byte>, items: seq<Item>)
    | ObjectDoc(blanks: seq<byte>, entries: seq<Entry>)

  // Blanks may stand around every value, key and sign.
  datatype Item = Item(before: seq<byte>, value: Doc, after: seq<byte>)

  datatype Entry = Entry(before: seq<byte>, key: seq<Piece>, afterKey: seq<byte>, beforeValue: seq<byte>, value: Doc,
                         after: seq<byte>)

  predicate Blank(w: seq<byte>) {
    forall i :: 0 <= i < |w| ==> w[i] <= 32
  }

  predicate AllDigits(t: seq<byte>) {
    forall i :: 0 <= i < |t| ==> 48 <= t[i] <= 57
  }

  // The first digit counts the highest power of ten.
  function Decimal(t: seq<byte>): (v: int)
    ensures AllDigits(t) ==> v >= 0
  {
    if t == [] then 0 else (t[0] as int - 48) * Pow10(|t| - 1) + Decimal(t[1..])
  }

  function Signed(minus: bool, v: int): int {
    if minus then -v else v
  }

  // An integer of 32 bits in at most 63 characters, strings and names of good pieces, at
  // most n levels of arrays and objects. JSON itself is strict.
  ghost predicate DocOk(d: Doc, n: int, strict: bool)
    decreases d
  {
    match d
    case NullDoc => true
    case BoolDoc(_) => true
    case NumberDoc(minus, t) =>
      && t != [] && AllDigits(t) && |t| + (if minus then 1 else 0) <= 63
      && -2147483648 <= Signed(minus, Decimal(t)) <= 2147483647
    case StringDoc(ps) => PiecesOk(ps, strict)
    case ArrayDoc(w, items) => n > 0 && Blank(w) && forall i :: 0 <= i < |items| ==> ItemOk(items[i], n - 1, strict)
    case ObjectDoc(w, es) => n > 0 && Blank(w) && forall i :: 0 <= i < |es| ==> EntryOk(es[i], n - 1, strict)
  }

  ghost predicate ItemOk(i: Item, n: int, strict: bool)
    decreases i
  {
    Blank(i.before) && DocOk(i.value, n, strict) && Blank(i.after)
  }

  ghost predicate EntryOk(e: Entry, n: int, strict: bool)
    decreases e
  {
    && Blank(e.before) && PiecesOk(e.key, strict) && Blank(e.afterKey) && Blank(e.beforeValue)
    && DocOk(e.value, n, strict) && Blank(e.after)
  }

  ghost predicate ItemsOk(items: seq<Item>, n: int, strict: bool) {
    forall i :: 0 <= i < |items| ==> ItemOk(items[i], n, strict)
  }

  ghost predicate EntriesOk(es: seq<Entry>, n: int, strict: bool) {
    forall i :: 0 <= i < |es| ==> EntryOk(es[i], n, strict)
  }

  function DocText(d: Doc): seq<byte>
    decreases d, 0
  {
    match d
    case NullDoc => [110, 117, 108, 108]
    case BoolDoc(b) => if b then [116, 114, 117, 101] else [102, 97, 108, 115, 101]
    case NumberDoc(minus, t) => (if minus then [45] else []) + t
    case StringDoc(ps) => StringText(ps)
    case ArrayDoc(w, items) => [91] + (if items == [] then w + [93] else items[0].before + ItemsText(items))
    case ObjectDoc(w, es) => [123] + (if es == [] then w + [125] else es[0].before + EntriesText(es))
  }

  // From the first value to the bracket.
  function ItemsText(items: seq<Item>): seq<byte>
    requires items != []
    decreases items, 2
  {
    DocText(items[0].value) + (items[0].after + MoreItems(items))
  }

  function MoreItems(items: seq<Item>): (t: seq<byte>)
    requires items != []
    ensures t != [] && t[0] == if |items| > 1 then 44 else 93
    decreases items, 1
  {
    if |items| == 1 then [93] else [44] + (items[1].before + ItemsText(items[1..]))
  }

  // From the first key to the brace.
  function EntriesText(es: seq<Entry>): seq<byte>
    requires es != []
    decreases es, 2
  {
    StringText(es[0].key)
    + (es[0].afterKey + ([58] + (es[0].beforeValue + (DocText(es[0].value) + (es[0].after + MoreEntries(es))))))
  }

  function MoreEntries(es: seq<Entry>): (t: seq<byte>)
    requires es != []
    ensures t != [] && t[0] == if |es| > 1 then 44 else 125
    decreases es, 1
  {
    if |es| == 1 then [125] else [44] + (es[1].before + EntriesText(es[1..]))
  }

  // A string is kept as a C string, up to its first NUL.
  function Meaning(d: Doc): Json
    decreases d, 0
  {
    match d
    case NullDoc => Null
    case BoolDoc(b) => Bool(b)
    case NumberDoc(minus, t) => Number(Signed(minus, Decimal(t)))
    case StringDoc(ps) => String(CString(ContentMeans(ps)))
    case ArrayDoc(_, items) => Array(ItemsMean(items))
    case ObjectDoc(_, es) => Object(EntriesMean(es))
  }

  function ItemsMean(items: seq<Item>): seq<Json>
    decreases items, 1
  {
    if items == [] then [] else [Meaning(items[0].value)] + ItemsMean(items[1..])
  }

  function EntriesMean(es: seq<Entry>): seq<Member>
    decreases es, 1
  {
    if es == [] then []
    else [Member(CString(ContentMeans(es[0].key)), Meaning(es[0].value))] + EntriesMean(es[1..])
  }

  // ---------- strings are read ----------

  lemma PieceRead(p: Piece, rest: seq<byte>)
    requires PieceOk(p, true)
    ensures Unescape(PieceText(p) + rest) == CjsonText.Prepend(PieceMeans(p), Unescape(rest))
  {
    match p
    case Plain(b) => assert ([b] + rest)[1..] == rest;
    case Short(_) => ShortEscapes(rest);
    case Coded(cp, t) => var u := EscapedCharacter(t, cp, rest);
  }

  lemma {:induction false} ContentRead(ps: seq<Piece>)
    requires PiecesOk(ps, true)
    ensures Unescape(Content(ps)) == Good(ContentMeans(ps))
  {
    if ps != [] {
      ContentRead(ps[1..]);
      PieceRead(ps[0], Content(ps[1..]));
    }
  }

  lemma HexIsPlain(b: byte, v: nat)
    requires Hex(b, v)
    ensures b != QUOTE && b != BACKSLASH
  {
  }

  lemma EscapeScanned(s: seq<byte>, e: nat, t: seq<byte>, a: nat)
    requires Has(s, e, t) && Escapes(t, a)
    ensures ScanQuote(s, e) == ScanQuote(s, e + 6)
  {
    hide Hex;
    HexIsPlain(t[2], a / 4096);
    HexIsPlain(t[3], a / 256 % 16);
    HexIsPlain(t[4], a / 16 % 16);
    HexIsPlain(t[5], a % 16);
    HasAt(s, e, t, 0);
    HasAt(s, e, t, 2);
    HasAt(s, e, t, 3);
    HasAt(s, e, t, 4);
    HasAt(s, e, t, 5);
    ScanPlain(s, e + 2);
    ScanPlain(s, e + 3);
    ScanPlain(s, e + 4);
    ScanPlain(s, e + 5);
  }

  lemma PieceScanned(s: seq<byte>, e: nat, p: Piece)
    requires Has(s, e, PieceText(p)) && PieceOk(p, true)
    ensures e + |PieceText(p)| <= |s| && ScanQuote(s, e) == ScanQuote(s, e + |PieceText(p)|)
  {
    match p
    case Plain(b) => HasAt(s, e, [b], 0);
    case Short(c) => HasAt(s, e, [92, c], 0);
    case Coded(cp, t) =>
      hide ScanQuote, Has;
      CodeScanned(s, e, t, cp);
  }

  lemma CodeScanned(s: seq<byte>, e: nat, t: seq<byte>, cp: nat)
    requires Has(s, e, t) && Spells(t, cp)
    ensures e + |t| <= |s| && ScanQuote(s, e) == ScanQuote(s, e + |t|)
  {
    hide ScanQuote, Escapes;
    if cp < 0x10000 {
      EscapeStarts(t, cp);
      EscapeScanned(s, e, t, cp);
    } else {
      assert t == t[..6] + t[6..];
      HasSplit(s, e, t[..6], t[6..]);
      EscapeScanned(s, e, t[..6], 0xD800 + (cp - 0x10000) / 1024);
      EscapeScanned(s, e + 6, t[6..], 0xDC00 + (cp - 0x10000) % 1024);
    }
  }

  lemma {:induction false} ContentScanned(s: seq<byte>, e: nat, ps: seq<Piece>)
    requires Has(s, e, Content(ps) + [34]) && PiecesOk(ps, true)
    ensures ScanQuote(s, e) == e + |Content(ps)|
    decreases |ps|
  {
    hide ScanQuote, Has, PieceText, PieceOk;
    if ps == [] {
      assert Content(ps) + [34] == [34];
      HasFirst(s, e, [34]);
      ScanEnds(s, e);
    } else {
      var a, b := PieceText(ps[0]), Content(ps[1..]) + [34];
      assert Content(ps) + [34] == a + b;
      HasSplit(s, e, a, b);
      PieceScanned(s, e, ps[0]);
      ContentScanned(s, e + |a|, ps[1..]);
    }
  }

  lemma StringRead(s: seq<byte>, o: nat, ps: seq<Piece>)
    requires Has(s, o, StringText(ps)) && PiecesOk(ps, true)
    ensures ParseString(s, o) == Ok(CString(ContentMeans(ps)), o + |StringText(ps)|)
  {
    hide ScanQuote, Unescape, CString, Has, ParseString, Content;
    Quoted(s, o, Content(ps));
    HasSplit(s, o + 1, Content(ps), [34]);
    ContentScanned(s, o + 1, ps);
    ContentRead(ps);
    StringIs(s, o, o + 1 + |Content(ps)|, Content(ps), ContentMeans(ps));
  }

  lemma StringIs(s: seq<byte>, o: nat, e: nat, body: seq<byte>, t: seq<byte>)
    requires o < |s| && s[o] == QUOTE && ScanQuote(s, o + 1) == e && e < |s| && s[o + 1..e] == body
    requires Unescape(body) == Good(t)
    ensures ParseString(s, o) == Ok(CString(t), e + 1)
  {
  }

  // What is printed for a byte: the escape with a letter where there is one, the code with
  // lower-case digits for the other control characters, and else the byte itself.
  lemma PrintedCharacter(c: byte) returns (p: Piece)
    ensures PieceOk(p, true) && PieceText(p) == Escape(c) && PieceMeans(p) == [c]
    ensures p.Short? <==> c in {34, 92, 8, 9, 10, 12, 13}
    ensures p.Coded? <==> c < 32 && c !in {8, 9, 10, 12, 13}
    ensures p.Coded? ==> Escape(c)[4] == LOWER[c as int / 16] && Escape(c)[5] == LOWER[c as int % 16]
  {
    if c in {34, 92} {
      p := Short(c);
    } else if c in {8, 9, 10, 12, 13} {
      p := Short(Escape(c)[1]);
    } else if c < 32 {
      p := Coded(c, Escape(c));
      assert (c as int) / 4096 == 0 && (c as int) / 256 % 16 == 0;
    } else {
      p := Plain(c);
    }
  }

  // ---------- numbers are read ----------

  lemma {:induction false} DecimalLast(t: seq<byte>)
    requires AllDigits(t) && t != []
    ensures Decimal(t) == 10 * Decimal(t[..|t| - 1]) + (t[|t| - 1] as int - 48)
    decreases |t|
  {
    var n := |t| - 1;
    if n == 0 {
      assert t[..0] == [] && t[1..] == [];
    } else {
      var u := t[1..];
      DecimalLast(u);
      assert u[..n - 1] == t[..n][1..];
      assert Pow10(n) == 10 * Pow10(n - 1);
      TenTimes(t[0] as int - 48, Pow10(n - 1));
    }
  }

  lemma TenTimes(a: int, p: int)
    ensures a * (10 * p) == 10 * (a * p)
  {
  }

  lemma {:induction false} DecimalIsValue(t: seq<byte>)
    requires AllDigits(t)
    ensures DigitsValue(t) == Decimal(t)
    decreases |t|
  {
    if t != [] {
      DecimalIsValue(t[..|t| - 1]);
      DecimalLast(t);
    }
  }

  lemma NumberRead(s: seq<byte>, o: nat, minus: bool, t: seq<byte>)
    requires DocOk(NumberDoc(minus, t), 0, true) && Has(s, o, DocText(NumberDoc(minus, t)))
    requires Stops(s, o + |DocText(NumberDoc(minus, t))|)
    ensures o < |s| && (s[o] == MINUS || IsDigit(s[o]))
    ensures ParseNumber(s, o) == Ok(Number(Signed(minus, Decimal(t))), o + |DocText(NumberDoc(minus, t))|)
  {
    hide DigitsValue, DigitsEnd, Has, Decimal, ParseNumber;
    var from := if minus then o + 1 else o;
    if minus {
      HasSplit(s, o, [45], t);
      HasFirst(s, o, [45]);
    } else {
      assert [] + t == t;
    }
    DigitsStand(s, from, t, o + 63);
    NumberJoin(s, o, minus, from + |t|, Decimal(t));
  }

  lemma DigitsStand(s: seq<byte>, from: nat, t: seq<byte>, limit: nat)
    requires Has(s, from, t) && AllDigits(t) && t != [] && from + |t| <= limit && Stops(s, from + |t|)
    ensures var e := from + |t|;
            && e <= |s| && IsDigit(s[from]) && DigitsEnd(s, from, limit) == e
            && AllDigits(s[from..e]) && DigitsValue(s[from..e]) == Decimal(t)
  {
    hide DigitsValue, DigitsEnd, Decimal;
    var e := from + |t|;
    DecimalIsValue(t);
    HasFirst(s, from, t);
    forall i | from <= i < e ensures IsDigit(s[i]) {
      HasAt(s, from, t, i - from);
    }
    DigitsEndAt(s, from, e, limit);
    assert s[from..e] == t;
  }

  lemma NumberJoin(s: seq<byte>, o: nat, minus: bool, e: nat, v: nat)
    requires o < e <= |s| && Is32Bit(Signed(minus, v)) && (minus <==> s[o] == MINUS) && Stops(s, e)
    requires var from := if minus then o + 1 else o;
             from < e && DigitsEnd(s, from, o + 63) == e && DigitsValue(s[from..e]) == v
    ensures ParseNumber(s, o) == Ok(Number(Signed(minus, v)), e)
  {
    hide DigitsEnd, DigitsValue;
  }

  // ---------- values are read ----------

  // What may stand behind a value in a text: a blank, a comma, a bracket or a brace.
  predicate Sep(t: seq<byte>) {
    t != [] && (t[0] <= 32 || t[0] in {44, 93, 125})
  }

  lemma SepStops(s: seq<byte>, o: nat, t: seq<byte>)
    requires Has(s, o, t) && Sep(t)
    ensures o < |s| && Stops(s, o)
  {
    HasFirst(s, o, t);
  }

  lemma TextStarts(d: Doc, n: int)
    requires DocOk(d, n, true)
    ensures var t := DocText(d); t != [] && t[0] > 32 && t[0] !in {44, 93, 125, 0xEF}
  {
  }

  // Blanks w and then t, which starts with none: t is found.
  lemma BlanksSkipped(s: seq<byte>, o: nat, w: seq<byte>, t: seq<byte>)
    requires Has(s, o, w + t) && Blank(w) && t != [] && t[0] > 32
    ensures Skip(s, o) == o + |w| && Has(s, o + |w|, t) && o + |w| < |s| && s[o + |w|] == t[0]
    ensures Skip(s, o + |w|) == o + |w|
  {
    SkipIndent(s, o, w, t);
    SkipOver(s, o + |w|, 0);
  }

  // A value, blanks and what follows: the value is found, it ends there, and the blanks are
  // skipped.
  lemma ValueThenMore(s: seq<byte>, k: nat, v: seq<byte>, w: seq<byte>, more: seq<byte>) returns (e: nat)
    requires Has(s, k, v + (w + more)) && Blank(w) && more != [] && more[0] in {44, 93, 125}
    ensures Has(s, k, v) && e == k + |v| && Stops(s, e) && e <= |s|
    ensures Skip(s, e) == e + |w| && Has(s, e + |w|, more) && e + |w| < |s| && s[e + |w|] == more[0]
  {
    hide Skip, Has;
    HasSplit(s, k, v, w + more);
    e := k + |v|;
    SepStops(s, e, w + more);
    BlanksSkipped(s, e, w, more);
  }

  lemma {:induction false} DocRead(s: seq<byte>, o: nat, d: Doc, pd: nat, n: int)
    requires DocOk(d, n, true) && pd + n <= NESTING_LIMIT
    requires Has(s, o, DocText(d)) && Stops(s, o + |DocText(d)|)
    ensures o <= |s| && ParseValue(s, o, pd) == Ok(Meaning(d), o + |DocText(d)|)
    decreases d, 3
  {
    match d
    case NullDoc => LiteralParses(s, o, Null, 0, false, pd);
    case BoolDoc(b) => LiteralParses(s, o, Bool(b), 0, false, pd);
    case NumberDoc(minus, t) =>
      NumberRead(s, o, minus, t);
      hide ParseNumber, Decimal, Has;
      NoLiteral(s, o);
    case StringDoc(ps) =>
      StringRead(s, o, ps);
      hide ParseString, Has;
      HasFirst(s, o, StringText(ps));
      NoLiteral(s, o);
    case ArrayDoc(w, items) => ArrayRead(s, o, w, items, pd, n);
    case ObjectDoc(w, es) => ObjectRead(s, o, w, es, pd, n);
  }

  lemma {:induction false} ArrayRead(s: seq<byte>, o: nat, w: seq<byte>, items: seq<Item>, pd: nat, n: int)
    requires DocOk(ArrayDoc(w, items), n, true) && pd + n <= NESTING_LIMIT && Has(s, o, DocText(ArrayDoc(w, items)))
    ensures o <= |s|
    ensures ParseValue(s, o, pd) == Ok(Array(ItemsMean(items)), o + |DocText(ArrayDoc(w, items))|)
    decreases items, 3
  {
    hide ParseValue, ParseItems, Skip, Has, ItemsMean, ItemsText;
    if items == [] {
      HasSplit(s, o, [91], w + [93]);
      HasFirst(s, o, [91]);
      BlanksSkipped(s, o + 1, w, [93]);
      ArrayJoin(s, o, o + 1 + |w|, [], pd, o + 1 + |w| + 1);
      ItemsMeanNone();
    } else {
      var b := items[0].before;
      HasSplit(s, o, [91], b + ItemsText(items));
      HasFirst(s, o, [91]);
      assert ItemOk(items[0], n - 1, true);
      ItemsStartWell(items, n - 1);
      BlanksSkipped(s, o + 1, b, ItemsText(items));
      var k := o + 1 + |b|;
      ItemsRead(s, k, k, items, pd + 1, n - 1);
      ItemsMeanSome(items);
      ArrayJoin(s, o, k, ItemsMean(items), pd, k + |ItemsText(items)|);
    }
  }

  lemma ItemsMeanNone()
    ensures ItemsMean([]) == []
  {
  }

  lemma EntriesMeanNone()
    ensures EntriesMean([]) == []
  {
  }

  lemma ItemsMeanSome(items: seq<Item>)
    ensures items != [] <==> ItemsMean(items) != []
  {
  }

  lemma ItemsStartWell(items: seq<Item>, n: int)
    requires items != [] && ItemsOk(items, n, true)
    ensures var t := ItemsText(items); t != [] && t[0] > 32 && t[0] != 93
  {
    hide DocText;
    assert ItemOk(items[0], n, true);
    TextStarts(items[0].value, n);
  }

  lemma ArrayJoin(s: seq<byte>, o: nat, k: nat, items: seq<Json>, pd: nat, e: nat)
    requires o < |s| && s[o] == OPEN_BRACKET && pd < NESTING_LIMIT && Skip(s, o + 1) == k && k < |s|
    requires if items == [] then s[k] == CLOSE_BRACKET && e == k + 1
             else s[k] != CLOSE_BRACKET && ParseItems(s, k, pd + 1) == Ok(items, e)
    ensures ParseValue(s, o, pd) == Ok(Array(items), e)
  {
    NoLiteral(s, o);
  }

  lemma {:induction false} ItemsRead(s: seq<byte>, o: nat, k: nat, items: seq<Item>, pd: nat, n: int)
    requires items != [] && ItemsOk(items, n, true) && pd + n <= NESTING_LIMIT
    requires o <= |s| && Skip(s, o) == k && Has(s, k, ItemsText(items))
    ensures ParseItems(s, o, pd) == Ok(ItemsMean(items), k + |ItemsText(items)|)
    decreases items, 2
  {
    hide ParseValue, ParseItems, ItemsAfter, Skip, Has, ItemsMean, DocText, Meaning;
    var i := items[0];
    assert ItemOk(i, n, true);
    var e := ValueThenMore(s, k, DocText(i.value), i.after, MoreItems(items));
    DocRead(s, k, i.value, pd, n);
    ItemsAfterRead(s, e, items, pd, n);
    ItemsJoin(s, o, k, pd, Meaning(i.value), e, Ok(ItemsMean(items), k + |ItemsText(items)|));
  }

  lemma {:induction false} ItemsAfterRead(s: seq<byte>, e: nat, items: seq<Item>, pd: nat, n: int)
    requires items != [] && ItemsOk(items, n, true) && pd + n <= NESTING_LIMIT && e <= |s|
    requires var k := e + |items[0].after|;
             Skip(s, e) == k && k < |s| && Has(s, k, MoreItems(items)) && s[k] == MoreItems(items)[0]
    ensures ItemsAfter(s, Meaning(items[0].value), e, pd)
            == Ok(ItemsMean(items), e + |items[0].after| + |MoreItems(items)|)
    decreases items, 1
  {
    hide ParseItems, ItemsAfter, Skip, Has, Meaning, ItemsText;
    var k := e + |items[0].after|;
    var v := Meaning(items[0].value);
    ItemsMeanSplit(items);
    if |items| == 1 {
      ItemsEnd(s, pd, v, e, k);
    } else {
      var b, rest := items[1].before, items[1..];
      HasSplit(s, k, [44], b + ItemsText(rest));
      assert ItemOk(items[1], n, true);
      ItemsStartWell(rest, n);
      BlanksSkipped(s, k + 1, b, ItemsText(rest));
      ItemsRead(s, k + 1, k + 1 + |b|, rest, pd, n);
      ItemsStep(s, pd, v, e, k, ItemsMean(rest), k + 1 + |b| + |ItemsText(rest)|);
    }
  }

  lemma ItemsMeanSplit(items: seq<Item>)
    requires items != []
    ensures ItemsMean(items) == [Meaning(items[0].value)] + ItemsMean(items[1..])
    ensures |items| == 1 ==> ItemsMean(items) == [Meaning(items[0].value)]
  {
    hide Meaning;
    if |items| == 1 {
      assert items[1..] == [];
    }
  }

  lemma {:induction false} ObjectRead(s: seq<byte>, o: nat, w: seq<byte>, es: seq<Entry>, pd: nat, n: int)
    requires DocOk(ObjectDoc(w, es), n, true) && pd + n <= NESTING_LIMIT && Has(s, o, DocText(ObjectDoc(w, es)))
    ensures o <= |s|
    ensures ParseValue(s, o, pd) == Ok(Object(EntriesMean(es)), o + |DocText(ObjectDoc(w, es))|)
    decreases es, 5
  {
    hide ParseValue, ParseMembers, Skip, Has, EntriesMean, EntriesText, EntryOk;
    if es == [] {
      HasSplit(s, o, [123], w + [125]);
      HasFirst(s, o, [123]);
      BlanksSkipped(s, o + 1, w, [125]);
      ObjectJoin(s, o, o + 1 + |w|, [], pd, o + 1 + |w| + 1);
      EntriesMeanNone();
    } else {
      SomeEntriesRead(s, o, es, pd, n);
    }
  }

  lemma {:induction false} SomeEntriesRead(s: seq<byte>, o: nat, es: seq<Entry>, pd: nat, n: int)
    requires es != [] && n > 0 && EntriesOk(es, n - 1, true) && pd + n <= NESTING_LIMIT
    requires Has(s, o, [123] + (es[0].before + EntriesText(es)))
    ensures o <= |s|
    ensures ParseValue(s, o, pd) == Ok(Object(EntriesMean(es)), o + 1 + |es[0].before| + |EntriesText(es)|)
    decreases es, 4
  {
    hide ParseValue, ParseMembers, Skip, Has, EntriesMean, EntriesText;
    var b := es[0].before;
    HasSplit(s, o, [123], b + EntriesText(es));
    HasFirst(s, o, [123]);
    assert EntryOk(es[0], n - 1, true);
    EntriesStart(es);
    BlanksSkipped(s, o + 1, b, EntriesText(es));
    var k := o + 1 + |b|;
    EntriesRead(s, k, k, es, pd + 1, n - 1);
    EntriesMeanSplit(es, n - 1);
    ObjectJoin(s, o, k, EntriesMean(es), pd, k + |EntriesText(es)|);
  }

  lemma EntriesStart(es: seq<Entry>)
    requires es != []
    ensures EntriesText(es) != [] && EntriesText(es)[0] == 34
  {
  }

  lemma EntriesMeanSplit(es: seq<Entry>, n: int)
    requires es != [] && EntriesOk(es, n, true)
    ensures EntryOk(es[0], n, true)
    ensures EntriesMean(es)
            == [Member(CString(ContentMeans(es[0].key)), Meaning(es[0].value))] + EntriesMean(es[1..])
    ensures |es| == 1 ==> EntriesMean(es) == [Member(CString(ContentMeans(es[0].key)), Meaning(es[0].value))]
  {
    hide Meaning, CString, ContentMeans;
    assert EntryOk(es[0], n, true);
    if |es| == 1 {
      assert es[1..] == [];
    }
  }

  lemma ObjectJoin(s: seq<byte>, o: nat, k: nat, members: seq<Member>, pd: nat, e: nat)
    requires o < |s| && s[o] == OPEN_BRACE && pd < NESTING_LIMIT && Skip(s, o + 1) == k && k < |s|
    requires if members == [] then s[k] == CLOSE_BRACE && e == k + 1
             else s[k] != CLOSE_BRACE && ParseMembers(s, k, pd + 1) == Ok(members, e)
    ensures ParseValue(s, o, pd) == Ok(Object(members), e)
  {
    NoLiteral(s, o);
  }

  lemma {:induction false} EntriesRead(s: seq<byte>, o: nat, k: nat, es: seq<Entry>, pd: nat, n: int)
    requires es != [] && EntriesOk(es, n, true) && pd + n <= NESTING_LIMIT
    requires o <= |s| && Skip(s, o) == k && Has(s, k, EntriesText(es))
    ensures ParseMembers(s, o, pd) == Ok(EntriesMean(es), k + |EntriesText(es)|)
    decreases es, 3
  {
    hide ParseMembers, ParseMember, MembersAfter, Skip, Has, EntriesMean, EntriesText, Meaning;
    EntriesMeanSplit(es, n);
    var g := EntryRead(s, o, k, es, pd, n);
    EntriesAfterRead(s, g, es, pd, n);
    MembersJoin(s, o, pd, Member(CString(ContentMeans(es[0].key)), Meaning(es[0].value)), g,
                Ok(EntriesMean(es), k + |EntriesText(es)|));
  }

  // The key, the colon and the value of the first entry.
  lemma {:induction false} EntryRead(s: seq<byte>, o: nat, k: nat, es: seq<Entry>, pd: nat, n: int) returns (g: nat)
    requires es != [] && EntriesOk(es, n, true) && EntryOk(es[0], n, true) && pd + n <= NESTING_LIMIT
    requires o <= |s| && Skip(s, o) == k && Has(s, k, EntriesText(es))
    ensures g <= |s|
    ensures ParseMember(s, o, pd) == Ok(Member(CString(ContentMeans(es[0].key)), Meaning(es[0].value)), g)
    ensures var m := g + |es[0].after|;
            && Skip(s, g) == m && m < |s| && Has(s, m, MoreEntries(es)) && s[m] == MoreEntries(es)[0]
            && m + |MoreEntries(es)| == k + |EntriesText(es)|
    decreases es, 2
  {
    hide ParseValue, ParseString, ParseMember, Skip, Has, DocText, Meaning, StringText, CString, ContentMeans;
    var x := es[0];
    var t := x.after + MoreEntries(es);
    TextStarts(x.value, n);
    var c, f := KeyColonValue(s, k, StringText(x.key), x.afterKey, x.beforeValue, DocText(x.value) + t);
    StringRead(s, k, x.key);
    g := ValueThenMore(s, f, DocText(x.value), x.after, MoreEntries(es));
    DocRead(s, f, x.value, pd, n);
    MemberRead(s, o, pd, k, CString(ContentMeans(x.key)), k + |StringText(x.key)|, c, f, Meaning(x.value), g);
  }

  // A key, blanks, a colon, blanks and what starts with a value.
  lemma KeyColonValue(s: seq<byte>, k: nat, key: seq<byte>, w1: seq<byte>, w2: seq<byte>, v: seq<byte>)
    returns (c: nat, f: nat)
    requires Has(s, k, key + (w1 + ([58] + (w2 + v)))) && Blank(w1) && Blank(w2) && v != [] && v[0] > 32
    ensures Has(s, k, key) && k + |key| <= |s|
    ensures Skip(s, k + |key|) == c && c < |s| && s[c] == COLON && Skip(s, c + 1) == f
    ensures Has(s, f, v) && f == k + |key| + |w1| + 1 + |w2|
  {
    hide Skip, Has;
    HasSplit(s, k, key, w1 + ([58] + (w2 + v)));
    BlanksSkipped(s, k + |key|, w1, [58] + (w2 + v));
    c := k + |key| + |w1|;
    HasSplit(s, c, [58], w2 + v);
    BlanksSkipped(s, c + 1, w2, v);
    f := c + 1 + |w2|;
  }

  lemma MemberRead(s: seq<byte>, o: nat, pd: nat, a: nat, key: seq<byte>, b: nat, c: nat, f: nat, v: Json, g: nat)
    requires o <= |s| && Skip(s, o) == a && ParseString(s, a) == Ok(key, b)
    requires Skip(s, b) == c && c < |s| && s[c] == COLON && Skip(s, c + 1) == f && ParseValue(s, f, pd) == Ok(v, g)
    ensures ParseMember(s, o, pd) == Ok(Member(key, v), g)
  {
  }

  lemma {:induction false} EntriesAfterRead(s: seq<byte>, g: nat, es: seq<Entry>, pd: nat, n: int)
    requires es != [] && EntriesOk(es, n, true) && EntryOk(es[0], n, true) && pd + n <= NESTING_LIMIT && g <= |s|
    requires var m := g + |es[0].after|;
             Skip(s, g) == m && m < |s| && Has(s, m, MoreEntries(es)) && s[m] == MoreEntries(es)[0]
    ensures MembersAfter(s, Member(CString(ContentMeans(es[0].key)), Meaning(es[0].value)), g, pd)
            == Ok(EntriesMean(es), g + |es[0].after| + |MoreEntries(es)|)
    decreases es, 1
  {
    hide ParseMembers, MembersAfter, Skip, Has, Meaning, EntriesText, EntriesMean, CString, ContentMeans;
    var m := g + |es[0].after|;
    var x := Member(CString(ContentMeans(es[0].key)), Meaning(es[0].value));
    EntriesMeanSplit(es, n);
    if |es| == 1 {
      MembersEnd(s, pd, x, g, m);
    } else {
      var b, rest := es[1].before, es[1..];
      HasSplit(s, m, [44], b + EntriesText(rest));
      assert EntryOk(es[1], n, true);
      EntriesStart(rest);
      BlanksSkipped(s, m + 1, b, EntriesText(rest));
      EntriesRead(s, m + 1, m + 1 + |b|, rest, pd, n);
      MembersStep(s, pd, x, g, m, EntriesMean(rest), m + 1 + |b| + |EntriesText(rest)|);
    }
  }

  // ---------- whole texts ----------

  lemma ParsedAt(s: seq<byte>, m: nat, w: seq<byte>, d: Doc)
    requires DocOk(d, NESTING_LIMIT, true) && Blank(w) && SkipBom(s) == m && Has(s, m, w + DocText(d))
    requires Stops(s, m + |w| + |DocText(d)|)
    ensures Parse(s) == Ok(Meaning(d), m + |w| + |DocText(d)|)
  {
    hide DocText, Meaning, ParseValue, DocOk, Has, SkipBom, Skip;
    TextStarts(d, NESTING_LIMIT);
    BlanksSkipped(s, m, w, DocText(d));
    DocRead(s, m + |w|, d, 0, NESTING_LIMIT);
  }

  // What comes before the text: blanks, and a byte order mark in front of them or not.
  function Front(bom: bool, w: seq<byte>): seq<byte> {
    (if bom then [0xEF, 0xBB, 0xBF] else []) + w
  }

  // Every text of the grammar is read as the tree it means: behind blanks and, in a text
  // longer than four bytes, a byte order mark; whatever follows is left alone.
  lemma TextIsRead(bom: bool, w: seq<byte>, d: Doc, rest: seq<byte>)
    requires DocOk(d, 1000, true) && Blank(w)
    requires rest != [] ==> !(48 <= rest[0] <= 57) && rest[0] != 46 && rest[0] != 69 && rest[0] != 101
    requires bom ==> 3 + |w| + |DocText(d)| + |rest| > 4
    ensures Parse(Front(bom, w) + DocText(d) + rest) == Ok(Meaning(d), |Front(bom, w)| + |DocText(d)|)
  {
    hide DocText, Meaning, Parse, DocOk, Has, SkipBom, Blank;
    var t := DocText(d);
    var m := if bom then 3 else 0;
    TextStarts(d, NESTING_LIMIT);
    FirstIs(w, t);
    Whole(bom, w, t, rest);
    ParsedAt(Front(bom, w) + t + rest, m, w, d);
  }

  lemma Whole(bom: bool, w: seq<byte>, t: seq<byte>, rest: seq<byte>)
    requires w + t != [] && (bom ==> 3 + |w| + |t| + |rest| > 4) && (!bom ==> (w + t)[0] != 0xEF)
    ensures var s, m := Front(bom, w) + t + rest, if bom then 3 else 0;
            && SkipBom(s) == m && Has(s, m, w + t) && |Front(bom, w)| == m + |w|
            && (rest == [] ==> m + |w| + |t| == |s|) && (rest != [] ==> s[m + |w| + |t|] == rest[0])
  {
    hide SkipBom, Has;
    var mark: seq<byte> := if bom then [0xEF, 0xBB, 0xBF] else [];
    StandsAt(mark, w + t, rest);
    MarkSkipped(bom, w + t + rest);
    assert mark + (w + t) + rest == Front(bom, w) + t + rest;
    assert mark + (w + t + rest) == Front(bom, w) + t + rest;
  }

  lemma FirstIs(w: seq<byte>, t: seq<byte>)
    requires Blank(w) && t != [] && t[0] != 0xEF
    ensures w + t != [] && (w + t)[0] != 0xEF
  {
    if w != [] {
      assert (w + t)[0] == w[0];
    }
  }

  lemma StandsAt(a: seq<byte>, b: seq<byte>, c: seq<byte>)
    ensures Has(a + b + c, |a|, b)
  {
    assert (a + b + c)[|a|..|a| + |b|] == b;
  }

  lemma MarkSkipped(bom: bool, u: seq<byte>)
    requires u != [] && if bom then |u| > 1 else u[0] != 0xEF
    ensures var mark: seq<byte> := if bom then [0xEF, 0xBB, 0xBF] else [];
            SkipBom(mark + u) == |mark|
  {
    var mark: seq<byte> := if bom then [0xEF, 0xBB, 0xBF] else [];
    var s := mark + u;
    if bom {
      assert s[..3] == mark;
    } else if |s| > 4 {
      assert s[..3][0] == s[0] == u[0];
    }
  }
}
