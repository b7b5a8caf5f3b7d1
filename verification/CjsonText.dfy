// JSON text: what cJSON prints for a tree, and what its parser reads.
module CjsonText {
  import opened Bytes

  datatype Json =
    | Null
    | Bool(b: bool)
    | Number(n: int)
    | String(text: seq<byte>)
    | Array(items: seq<Json>)
    | Object(members: seq<Member>)

  datatype Member = Member(key: seq<byte>, value: Json)

  const NESTING_LIMIT := 1000

  const QUOTE: byte := 34
  const BACKSLASH: byte := 92
  const COMMA: byte := 44
  const COLON: byte := 58
  const OPEN_BRACKET: byte := 91
  const CLOSE_BRACKET: byte := 93
  const OPEN_BRACE: byte := 123
  const CLOSE_BRACE: byte := 125
  const MINUS: byte := 45
  const TAB: byte := 9
  const NEWLINE: byte := 10
  const SPACE: byte := 32
  const ZERO: byte := 48

  const NULL_TEXT: seq<byte> := [110, 117, 108, 108]
  const TRUE_TEXT: seq<byte> := [116, 114, 117, 101]
  const FALSE_TEXT: seq<byte> := [102, 97, 108, 115, 101]

  // ---------- printing ----------

  // "%d" of a non-negative number.
  function Digits(n: nat): (s: seq<byte>)
    ensures |s| > 0 && forall i :: 0 <= i < |s| ==> IsDigit(s[i])
  {
    if n < 10 then [ZERO + n] else Digits(n / 10) + [ZERO + n % 10]
  }

  predicate IsDigit(b: byte) {
    48 <= b <= 57
  }

  function PrintInt(n: int): seq<byte> {
    if n < 0 then [MINUS] + Digits(-n) else Digits(n)
  }

  function HexDigit(d: nat): byte
    requires d < 16
  {
    if d < 10 then 48 + d else 87 + d
  }

  // One character of print_string_ptr.
  function Escape(c: byte): (s: seq<byte>)
    ensures |s| > 0
  {
    if c == QUOTE || c == BACKSLASH then [BACKSLASH, c]
    else if c == 8 then [BACKSLASH, 98]
    else if c == 12 then [BACKSLASH, 102]
    else if c == 10 then [BACKSLASH, 110]
    else if c == 13 then [BACKSLASH, 114]
    else if c == 9 then [BACKSLASH, 116]
    else if c < 32 then [BACKSLASH, 117, 48, 48, HexDigit(c / 16), HexDigit(c % 16)]
    else [c]
  }

  function EscapeAll(t: seq<byte>): seq<byte> {
    if t == [] then [] else Escape(t[0]) + EscapeAll(t[1..])
  }

  function PrintString(t: seq<byte>): seq<byte> {
    [QUOTE] + EscapeAll(t) + [QUOTE]
  }

  function Tabs(n: nat): (s: seq<byte>)
    ensures |s| == n && forall i :: 0 <= i < n ==> s[i] == TAB
  {
    if n == 0 then [] else [TAB] + Tabs(n - 1)
  }

  // print_value at nesting depth depth.
  function Print(j: Json, depth: nat, fmt: bool): seq<byte>
    decreases j, 1
  {
    match j
    case Null => NULL_TEXT
    case Bool(b) => if b then TRUE_TEXT else FALSE_TEXT
    case Number(n) => PrintInt(n)
    case String(t) => PrintString(t)
    case Array(items) => [OPEN_BRACKET] + PrintItems(items, depth, fmt)
    case Object(members) => [OPEN_BRACE] + (if fmt then [NEWLINE] else []) + PrintMembers(members, depth, fmt)
  }

  // The rest of print_array from an element on.
  function PrintItems(items: seq<Json>, depth: nat, fmt: bool): seq<byte>
    decreases items, 0
  {
    if items == [] then [CLOSE_BRACKET]
    else Print(items[0], depth + 1, fmt) + Separator(|items| > 1, fmt) + PrintItems(items[1..], depth, fmt)
  }

  function Separator(more: bool, fmt: bool): seq<byte> {
    if more then (if fmt then [COMMA, SPACE] else [COMMA]) else []
  }

  // The rest of print_object from a member on.
  function PrintMembers(members: seq<Member>, depth: nat, fmt: bool): seq<byte>
    decreases members, 0
  {
    if members == [] then (if fmt then Tabs(depth) else []) + [CLOSE_BRACE]
    else
      (if fmt then Tabs(depth + 1) else []) + PrintString(members[0].key) + Colon(fmt)
      + Print(members[0].value, depth + 1, fmt) + LineEnd(|members| > 1, fmt) + PrintMembers(members[1..], depth, fmt)
  }

  function Colon(fmt: bool): seq<byte> {
    if fmt then [COLON, TAB] else [COLON]
  }

  function LineEnd(more: bool, fmt: bool): seq<byte> {
    (if more then [COMMA] else []) + (if fmt then [NEWLINE] else [])
  }

  ghost predicate NulFree(t: seq<byte>) {
    forall i :: 0 <= i < |t| ==> t[i] != 0
  }

  // The trees the printer is meant for: 32-bit integers, NUL-free strings, at most n
  // levels of arrays and objects.
  ghost predicate Storable(j: Json, n: int)
    decreases j
  {
    match j
    case Null => true
    case Bool(_) => true
    case Number(v) => Is32Bit(v)
    case String(t) => NulFree(t)
    case Array(items) => n > 0 && forall i :: 0 <= i < |items| ==> Storable(items[i], n - 1)
    case Object(members) =>
      && n > 0
      && forall i :: 0 <= i < |members| ==> NulFree(members[i].key) && Storable(members[i].value, n - 1)
  }

  ghost predicate StorableItems(items: seq<Json>, n: int) {
    forall i :: 0 <= i < |items| ==> Storable(items[i], n)
  }

  ghost predicate StorableMembers(members: seq<Member>, n: int) {
    forall i :: 0 <= i < |members| ==> NulFree(members[i].key) && Storable(members[i].value, n)
  }

  // ---------- parsing ----------

  // Unmodelled stands for numbers that are not 32-bit integers.
  datatype Result<T> = Ok(value: T, next: nat) | Fail | Unmodelled

  // buffer_skip_whitespace: at the end of the buffer it steps back by one.
  function SkipBlanks(s: seq<byte>, o: nat): (r: nat)
    requires o <= |s|
    ensures o <= r <= |s| && forall i :: o <= i < r ==> s[i] <= 32
    ensures r < |s| ==> s[r] > 32
    decreases |s| - o
  {
    if o < |s| && s[o] <= 32 then SkipBlanks(s, o + 1) else o
  }

  function Skip(s: seq<byte>, o: nat): (r: nat)
    requires o <= |s|
    ensures o <= r <= |s| && (o < |s| ==> r < |s|)
  {
    if o == |s| then o else
      var r := SkipBlanks(s, o);
      if r == |s| then r - 1 else r
  }

  predicate Has(s: seq<byte>, o: nat, t: seq<byte>) {
    o + |t| <= |s| && s[o..o + |t|] == t
  }

  lemma HasFirst(s: seq<byte>, o: nat, a: seq<byte>)
    requires Has(s, o, a) && a != []
    ensures o < |s| && s[o] == a[0]
  {
    assert s[o..o + |a|][0] == a[0];
  }

  // The literals are recognised by their first letter.
  lemma NoLiteral(s: seq<byte>, o: nat)
    requires o < |s| && s[o] != 110 && s[o] != 116 && s[o] != 102
    ensures !Has(s, o, NULL_TEXT) && !Has(s, o, TRUE_TEXT) && !Has(s, o, FALSE_TEXT)
  {
    if Has(s, o, NULL_TEXT) {
      HasFirst(s, o, NULL_TEXT);
    }
    if Has(s, o, TRUE_TEXT) {
      HasFirst(s, o, TRUE_TEXT);
    }
    if Has(s, o, FALSE_TEXT) {
      HasFirst(s, o, FALSE_TEXT);
    }
  }

  // ---------- strings ----------

  // The closing quote of a string whose content starts at e; |s| if there is none.
  function ScanQuote(s: seq<byte>, e: nat): (r: nat)
    requires e <= |s|
    ensures e <= r <= |s| && (r < |s| ==> s[r] == QUOTE)
    decreases |s| - e
  {
    if e == |s| then e
    else if s[e] == QUOTE then e
    else if s[e] == BACKSLASH then (if e + 1 >= |s| then |s| else ScanQuote(s, e + 2))
    else ScanQuote(s, e + 1)
  }

  function HexValue(b: byte): (v: int)
    ensures -1 <= v < 16
  {
    if 48 <= b <= 57 then b - 48 else if 65 <= b <= 70 then b - 55 else if 97 <= b <= 102 then b - 87 else -1
  }

  // parse_hex4: 0 for anything that is not four hexadecimal digits.
  function Hex4(t: seq<byte>): (v: nat)
    requires |t| >= 4
    ensures v < 65536
  {
    var a, b, c, d := HexValue(t[0]), HexValue(t[1]), HexValue(t[2]), HexValue(t[3]);
    if a < 0 || b < 0 || c < 0 || d < 0 then 0 else ((a * 16 + b) * 16 + c) * 16 + d
  }

  function Utf8(cp: nat): (s: seq<byte>)
    requires cp < 0x110000
  {
    if cp < 0x80 then [cp]
    else if cp < 0x800 then [0xC0 + cp / 64, 0x80 + cp % 64]
    else if cp < 0x10000 then [0xE0 + cp / 4096, 0x80 + cp / 64 % 64, 0x80 + cp % 64]
    else [0xF0 + cp / 262144, 0x80 + cp / 4096 % 64, 0x80 + cp / 64 % 64, 0x80 + cp % 64]
  }

  // utf16_literal_to_utf8 at the start of t: the bytes and the length of the literal.
  function Utf16(t: seq<byte>): (r: (seq<byte>, nat))
    ensures r.1 == 0 || 6 <= r.1 <= |t|
  {
    if |t| < 6 then ([], 0)
    else
      var a := Hex4(t[2..6]);
      if 0xDC00 <= a <= 0xDFFF then ([], 0)
      else if 0xD800 <= a <= 0xDBFF then
        if |t| < 12 || t[6] != BACKSLASH || t[7] != 117 then ([], 0)
        else
          var b := Hex4(t[8..12]);
          if b < 0xDC00 || b > 0xDFFF then ([], 0)
          else (Utf8(0x10000 + (a - 0xD800) * 1024 + (b - 0xDC00)), 12)
      else (Utf8(a), 6)
  }

  datatype Text = Good(bytes: seq<byte>) | Bad

  // The second loop of parse_string over the content t of the literal.
  function Unescape(t: seq<byte>): Text
    decreases |t|
  {
    if t == [] then Good([])
    else if t[0] != BACKSLASH then Prepend([t[0]], Unescape(t[1..]))
    else if |t| < 2 then Bad
    else
      var c := t[1];
      if c == 98 then Prepend([8], Unescape(t[2..]))
      else if c == 102 then Prepend([12], Unescape(t[2..]))
      else if c == 110 then Prepend([10], Unescape(t[2..]))
      else if c == 114 then Prepend([13], Unescape(t[2..]))
      else if c == 116 then Prepend([9], Unescape(t[2..]))
      else if c == QUOTE || c == BACKSLASH || c == 47 then Prepend([c], Unescape(t[2..]))
      else if c == 117 then
        var (u, n) := Utf16(t);
        if n == 0 then Bad else Prepend(u, Unescape(t[n..]))
      else Bad
  }

  function Prepend(a: seq<byte>, t: Text): Text {
    if t.Good? then Good(a + t.bytes) else Bad
  }

  // A C string ends at its first NUL.
  function CString(t: seq<byte>): seq<byte> {
    if t == [] || t[0] == 0 then [] else [t[0]] + CString(t[1..])
  }

  function ParseString(s: seq<byte>, o: nat): (r: Result<seq<byte>>)
    requires o <= |s|
    ensures r.Ok? ==> o < r.next <= |s|
  {
    if o == |s| || s[o] != QUOTE then Fail
    else
      var e := ScanQuote(s, o + 1);
      if e == |s| then Fail
      else
        var t := Unescape(s[o + 1..e]);
        if t.Good? then Ok(CString(t.bytes), e + 1) else Fail
  }

  // ---------- numbers ----------

  function DigitsEnd(s: seq<byte>, o: nat, limit: nat): (e: nat)
    requires o <= |s|
    ensures o <= e <= |s| && forall i :: o <= i < e ==> IsDigit(s[i])
    decreases |s| - o
  {
    if o < |s| && o < limit && IsDigit(s[o]) then DigitsEnd(s, o + 1, limit) else o
  }

  function DigitValue(b: byte): nat
    requires IsDigit(b)
  {
    b - 48
  }

  function DigitsValue(t: seq<byte>): nat
    requires forall i :: 0 <= i < |t| ==> IsDigit(t[i])
  {
    if t == [] then 0 else 10 * DigitsValue(t[..|t| - 1]) + DigitValue(t[|t| - 1])
  }

  predicate GoesOn(b: byte) {
    b == 46 || b == 69 || b == 101
  }

  predicate Is32Bit(n: int) {
    -0x8000_0000 <= n < 0x8000_0000
  }

  // A point and a digit, which make a number without digits before them.
  predicate Fraction(s: seq<byte>, o: nat) {
    o + 1 < |s| && s[o] == 46 && IsDigit(s[o + 1])
  }

  // parse_number: at most 63 characters go to strtod.
  function ParseNumber(s: seq<byte>, o: nat): (r: Result<Json>)
    requires o < |s|
    ensures r.Ok? ==> o < r.next <= |s|
  {
    var from := if s[o] == MINUS then o + 1 else o;
    var e := DigitsEnd(s, from, o + 63);
    if e == from then (if Fraction(s, e) then Unmodelled else Fail)
    else if e < |s| && e < o + 63 && GoesOn(s[e]) then Unmodelled
    else
      var v := DigitsValue(s[from..e]);
      var n: int := if s[o] == MINUS then -(v as int) else v;
      if Is32Bit(n) then Ok(Number(n), e) else Unmodelled
  }

  // ---------- values ----------

  function Cons<T>(x: T, r: Result<seq<T>>): (c: Result<seq<T>>)
    ensures c.Ok? <==> r.Ok?
    ensures c.Ok? ==> c.value == [x] + r.value && c.next == r.next
  {
    match r
    case Ok(rest, e) => Ok([x] + rest, e)
    case Fail => Fail
    case Unmodelled => Unmodelled
  }

  // parse_value at offset o, nested depth deep.
  function ParseValue(s: seq<byte>, o: nat, depth: nat): (r: Result<Json>)
    requires o <= |s|
    ensures r.Ok? ==> o < r.next <= |s|
    decreases |s| - o, 0
  {
    if Has(s, o, NULL_TEXT) then Ok(Null, o + 4)
    else if Has(s, o, FALSE_TEXT) then Ok(Bool(false), o + 5)
    else if Has(s, o, TRUE_TEXT) then Ok(Bool(true), o + 4)
    else if o == |s| then Fail
    else if s[o] == QUOTE then
      match ParseString(s, o)
      case Ok(t, e) => Ok(String(t), e)
      case _ => Fail
    else if s[o] == MINUS || IsDigit(s[o]) then ParseNumber(s, o)
    else if s[o] == OPEN_BRACKET then
      if depth >= NESTING_LIMIT then Fail
      else
        var k := Skip(s, o + 1);
        if k == |s| then Fail
        else if s[k] == CLOSE_BRACKET then Ok(Array([]), k + 1)
        else
          match ParseItems(s, k, depth + 1)
          case Ok(items, e) => Ok(Array(items), e)
          case Fail => Fail
          case Unmodelled => Unmodelled
    else if s[o] == OPEN_BRACE then
      if depth >= NESTING_LIMIT then Fail
      else
        var k := Skip(s, o + 1);
        if k == |s| then Fail
        else if s[k] == CLOSE_BRACE then Ok(Object([]), k + 1)
        else
          match ParseMembers(s, k, depth + 1)
          case Ok(members, e) => Ok(Object(members), e)
          case Fail => Fail
          case Unmodelled => Unmodelled
    else Fail
  }

  // The loop of parse_array from behind the bracket or a comma.
  function ParseItems(s: seq<byte>, o: nat, depth: nat): (r: Result<seq<Json>>)
    requires o <= |s|
    ensures r.Ok? ==> o < r.next <= |s|
    decreases |s| - o, 1
  {
    match ParseValue(s, Skip(s, o), depth)
    case Fail => Fail
    case Unmodelled => Unmodelled
    case Ok(v, e) => ItemsAfter(s, v, e, depth)
  }

  // The loop of parse_array from the end of a value on.
  function ItemsAfter(s: seq<byte>, v: Json, e: nat, depth: nat): (r: Result<seq<Json>>)
    requires e <= |s|
    ensures r.Ok? ==> e < r.next <= |s|
    decreases |s| - e, 2
  {
    var k := Skip(s, e);
    if k < |s| && s[k] == COMMA then Cons(v, ParseItems(s, k + 1, depth))
    else if k < |s| && s[k] == CLOSE_BRACKET then Ok([v], k + 1)
    else Fail
  }

  // One round of the loop of parse_object, from behind the brace or a comma.
  function ParseMember(s: seq<byte>, o: nat, depth: nat): (r: Result<Member>)
    requires o <= |s|
    ensures r.Ok? ==> o < r.next <= |s|
    decreases |s| - o, 1
  {
    match ParseString(s, Skip(s, o))
    case Fail => Fail
    case Unmodelled => Unmodelled
    case Ok(key, e) =>
      var c := Skip(s, e);
      if c == |s| || s[c] != COLON then Fail
      else
        match ParseValue(s, Skip(s, c + 1), depth)
        case Fail => Fail
        case Unmodelled => Unmodelled
        case Ok(v, f) => Ok(Member(key, v), f)
  }

  function ParseMembers(s: seq<byte>, o: nat, depth: nat): (r: Result<seq<Member>>)
    requires o <= |s|
    ensures r.Ok? ==> o < r.next <= |s|
    decreases |s| - o, 2
  {
    match ParseMember(s, o, depth)
    case Fail => Fail
    case Unmodelled => Unmodelled
    case Ok(m, e) => MembersAfter(s, m, e, depth)
  }

  // The loop of parse_object from the end of a value on.
  function MembersAfter(s: seq<byte>, m: Member, e: nat, depth: nat): (r: Result<seq<Member>>)
    requires e <= |s|
    ensures r.Ok? ==> e < r.next <= |s|
    decreases |s| - e, 3
  {
    var k := Skip(s, e);
    if k < |s| && s[k] == COMMA then Cons(m, ParseMembers(s, k + 1, depth))
    else if k < |s| && s[k] == CLOSE_BRACE then Ok([m], k + 1)
    else Fail
  }

  function SkipBom(s: seq<byte>): (o: nat)
    ensures o <= |s|
  {
    if |s| > 4 && s[..3] == [0xEF, 0xBB, 0xBF] then 3 else 0
  }

  // cJSON_ParseWithLength.
  function Parse(s: seq<byte>): Result<Json> {
    if s == [] then Fail else ParseValue(s, Skip(s, SkipBom(s)), 0)
  }
}
