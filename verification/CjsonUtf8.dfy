// Characters in JSON strings: UTF-8 as RFC 3629 defines it, and the escapes of section 7 of
// RFC 8259 by their bytes.
module CjsonUtf8 {
  import opened Bytes
  import opened CjsonText

  // ---------- UTF-8, read ----------

  // A character and the number of its bytes.
  datatype Character = Character(point: nat, length: nat) | NoCharacter

  predicate Continues(b: byte) {
    0x80 <= b <= 0xBF
  }

  function Six(b: byte): nat
    requires Continues(b)
  {
    b - 0x80
  }

  // The character at the start of s: leading and continuation bytes in their ranges, and no
  // longer than it has to be.
  function ReadCharacter(s: seq<byte>): Character {
    if s == [] then NoCharacter
    else if s[0] <= 0x7F then Character(s[0], 1)
    else if 0xC0 <= s[0] <= 0xDF && |s| >= 2 && Continues(s[1]) then
      Shortest((s[0] - 0xC0) as int * 64 + Six(s[1]), 2, 0x80)
    else if 0xE0 <= s[0] <= 0xEF && |s| >= 3 && Continues(s[1]) && Continues(s[2]) then
      Shortest((s[0] - 0xE0) as int * 4096 + Six(s[1]) * 64 + Six(s[2]), 3, 0x800)
    else if 0xF0 <= s[0] <= 0xF7 && |s| >= 4 && Continues(s[1]) && Continues(s[2]) && Continues(s[3]) then
      Shortest((s[0] - 0xF0) as int * 262144 + Six(s[1]) * 4096 + Six(s[2]) * 64 + Six(s[3]), 4, 0x10000)
    else NoCharacter
  }

  function Shortest(point: nat, length: nat, least: nat): Character {
    if least <= point < 0x110000 then Character(point, length) else NoCharacter
  }

  // What is written for a character is read as this character, in the shortest form and
  // whatever follows.
  lemma Utf8IsRead(cp: nat, rest: seq<byte>)
    requires cp < 0x110000
    ensures ReadCharacter(Utf8(cp) + rest) == Character(cp, |Utf8(cp)|)
  {
    var u := Utf8(cp);
    if cp < 0x80 {
    } else if cp < 0x800 {
    } else if cp < 0x10000 {
      ThreeBytes(cp);
    } else {
      FourBytes(cp);
    }
  }

  lemma ThreeBytes(cp: nat)
    ensures cp == cp / 4096 * 4096 + cp / 64 % 64 * 64 + cp % 64
  {
    assert cp / 64 == cp / 4096 * 64 + cp / 64 % 64 by {
      assert cp / 64 / 64 == cp / 4096;
    }
  }

  lemma FourBytes(cp: nat)
    ensures cp == cp / 262144 * 262144 + cp / 4096 % 64 * 4096 + cp / 64 % 64 * 64 + cp % 64
  {
    ThreeBytes(cp);
    assert cp / 4096 == cp / 262144 * 64 + cp / 4096 % 64 by {
      assert cp / 4096 / 64 == cp / 262144;
    }
  }

  // ---------- escapes ----------

  const LOWER: seq<byte> := [48, 49, 50, 51, 52, 53, 54, 55, 56, 57, 97, 98, 99, 100, 101, 102]
  const UPPER: seq<byte> := [48, 49, 50, 51, 52, 53, 54, 55, 56, 57, 65, 66, 67, 68, 69, 70]

  // b is the hexadecimal digit of value v, in either case.
  predicate Hex(b: byte, v: nat) {
    v < 16 && (b == LOWER[v] || b == UPPER[v])
  }

  // A backslash, a u and the four digits of a.
  predicate Escapes(t: seq<byte>, a: nat) {
    && |t| == 6 && a < 65536 && t[0] == 92 && t[1] == 117
    && Hex(t[2], a / 4096) && Hex(t[3], a / 256 % 16) && Hex(t[4], a / 16 % 16) && Hex(t[5], a % 16)
  }

  // The escape of a character: one, or the pair of its high and its low ten bits.
  predicate Spells(t: seq<byte>, cp: nat) {
    if cp < 0x10000 then !(0xD800 <= cp <= 0xDFFF) && Escapes(t, cp)
    else
      && cp < 0x110000 && |t| == 12
      && Escapes(t[..6], 0xD800 + (cp - 0x10000) / 1024) && Escapes(t[6..], 0xDC00 + (cp - 0x10000) % 1024)
  }

  lemma HexRead(b: byte, v: nat)
    requires Hex(b, v)
    ensures HexValue(b) == v
  {
  }

  lemma FourDigits(a: nat)
    requires a < 65536
    ensures ((a / 4096 * 16 + a / 256 % 16) * 16 + a / 16 % 16) * 16 + a % 16 == a
  {
    assert a / 256 / 16 == a / 4096 && a / 16 / 16 == a / 256;
  }

  lemma EscapeRead(t: seq<byte>, a: nat)
    requires Escapes(t, a)
    ensures Hex4(t[2..6]) == a
  {
    HexRead(t[2], a / 4096);
    HexRead(t[3], a / 256 % 16);
    HexRead(t[4], a / 16 % 16);
    HexRead(t[5], a % 16);
    hide HexValue, Hex;
    FourDigits(a);
  }

  // An escaped character is unescaped to bytes that are read as this character.
  lemma EscapedCharacter(t: seq<byte>, cp: nat, rest: seq<byte>) returns (u: seq<byte>)
    requires Spells(t, cp)
    ensures ReadCharacter(u) == Character(cp, |u|)
    ensures Unescape(t + rest) == Prepend(u, Unescape(rest))
    ensures u == Utf8(cp)
  {
    assert cp < 0x110000;
    hide Utf8, ReadCharacter, Spells, Unescape;
    u := Utf8(cp);
    Utf8IsRead(cp, []);
    assert u + [] == u;
    if cp < 0x10000 {
      OneEscape(t, cp, rest);
    } else {
      PairEscape(t, cp, rest);
    }
  }

  lemma EscapeStarts(t: seq<byte>, a: nat)
    requires Escapes(t, a)
    ensures |t| == 6 && t[0] == 92 && t[1] == 117
  {
  }

  lemma OneEscape(t: seq<byte>, cp: nat, rest: seq<byte>)
    requires cp < 0x10000 && Spells(t, cp)
    ensures Unescape(t + rest) == Prepend(Utf8(cp), Unescape(rest))
  {
    hide Hex4, Utf8, Escapes, Prepend;
    var s := t + rest;
    EscapeStarts(t, cp);
    EscapeRead(t, cp);
    assert s[2..6] == t[2..6];
    assert s[6..] == rest;
    assert Utf16(s) == (Utf8(cp), 6);
  }

  lemma PairEscape(t: seq<byte>, cp: nat, rest: seq<byte>)
    requires cp >= 0x10000 && Spells(t, cp)
    ensures Unescape(t + rest) == Prepend(Utf8(cp), Unescape(rest))
  {
    hide Hex4, Utf8, Escapes, Prepend;
    var s, d := t + rest, cp - 0x10000;
    EscapeStarts(t[..6], 0xD800 + d / 1024);
    EscapeStarts(t[6..], 0xDC00 + d % 1024);
    EscapeRead(t[..6], 0xD800 + d / 1024);
    EscapeRead(t[6..], 0xDC00 + d % 1024);
    assert s[2..6] == t[..6][2..6] && s[8..12] == t[6..][2..6];
    assert s[6] == t[6..][0] && s[7] == t[6..][1];
    assert s[12..] == rest;
    assert Utf16(s) == (Utf8(cp), 12);
  }

  // The escapes with a letter, and the byte each stands for.
  lemma ShortEscapes(rest: seq<byte>)
    ensures Unescape([92, 34] + rest) == Prepend([34], Unescape(rest))
    ensures Unescape([92, 92] + rest) == Prepend([92], Unescape(rest))
    ensures Unescape([92, 47] + rest) == Prepend([47], Unescape(rest))
    ensures Unescape([92, 98] + rest) == Prepend([8], Unescape(rest))
    ensures Unescape([92, 102] + rest) == Prepend([12], Unescape(rest))
    ensures Unescape([92, 110] + rest) == Prepend([10], Unescape(rest))
    ensures Unescape([92, 114] + rest) == Prepend([13], Unescape(rest))
    ensures Unescape([92, 116] + rest) == Prepend([9], Unescape(rest))
  {
    hide Prepend;
    forall c: byte ensures ([92, c] + rest)[2..] == rest {
    }
  }
}
