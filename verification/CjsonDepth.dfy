// Which printed trees are read back: exactly those within the nesting limit.
module CjsonDepth {
  import opened Bytes
  import opened CjsonText
  import opened CjsonRoundTrip

  // ---------- nesting depth ----------

  // 32-bit integers and NUL-free strings, whatever the depth.
  ghost predicate Sound(j: Json)
    decreases j
  {
    match j
    case Number(v) => Is32Bit(v)
    case String(t) => NulFree(t)
    case Array(items) => forall i :: 0 <= i < |items| ==> Sound(items[i])
    case Object(members) => forall i :: 0 <= i < |members| ==> NulFree(members[i].key) && Sound(members[i].value)
    case _ => true
  }

  ghost predicate SoundItems(items: seq<Json>) {
    forall i :: 0 <= i < |items| ==> Sound(items[i])
  }

  ghost predicate SoundMembers(members: seq<Member>) {
    forall i :: 0 <= i < |members| ==> NulFree(members[i].key) && Sound(members[i].value)
  }

  // The number of arrays and objects around the innermost value.
  function Depth(j: Json): nat
    decreases j, 0
  {
    match j
    case Array(items) => 1 + ItemsDepth(items)
    case Object(members) => 1 + MembersDepth(members)
    case _ => 0
  }

  function ItemsDepth(items: seq<Json>): nat
    decreases items, 1
  {
    if items == [] then 0
    else var a, b := Depth(items[0]), ItemsDepth(items[1..]); if a < b then b else a
  }

  function MembersDepth(members: seq<Member>): nat
    decreases members, 1
  {
    if members == [] then 0
    else var a, b := Depth(members[0].value), MembersDepth(members[1..]); if a < b then b else a
  }

  lemma {:induction false} StorableIff(j: Json, n: int)
    requires Sound(j) && n >= 0
    ensures Storable(j, n) <==> Depth(j) <= n
    decreases j, 0
  {
    match j
    case Array(items) =>
      if n > 0 {
        StorableItemsIff(items, n - 1);
      }
    case Object(members) =>
      if n > 0 {
        StorableMembersIff(members, n - 1);
      }
    case _ =>
  }

  lemma {:induction false} StorableItemsIff(items: seq<Json>, n: int)
    requires SoundItems(items) && n >= 0
    ensures StorableItems(items, n) <==> ItemsDepth(items) <= n
    decreases items, 1
  {
    if items != [] {
      StorableIff(items[0], n);
      StorableItemsIff(items[1..], n);
      assert StorableItems(items, n) <==> Storable(items[0], n) && StorableItems(items[1..], n);
    }
  }

  lemma {:induction false} StorableMembersIff(members: seq<Member>, n: int)
    requires SoundMembers(members) && n >= 0
    ensures StorableMembers(members, n) <==> MembersDepth(members) <= n
    decreases members, 1
  {
    if members != [] {
      StorableIff(members[0].value, n);
      StorableMembersIff(members[1..], n);
      assert StorableMembers(members, n) <==> Storable(members[0].value, n) && StorableMembers(members[1..], n);
    }
  }

  // ---------- deeper trees are refused ----------

  // At the limit no array or object is entered.
  lemma TooDeep(s: seq<byte>, o: nat)
    requires o < |s| && (s[o] == OPEN_BRACKET || s[o] == OPEN_BRACE)
    ensures ParseValue(s, o, NESTING_LIMIT) == Fail
  {
    NoLiteral(s, o);
  }

  lemma {:induction false} ValueRefused(s: seq<byte>, o: nat, j: Json, depth: nat, fmt: bool, pd: nat)
    requires pd <= NESTING_LIMIT && Sound(j) && Depth(j) > NESTING_LIMIT - pd && Has(s, o, Print(j, depth, fmt))
    ensures o <= |s| && ParseValue(s, o, pd) == Fail
    decreases j, 1
  {
    match j
    case Array(items) => ArrayRefused(s, o, items, depth, fmt, pd);
    case Object(members) =>
      ObjectPrint(members, depth, fmt);
      ObjectRefused(s, o, members, depth, fmt, pd);
  }

  lemma {:induction false} ArrayRefused(s: seq<byte>, o: nat, items: seq<Json>, depth: nat, fmt: bool, pd: nat)
    requires pd <= NESTING_LIMIT && SoundItems(items) && 1 + ItemsDepth(items) > NESTING_LIMIT - pd
    requires Has(s, o, [OPEN_BRACKET] + PrintItems(items, depth, fmt))
    ensures o <= |s| && ParseValue(s, o, pd) == Fail
    decreases items, 2
  {
    HasSplit(s, o, [OPEN_BRACKET], PrintItems(items, depth, fmt));
    HasFirst(s, o, [OPEN_BRACKET]);
    if pd == NESTING_LIMIT {
      TooDeep(s, o);
    } else {
      ItemsStart(items, depth, fmt);
      HasFirst(s, o + 1, PrintItems(items, depth, fmt));
      SkipOver(s, o + 1, 0);
      ItemsRefused(s, o + 1, o + 1, items, depth, fmt, pd + 1);
      ArrayFails(s, o, pd);
    }
  }

  lemma ArrayFails(s: seq<byte>, o: nat, pd: nat)
    requires o + 1 < |s| && s[o] == OPEN_BRACKET && pd < NESTING_LIMIT && Skip(s, o + 1) == o + 1
    requires s[o + 1] != CLOSE_BRACKET && ParseItems(s, o + 1, pd + 1) == Fail
    ensures ParseValue(s, o, pd) == Fail
  {
    NoLiteral(s, o);
  }

  lemma {:induction false} ItemsRefused(s: seq<byte>, o: nat, k: nat, items: seq<Json>, depth: nat, fmt: bool, pd: nat)
    requires pd <= NESTING_LIMIT && items != [] && SoundItems(items) && ItemsDepth(items) > NESTING_LIMIT - pd
    requires o <= |s| && Skip(s, o) == k && Has(s, k, PrintItems(items, depth, fmt))
    ensures ParseItems(s, o, pd) == Fail
    decreases items, 1
  {
    hide PrintItems, Skip, Has, Print;
    var e, next := ItemsLayout(s, k, items, depth, fmt);
    if Depth(items[0]) > NESTING_LIMIT - pd {
      ValueRefused(s, k, items[0], depth + 1, fmt, pd);
    } else {
      StorableIff(items[0], NESTING_LIMIT - pd);
      ValueParses(s, k, items[0], depth + 1, fmt, pd, e);
      assert items[1..] != [];
      ItemsRefused(s, e + 1, next, items[1..], depth, fmt, pd);
    }
  }

  lemma {:induction false} ObjectRefused(s: seq<byte>, o: nat, members: seq<Member>, depth: nat, fmt: bool, pd: nat)
    requires pd <= NESTING_LIMIT && SoundMembers(members) && 1 + MembersDepth(members) > NESTING_LIMIT - pd
    requires Has(s, o, [OPEN_BRACE] + ObjectText(members, depth, fmt))
    ensures o <= |s| && ParseValue(s, o, pd) == Fail
    decreases members, 2
  {
    hide ObjectText, MemberText, Has, Skip, ParseValue, ParseMembers, Sound;
    HasSplit(s, o, [OPEN_BRACE], ObjectText(members, depth, fmt));
    HasFirst(s, o, [OPEN_BRACE]);
    if pd == NESTING_LIMIT {
      TooDeep(s, o);
    } else {
      var k := ObjectLayout(s, o + 1, members, depth, fmt);
      MembersRefused(s, k, k, members, depth, fmt, pd + 1);
      ObjectFails(s, o, k, pd);
    }
  }

  lemma ObjectFails(s: seq<byte>, o: nat, k: nat, pd: nat)
    requires o + 1 < |s| && s[o] == OPEN_BRACE && pd < NESTING_LIMIT && Skip(s, o + 1) == k && k < |s|
    requires s[k] != CLOSE_BRACE && ParseMembers(s, k, pd + 1) == Fail
    ensures ParseValue(s, o, pd) == Fail
  {
    NoLiteral(s, o);
  }

  lemma MemberFails(s: seq<byte>, o: nat, pd: nat, a: nat, key: seq<byte>, c: nat, f: nat)
    requires o <= |s| && Skip(s, o) == a && ParseString(s, a) == Ok(key, c)
    requires c < |s| && Skip(s, c) == c && s[c] == COLON && Skip(s, c + 1) == f && ParseValue(s, f, pd) == Fail
    ensures ParseMembers(s, o, pd) == Fail
  {
    hide Skip, ParseString, ParseValue, MembersAfter;
  }

  lemma AfterFails(s: seq<byte>, m: Member, g: nat, pd: nat)
    requires g < |s| && Skip(s, g) == g && s[g] == COMMA && ParseMembers(s, g + 1, pd) == Fail
    ensures MembersAfter(s, m, g, pd) == Fail
  {
    hide ParseMembers, ParseMember, ParseValue, Skip;
  }

  lemma MoreFail(s: seq<byte>, o: nat, pd: nat, m: Member, g: nat)
    requires o <= |s| && ParseMember(s, o, pd) == Ok(m, g)
    requires g < |s| && Skip(s, g) == g && s[g] == COMMA && ParseMembers(s, g + 1, pd) == Fail
    ensures ParseMembers(s, o, pd) == Fail
  {
    hide MembersAfter, ParseMembers, ParseMember, ParseValue, Skip;
    AfterFails(s, m, g, pd);
    MembersJoin(s, o, pd, m, g, Fail);
  }

  lemma {:induction false} MembersRefused(s: seq<byte>, o: nat, at: nat, members: seq<Member>, depth: nat, fmt: bool,
                                          pd: nat)
    requires pd <= NESTING_LIMIT && members != [] && SoundMembers(members) && MembersDepth(members) > NESTING_LIMIT - pd
    requires o <= |s| && Skip(s, o) == at && Has(s, at, MemberText(members, depth, fmt))
    ensures ParseMembers(s, o, pd) == Fail
    decreases members, 1
  {
    hide MemberText, TailText, Skip, Has, Print, ParseValue, ParseString, ParseMember, ParseMembers, PrintString;
    var m := members[0];
    var c, f, g := MemberLayout(s, at, members, depth, fmt);
    StringParses(s, at, m.key);
    if Depth(m.value) > NESTING_LIMIT - pd {
      ValueRefused(s, f, m.value, depth + 1, fmt, pd);
      MemberFails(s, o, pd, at, m.key, c, f);
    } else {
      StorableIff(m.value, NESTING_LIMIT - pd);
      ValueParses(s, f, m.value, depth + 1, fmt, pd, g);
      MemberParses(s, o, pd, at, m.key, c, f, m.value, g);
      assert members[1..] != [];
      var next := MoreTail(s, g, members, depth, fmt);
      MembersRefused(s, g + 1, next, members[1..], depth, fmt, pd);
      MoreFail(s, o, pd, m, g);
    }
  }

  // The text of a tree is read back, as that tree, exactly if its nesting depth is within
  // the limit; otherwise it is refused.
  lemma PrintParseIff(j: Json, fmt: bool)
    requires Sound(j)
    ensures Parse(Print(j, 0, fmt) + [0])
            == if Depth(j) <= NESTING_LIMIT then Ok(j, |Print(j, 0, fmt)|) else Fail
  {
    StorableIff(j, NESTING_LIMIT);
    if Depth(j) <= NESTING_LIMIT {
      PrintParse(j, fmt);
    } else {
      TextStart(j, fmt);
      ValueRefused(Print(j, 0, fmt) + [0], 0, j, 0, fmt, 0);
    }
  }
}
