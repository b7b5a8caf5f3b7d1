// The layout of printed JSON: what an automaton that reads it byte by byte finds.
module CjsonLayout {
  import opened Bytes
  import opened CjsonText

  // Outside a string; inside one; behind a backslash; at the start of a line behind some
  // tabs; or where one certain byte has to come next.
  datatype Mode = Outside | Quoted | Escaped | Line(tabs: nat) | Owes(b: byte)

  // The arrays and objects that are open, outermost first (true for an object), and the
  // mode; or a byte stood where the layout does not allow it.
  datatype Scan = Scan(open: seq<bool>, mode: Mode) | Wrong

  predicate InObject(open: seq<bool>) {
    open != [] && open[|open| - 1]
  }

  predicate InArray(open: seq<bool>) {
    open != [] && !open[|open| - 1]
  }

  function Closed(open: seq<bool>): seq<bool>
    requires open != []
  {
    open[..|open| - 1]
  }

  // Formatted, an object has a line for each member and one for its closing brace; a line
  // begins with as many tabs as arrays and objects are open, a colon is followed by a tab, a
  // comma in an array by a space, and there are no other blanks. Unformatted there are none.
  function Step(fmt: bool, s: Scan, c: byte): Scan {
    match s
    case Wrong => Wrong
    case Scan(o, Quoted) => Scan(o, if c == 34 then Outside else if c == 92 then Escaped else Quoted)
    case Scan(o, Escaped) => Scan(o, Quoted)
    case Scan(o, Owes(b)) => if c != b then Wrong else Scan(o, if b == 10 then Line(0) else Outside)
    case Scan(o, Line(k)) =>
      if c == 9 then Scan(o, Line(k + 1))
      else if c == 34 && k == |o| then Scan(o, Quoted)
      else if c == 125 && InObject(o) && k == |o| - 1 then Scan(Closed(o), Outside)
      else Wrong
    case Scan(o, Outside) =>
      if c == 34 then Scan(o, Quoted)
      else if c == 91 then Scan(o + [false], Outside)
      else if c == 93 then (if InArray(o) then Scan(Closed(o), Outside) else Wrong)
      else if c == 123 then Scan(o + [true], if fmt then Owes(10) else Outside)
      else if c == 125 then (if !fmt && InObject(o) then Scan(Closed(o), Outside) else Wrong)
      else if c == 44 then Scan(o, if !fmt then Outside else if InObject(o) then Owes(10) else Owes(32))
      else if c == 58 then Scan(o, if fmt then Owes(9) else Outside)
      else if c == 10 && fmt && InObject(o) then Scan(o, Line(0))
      else if c <= 32 then Wrong
      else s
  }

  function Steps(fmt: bool, s: Scan, t: seq<byte>): Scan
    decreases |t|
  {
    if t == [] then s else Steps(fmt, Step(fmt, s, t[0]), t[1..])
  }

  lemma {:induction false} StepsAppend(fmt: bool, s: Scan, a: seq<byte>, b: seq<byte>)
    ensures Steps(fmt, s, a + b) == Steps(fmt, Steps(fmt, s, a), b)
    decreases |a|
  {
    if a == [] {
      assert a + b == b;
    } else {
      assert (a + b)[1..] == a[1..] + b;
      StepsAppend(fmt, Step(fmt, s, a[0]), a[1..], b);
    }
  }

  lemma NoSteps(fmt: bool, s: Scan)
    ensures Steps(fmt, s, []) == s
  {
  }

  lemma OneStep(fmt: bool, s: Scan, c: byte)
    ensures Steps(fmt, s, [c]) == Step(fmt, s, c)
  {
  }

  lemma TwoSteps(fmt: bool, s: Scan, c: byte, d: byte)
    ensures Steps(fmt, s, [c, d]) == Step(fmt, Step(fmt, s, c), d)
  {
    assert [c, d][1..] == [d];
    OneStep(fmt, Step(fmt, s, c), d);
  }

  // ---------- tokens ----------

  predicate Ordinary(c: byte) {
    c > 32 && c !in {34, 44, 58, 91, 93, 123, 125}
  }

  lemma {:induction false} OrdinaryStays(fmt: bool, o: seq<bool>, t: seq<byte>)
    requires forall i :: 0 <= i < |t| ==> Ordinary(t[i])
    ensures Steps(fmt, Scan(o, Outside), t) == Scan(o, Outside)
    decreases |t|
  {
    if t != [] {
      OrdinaryStays(fmt, o, t[1..]);
    }
  }

  lemma IntStays(fmt: bool, o: seq<bool>, n: int)
    ensures Steps(fmt, Scan(o, Outside), PrintInt(n)) == Scan(o, Outside)
  {
    OrdinaryStays(fmt, o, PrintInt(n));
  }

  lemma EscapeStays(fmt: bool, o: seq<bool>, c: byte)
    ensures Steps(fmt, Scan(o, Quoted), Escape(c)) == Scan(o, Quoted)
  {
    var t := Escape(c);
    var q := Scan(o, Quoted);
    if |t| == 1 {
      OneStep(fmt, q, c);
    } else if |t| == 2 {
      TwoSteps(fmt, q, t[0], t[1]);
      assert t == [t[0], t[1]];
    } else {
      var a, b, d := [t[0], t[1]], [t[2], t[3]], [t[4], t[5]];
      assert t == a + (b + d);
      StepsAppend(fmt, q, a, b + d);
      StepsAppend(fmt, q, b, d);
      TwoSteps(fmt, q, t[0], t[1]);
      TwoSteps(fmt, q, t[2], t[3]);
      TwoSteps(fmt, q, t[4], t[5]);
    }
  }

  lemma {:induction false} EscapesStay(fmt: bool, o: seq<bool>, t: seq<byte>)
    ensures Steps(fmt, Scan(o, Quoted), EscapeAll(t)) == Scan(o, Quoted)
    decreases |t|
  {
    hide Escape, Step;
    if t != [] {
      EscapeStays(fmt, o, t[0]);
      EscapesStay(fmt, o, t[1..]);
      StepsAppend(fmt, Scan(o, Quoted), Escape(t[0]), EscapeAll(t[1..]));
    }
  }

  // A string begins outside strings, or on a line with the right number of tabs.
  lemma StringStays(fmt: bool, o: seq<bool>, m: Mode, t: seq<byte>)
    requires m == Outside || m == Line(|o|)
    ensures Steps(fmt, Scan(o, m), PrintString(t)) == Scan(o, Outside)
  {
    hide EscapeAll, Steps;
    StepsAppend(fmt, Scan(o, m), [QUOTE] + EscapeAll(t), [QUOTE]);
    StepsAppend(fmt, Scan(o, m), [QUOTE], EscapeAll(t));
    OneStep(fmt, Scan(o, m), QUOTE);
    EscapesStay(fmt, o, t);
    OneStep(fmt, Scan(o, Quoted), QUOTE);
  }

  lemma {:induction false} TabsCount(fmt: bool, o: seq<bool>, k: nat, n: nat)
    ensures Steps(fmt, Scan(o, Line(k)), Tabs(n)) == Scan(o, Line(k + n))
    decreases n
  {
    if n > 0 {
      assert Tabs(n)[1..] == Tabs(n - 1);
      TabsCount(fmt, o, k + 1, n - 1);
    }
  }

  // ---------- values ----------

  // A value printed with all that is open around it is laid out as demanded, and leaves open
  // what was open.
  lemma {:induction false} ValueLaidOut(j: Json, o: seq<bool>, fmt: bool)
    ensures Steps(fmt, Scan(o, Outside), Print(j, |o|, fmt)) == Scan(o, Outside)
    decreases j, 1
  {
    hide Steps, PrintItems, PrintMembers, PrintInt, PrintString;
    var s := Scan(o, Outside);
    match j
    case Null => OrdinaryStays(fmt, o, NULL_TEXT);
    case Bool(b) => OrdinaryStays(fmt, o, if b then TRUE_TEXT else FALSE_TEXT);
    case Number(n) => IntStays(fmt, o, n);
    case String(t) => StringStays(fmt, o, Outside, t);
    case Array(items) =>
      StepsAppend(fmt, s, [OPEN_BRACKET], PrintItems(items, |o|, fmt));
      OneStep(fmt, s, OPEN_BRACKET);
      ItemsLaidOut(items, o, fmt);
    case Object(members) =>
      var nl := if fmt then [NEWLINE] else [];
      StepsAppend(fmt, s, [OPEN_BRACE] + nl, PrintMembers(members, |o|, fmt));
      OpenLaidOut(o, fmt);
      MembersLaidOut(members, o, fmt);
  }

  lemma OpenLaidOut(o: seq<bool>, fmt: bool)
    ensures Steps(fmt, Scan(o, Outside), [OPEN_BRACE] + (if fmt then [NEWLINE] else [])) == Scan(o + [true], Fresh(fmt))
  {
    if fmt {
      assert [OPEN_BRACE] + [NEWLINE] == [OPEN_BRACE, NEWLINE];
      TwoSteps(fmt, Scan(o, Outside), OPEN_BRACE, NEWLINE);
    } else {
      assert [OPEN_BRACE] + [] == [OPEN_BRACE];
      OneStep(fmt, Scan(o, Outside), OPEN_BRACE);
    }
  }

  // Where a member or the closing brace begins.
  function Fresh(fmt: bool): Mode {
    if fmt then Line(0) else Outside
  }

  lemma {:induction false} ItemsLaidOut(items: seq<Json>, o: seq<bool>, fmt: bool)
    ensures Steps(fmt, Scan(o + [false], Outside), PrintItems(items, |o|, fmt)) == Scan(o, Outside)
    decreases items, 0
  {
    hide Steps, Print;
    var p := o + [false];
    var s := Scan(p, Outside);
    if items == [] {
      OneStep(fmt, s, CLOSE_BRACKET);
      assert Closed(p) == o;
    } else {
      var v, sep, rest := Print(items[0], |p|, fmt), Separator(|items| > 1, fmt), PrintItems(items[1..], |o|, fmt);
      StepsAppend(fmt, s, v + sep, rest);
      StepsAppend(fmt, s, v, sep);
      ValueLaidOut(items[0], p, fmt);
      SeparatorLaidOut(p, |items| > 1, fmt);
      ItemsLaidOut(items[1..], o, fmt);
    }
  }

  lemma SeparatorLaidOut(p: seq<bool>, more: bool, fmt: bool)
    requires InArray(p)
    ensures Steps(fmt, Scan(p, Outside), Separator(more, fmt)) == Scan(p, Outside)
  {
    var s := Scan(p, Outside);
    OneStep(fmt, s, COMMA);
    TwoSteps(fmt, s, COMMA, SPACE);
  }

  lemma {:induction false} MembersLaidOut(members: seq<Member>, o: seq<bool>, fmt: bool)
    ensures Steps(fmt, Scan(o + [true], Fresh(fmt)), PrintMembers(members, |o|, fmt)) == Scan(o, Outside)
    decreases members, 0
  {
    hide Steps, Print, PrintString, Tabs, LineEnd, Colon;
    var p := o + [true];
    var s := Scan(p, Fresh(fmt));
    if members == [] {
      CloseLaidOut(o, fmt);
    } else {
      var m := members[0];
      var tabs := if fmt then Tabs(|p|) else [];
      var key, colon, v := PrintString(m.key), Colon(fmt), Print(m.value, |p|, fmt);
      var end, rest := LineEnd(|members| > 1, fmt), PrintMembers(members[1..], |o|, fmt);
      assert PrintMembers(members, |o|, fmt) == tabs + key + colon + v + end + rest;
      StepsAppend(fmt, s, tabs + key + colon + v + end, rest);
      StepsAppend(fmt, s, tabs + key + colon + v, end);
      StepsAppend(fmt, s, tabs + key + colon, v);
      StepsAppend(fmt, s, tabs + key, colon);
      StepsAppend(fmt, s, tabs, key);
      IndentLaidOut(p, fmt);
      StringStays(fmt, p, if fmt then Line(|p|) else Outside, m.key);
      ColonLaidOut(p, fmt);
      ValueLaidOut(m.value, p, fmt);
      EndLaidOut(p, |members| > 1, fmt);
      MembersLaidOut(members[1..], o, fmt);
    }
  }

  lemma IndentLaidOut(p: seq<bool>, fmt: bool)
    ensures Steps(fmt, Scan(p, Fresh(fmt)), if fmt then Tabs(|p|) else [])
            == Scan(p, if fmt then Line(|p|) else Outside)
  {
    if fmt {
      TabsCount(fmt, p, 0, |p|);
    }
  }

  lemma ColonLaidOut(p: seq<bool>, fmt: bool)
    ensures Steps(fmt, Scan(p, Outside), Colon(fmt)) == Scan(p, Outside)
  {
    var s := Scan(p, Outside);
    OneStep(fmt, s, COLON);
    TwoSteps(fmt, s, COLON, TAB);
  }

  lemma EndLaidOut(p: seq<bool>, more: bool, fmt: bool)
    requires InObject(p)
    ensures Steps(fmt, Scan(p, Outside), LineEnd(more, fmt)) == Scan(p, Fresh(fmt))
  {
    var s := Scan(p, Outside);
    if fmt && more {
      assert LineEnd(more, fmt) == [COMMA, NEWLINE];
      TwoSteps(fmt, s, COMMA, NEWLINE);
    } else if fmt {
      assert LineEnd(more, fmt) == [NEWLINE];
      OneStep(fmt, s, NEWLINE);
    } else {
      assert LineEnd(more, fmt) == if more then [COMMA] else [];
      OneStep(fmt, s, COMMA);
    }
  }

  lemma CloseLaidOut(o: seq<bool>, fmt: bool)
    ensures Steps(fmt, Scan(o + [true], Fresh(fmt)), (if fmt then Tabs(|o|) else []) + [CLOSE_BRACE])
            == Scan(o, Outside)
  {
    hide Steps;
    var p := o + [true];
    var tabs := if fmt then Tabs(|o|) else [];
    StepsAppend(fmt, Scan(p, Fresh(fmt)), tabs, [CLOSE_BRACE]);
    assert Closed(p) == o;
    if fmt {
      TabsCount(fmt, p, 0, |o|);
      OneStep(fmt, Scan(p, Line(|o|)), CLOSE_BRACE);
    } else {
      NoSteps(fmt, Scan(p, Outside));
      OneStep(fmt, Scan(p, Outside), CLOSE_BRACE);
    }
  }

  // Every printed text, formatted or not, has its layout, and closes all that it opens.
  lemma TextLaidOut(j: Json, fmt: bool)
    ensures Steps(fmt, Scan([], Outside), Print(j, 0, fmt)) == Scan([], Outside)
  {
    ValueLaidOut(j, [], fmt);
  }
}
