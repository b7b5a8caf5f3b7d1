// When decoding a name ends: a pointer chain that returns to itself is all that can keep
// it going.
module DnsEnds {
  import opened Bytes
  import opened Dns
  import opened DnsDecode

  // ---------- chains of pointers ----------

  // n pointers lead from a to b.
  ghost predicate Leads(p: Source, a: nat, b: nat, n: nat)
    requires Readable(p) && a <= p.total
    decreases n
  {
    if n == 0 then a == b
    else IsPointer(p.data[a]) && p.linked && Target(p, a) < p.total && Leads(p, Target(p, a), b, n - 1)
  }

  lemma {:induction false} OnePointerMore(p: Source, a: nat, b: nat, n: nat)
    requires Readable(p) && a <= p.total && b <= p.total && Leads(p, a, b, n)
    requires IsPointer(p.data[b]) && p.linked && Target(p, b) < p.total
    ensures Leads(p, a, Target(p, b), n + 1)
    decreases n
  {
    if n > 0 {
      OnePointerMore(p, Target(p, a), b, n - 1);
    } else {
      assert Leads(p, Target(p, b), Target(p, b), 0);
    }
  }

  // The pointers from a lead back to a.
  ghost predicate Circular(p: Source, a: nat)
    requires Readable(p) && a <= p.total
  {
    exists n: nat :: n > 0 && Leads(p, a, a, n)
  }

  // ---------- what decoding reaches ----------

  // The state k rounds after s, if decoding gets that far.
  function After(p: Source, size: nat, s: State, k: nat): (r: Outcome)
    requires Readable(p) && s.pos <= p.total
    ensures r.Next? ==> r.s.pos <= p.total
    decreases k
  {
    if k == 0 then Next(s)
    else
      match Step(p, size, s)
      case Next(t) => After(p, size, t, k - 1)
      case o => o
  }

  // Decoding reaches a position from which the pointers lead back to it.
  ghost predicate Caught(p: Source, size: nat, s: State)
    requires Readable(p) && s.pos <= p.total
  {
    exists k: nat :: var o := After(p, size, s, k); o.Next? && Circular(p, o.s.pos)
  }

  lemma NotCaught(p: Source, size: nat, s: State)
    requires Readable(p) && s.pos <= p.total && !Caught(p, size, s)
    ensures !Circular(p, s.pos)
    ensures Step(p, size, s).Next? ==> !Caught(p, size, Step(p, size, s).s)
  {
    assert After(p, size, s, 0) == Next(s);
    if Step(p, size, s).Next? {
      var t := Step(p, size, s).s;
      forall k: nat ensures !(var o := After(p, size, t, k); o.Next? && Circular(p, o.s.pos)) {
        assert After(p, size, s, k + 1) == After(p, size, t, k);
      }
    }
  }

  // ---------- caught for ever ----------

  lemma {:induction false} CircleRunsOn(p: Source, size: nat, s: State, rounds: nat)
    requires Readable(p) && s.pos <= p.total && Circular(p, s.pos)
    ensures Run(p, size, s, rounds) == Running
    decreases rounds
  {
    if rounds > 0 {
      var n: nat :| n > 0 && Leads(p, s.pos, s.pos, n);
      OnePointerMore(p, Target(p, s.pos), s.pos, n - 1);
      assert Circular(p, Target(p, s.pos));
      CircleRunsOn(p, size, Step(p, size, s).s, rounds - 1);
    }
  }

  lemma {:induction false} CaughtRunsOn(p: Source, size: nat, s: State, k: nat, rounds: nat)
    requires Readable(p) && s.pos <= p.total
    requires var o := After(p, size, s, k); o.Next? && Circular(p, o.s.pos)
    ensures Run(p, size, s, rounds) == Running
    decreases k
  {
    if k == 0 {
      CircleRunsOn(p, size, s, rounds);
    } else if rounds > 0 {
      CaughtRunsOn(p, size, Step(p, size, s).s, k - 1, rounds - 1);
    }
  }

  // ---------- ending otherwise ----------

  // Pointers lead from every position seen to pos.
  ghost predicate Seen(p: Source, seen: set<nat>, pos: nat)
    requires Readable(p)
  {
    forall v :: v in seen ==> v <= p.total && exists n: nat :: n > 0 && Leads(p, v, pos, n)
  }

  lemma {:induction false} SeenSize(seen: set<nat>, m: nat)
    requires forall v :: v in seen ==> v < m
    ensures |seen| <= m
    decreases m
  {
    if m == 0 {
      assert seen == {};
    } else {
      SeenSize(seen - {m - 1}, m - 1);
      assert m - 1 in seen ==> seen == (seen - {m - 1}) + {m - 1};
      assert m - 1 !in seen ==> seen == seen - {m - 1};
    }
  }

  lemma SeeMore(p: Source, seen: set<nat>, pos: nat)
    requires Readable(p) && pos <= p.total && Seen(p, seen, pos) && !Circular(p, pos)
    requires IsPointer(p.data[pos]) && p.linked && Target(p, pos) < p.total
    ensures |seen + {pos}| == |seen| + 1 <= p.total + 1 && Seen(p, seen + {pos}, Target(p, pos))
  {
    forall v | v in seen + {pos} ensures v <= p.total && exists n: nat :: n > 0 && Leads(p, v, Target(p, pos), n) {
      if v == pos {
        assert Leads(p, pos, pos, 0);
        OnePointerMore(p, pos, pos, 0);
      } else {
        var n: nat :| n > 0 && Leads(p, v, pos, n);
        OnePointerMore(p, v, pos, n);
      }
    }
    SeenSize(seen + {pos}, p.total + 1);
  }

  // Rounds that suffice from s, when the positions in seen have been left through pointers.
  function RoundsLeft(p: Source, size: nat, s: State, seen: set<nat>): int
    requires |s.plain| <= size
  {
    (size - |s.plain|) * (p.total + 2) + p.total + 2 - |seen|
  }

  lemma RoundsLeftOver(p: Source, size: nat, s: State, seen: set<nat>)
    requires Readable(p) && s.pos <= p.total && |s.plain| <= size && Seen(p, seen, s.pos)
    ensures |seen| <= p.total + 1 && RoundsLeft(p, size, s, seen) > 0
    ensures forall pos :: Seen(p, {}, pos)
  {
    SeenSize(seen, p.total + 1);
    assert (size - |s.plain|) * (p.total + 2) >= 0;
  }

  lemma PointerRounds(p: Source, size: nat, s: State, t: State, seen: set<nat>, more: set<nat>)
    requires |s.plain| <= size && t.plain == s.plain && |more| == |seen| + 1
    ensures RoundsLeft(p, size, t, more) == RoundsLeft(p, size, s, seen) - 1
  {
  }

  lemma LabelRounds(p: Source, size: nat, s: State, t: State, seen: set<nat>)
    requires |t.plain| <= size && |s.plain| < |t.plain| && |seen| <= p.total + 1
    ensures 0 < RoundsLeft(p, size, t, {}) < RoundsLeft(p, size, s, seen)
  {
    var a, b, m := size - |s.plain|, size - |t.plain|, p.total + 2;
    assert a * m >= (b + 1) * m == b * m + m;
  }

  lemma OneRoundMore(p: Source, size: nat, s: State, t: State, rounds: nat)
    requires Readable(p) && s.pos <= p.total && t.pos <= p.total && rounds > 0
    requires Step(p, size, s) == Next(t) && Run(p, size, t, rounds - 1) != Running
    ensures Run(p, size, s, rounds) != Running
  {
  }

  lemma {:induction false} FreeEnds(p: Source, size: nat, s: State, seen: set<nat>)
    requires Readable(p) && s.pos <= p.total && |s.plain| <= size && !Caught(p, size, s) && Seen(p, seen, s.pos)
    ensures RoundsLeft(p, size, s, seen) > 0 && Run(p, size, s, RoundsLeft(p, size, s, seen)) != Running
    decreases size - |s.plain|, p.total + 1 - |seen|, 0
  {
    hide RoundsLeft, Caught, Circular, Leads, Seen;
    var rounds := RoundsLeft(p, size, s, seen);
    RoundsLeftOver(p, size, s, seen);
    NotCaught(p, size, s);
    match Step(p, size, s)
    case Next(t) =>
      if IsPointer(p.data[s.pos]) {
        SeeMore(p, seen, s.pos);
        PointerRounds(p, size, s, t, seen, seen + {s.pos});
        FreeAfter(p, size, s, t, seen + {s.pos}, rounds);
      } else {
        LabelRounds(p, size, s, t, seen);
        FreeAfter(p, size, s, t, {}, rounds);
      }
    case _ =>
  }

  lemma {:induction false} FreeAfter(p: Source, size: nat, s: State, t: State, seen: set<nat>, rounds: nat)
    requires Readable(p) && s.pos <= p.total && t.pos <= p.total && Step(p, size, s) == Next(t)
    requires |t.plain| <= size && !Caught(p, size, t) && Seen(p, seen, t.pos)
    requires RoundsLeft(p, size, t, seen) < rounds
    ensures Run(p, size, s, rounds) != Running
    decreases size - |t.plain|, p.total + 1 - |seen|, 1
  {
    hide Caught, Seen, RoundsLeft, Run, Step;
    FreeEnds(p, size, t, seen);
    MoreRounds(p, size, t, RoundsLeft(p, size, t, seen), rounds - 1);
    OneRoundMore(p, size, s, t, rounds);
  }

  // ---------- the exact condition ----------

  // Rounds that suffice for any name that decoding gets through.
  function Rounds(p: Source, size: nat): nat {
    (size + 1) * (p.total + 2)
  }

  lemma DecodingEnds(p: Source, size: nat, pos: nat)
    requires Readable(p) && pos <= p.total && !Caught(p, size, Begin(pos))
    ensures Run(p, size, Begin(pos), Rounds(p, size)) != Running
  {
    FreeEnds(p, size, Begin(pos), {});
    assert (size + 1) * (p.total + 2) == size * (p.total + 2) + (p.total + 2);
  }

  // Decoding runs on for ever exactly if it reaches a chain of pointers that returns to
  // itself; otherwise it is through after a number of rounds known beforehand.
  lemma RunsOnIffCaught(p: Source, size: nat, pos: nat)
    requires Readable(p) && pos <= p.total
    ensures (forall rounds: nat :: Run(p, size, Begin(pos), rounds) == Running) <==> Caught(p, size, Begin(pos))
    ensures Caught(p, size, Begin(pos)) <==> Run(p, size, Begin(pos), Rounds(p, size)) == Running
  {
    var s := Begin(pos);
    if Caught(p, size, s) {
      var k: nat :| var o := After(p, size, s, k); o.Next? && Circular(p, o.s.pos);
      forall rounds: nat ensures Run(p, size, s, rounds) == Running {
        CaughtRunsOn(p, size, s, k, rounds);
      }
    } else {
      DecodingEnds(p, size, pos);
    }
  }

  // ---------- backward pointers ----------

  // Every pointer leads to an earlier position.
  ghost predicate Backward(p: Source)
    requires Readable(p)
  {
    forall k :: 0 <= k <= p.total && IsPointer(p.data[k]) ==> Target(p, k) < k
  }

  lemma {:induction false} BackwardLeadsBack(p: Source, a: nat, b: nat, n: nat)
    requires Readable(p) && Backward(p) && a <= p.total && Leads(p, a, b, n)
    ensures b <= a && (n > 0 ==> b < a)
    decreases n
  {
    if n > 0 {
      BackwardLeadsBack(p, Target(p, a), b, n - 1);
    }
  }

  // Then no chain returns to itself, and decoding ends from every state.
  lemma BackwardEnds(p: Source, size: nat, s: State)
    requires Readable(p) && Backward(p) && s.pos <= p.total && |s.plain| <= size
    ensures !Caught(p, size, s)
    ensures RoundsLeft(p, size, s, {}) > 0 && Run(p, size, s, RoundsLeft(p, size, s, {})) != Running
  {
    if Caught(p, size, s) {
      var k: nat :| var o := After(p, size, s, k); o.Next? && Circular(p, o.s.pos);
      var a := After(p, size, s, k).s.pos;
      var n: nat :| n > 0 && Leads(p, a, a, n);
      BackwardLeadsBack(p, a, a, n);
    }
    FreeEnds(p, size, s, {});
  }

  // A pointer to itself, at any position of any packet, is followed for ever.
  lemma SelfPointerRunsOn(p: Source, size: nat, s: State, rounds: nat)
    requires Readable(p) && s.pos < p.total && p.linked && IsPointer(p.data[s.pos]) && Target(p, s.pos) == s.pos
    ensures Run(p, size, s, rounds) == Running
  {
    assert Leads(p, s.pos, s.pos, 0) && Leads(p, s.pos, s.pos, 1);
    CircleRunsOn(p, size, s, rounds);
  }
}
