/**
 What a rate counter shows at any time, exactly: the worst of the charges' suffixes, each at its full
 cost less what has leaked since it began. So budget is refused only for what has not leaked yet.
 */
module RateBacklog {
  import opened Common
  import opened RateModelModule

  /** The latest time of any charge; a clock that steps back does not count. */
  function Clock(cs: seq<Charge>): int {
    if cs == [] then 0 else Max(Clock(cs[..|cs| - 1]), cs[|cs| - 1].now)
  }

  /** What decays away in so many nanoseconds. */
  function Drained(p: Params, ns: int): real {
    p.decayPerS * ns as real / 1_000_000_000.0
  }

  /** What the charges from the i-th on cost, less the decay since the i-th. */
  function Unleaked(p: Params, cs: seq<Charge>, i: nat, now: int): real
    requires i < |cs|
  {
    TotalCost(cs[i..]) as real - Drained(p, Max(Clock(cs), now) - Clock(cs[..i + 1]))
  }

  /** The greatest of 0 and every suffix's unleaked cost. */
  ghost predicate IsBacklog(p: Params, cs: seq<Charge>, now: int, v: real) {
    && v >= 0.0 && (forall i :: 0 <= i < |cs| ==> Unleaked(p, cs, i, now) <= v)
    && (v == 0.0 || exists i :: 0 <= i < |cs| && Unleaked(p, cs, i, now) == v)
  }

  lemma DrainedAdds(p: Params, a: int, b: int)
    ensures Drained(p, a) + Drained(p, b) == Drained(p, a + b)
  {
    assert a as real + b as real == (a + b) as real;
    assert p.decayPerS * a as real + p.decayPerS * b as real == p.decayPerS * (a + b) as real;
  }

  lemma DrainedGrows(p: Params, ns: int)
    requires p.decayPerS >= 0.0 && ns >= 0
    ensures Drained(p, ns) >= 0.0 && Drained(p, 0) == 0.0
  {
  }

  lemma {:induction false} ClockIs(p: Params, cs: seq<Charge>)
    ensures After(p, NO_CHARGE, cs).lastNs == Clock(cs) && Clock(cs) >= 0
  {
    hide CountAt, Cost;
    if cs != [] {
      ClockIs(p, cs[..|cs| - 1]);
    }
  }

  lemma LeakIsDrained(p: Params, a: int, b: int)
    ensures Leak(p, a, b) == Drained(p, b - a)
  {
  }

  /** The count some time after the counter's own, in the program's units. */
  lemma CountLater(p: Params, c: Counter, now: int)
    requires p.decayPerS >= 0.0 && c.count >= 0.0
    ensures var v := c.count - Drained(p, Max(now, c.lastNs) - c.lastNs);
            CountAt(p, c, now) == if v > 0.0 then v else 0.0
  {
    DrainedGrows(p, 0);
    LeakIsDrained(p, c.lastNs, now);
    hide Leak, Drained;
  }

  lemma TotalGrows(cs: seq<Charge>, k: Charge, i: nat)
    requires i <= |cs|
    ensures TotalCost((cs + [k])[i..]) == TotalCost(cs[i..]) + Cost(k.op, k.age)
  {
    hide Cost;
    var more := (cs + [k])[i..];
    assert more[..|more| - 1] == cs[i..];
  }

  lemma ClockGrows(cs: seq<Charge>, k: Charge)
    ensures Clock(cs + [k]) == Max(Clock(cs), k.now)
  {
    assert (cs + [k])[..|cs|] == cs;
  }

  /** One more charge: its cost is added to what an older suffix still carries when it is made. */
  lemma OlderGrows(p: Params, cs: seq<Charge>, k: Charge, i: nat, now: int)
    requires i < |cs|
    ensures var more, t := cs + [k], Max(Clock(cs), k.now);
            Unleaked(p, more, i, now)
            == Unleaked(p, cs, i, k.now) + Cost(k.op, k.age) as real - Drained(p, Max(now, t) - t)
  {
    hide Cost, Drained, TotalCost, Clock;
    var more, t := cs + [k], Max(Clock(cs), k.now);
    TotalGrows(cs, k, i);
    ClockGrows(cs, k);
    assert more[..i + 1] == cs[..i + 1];
    DrainedAdds(p, Max(now, t) - t, t - Clock(cs[..i + 1]));
  }

  lemma NewestCosts(p: Params, cs: seq<Charge>, k: Charge, now: int)
    ensures var more, t := cs + [k], Max(Clock(cs), k.now);
            Unleaked(p, more, |cs|, now) == Cost(k.op, k.age) as real - Drained(p, Max(now, t) - t)
  {
    hide Cost, Drained, TotalCost, Clock;
    ClockGrows(cs, k);
    LastSuffix(cs, k);
  }

  lemma LastSuffix(cs: seq<Charge>, k: Charge)
    ensures (cs + [k])[..|cs| + 1] == cs + [k] && TotalCost((cs + [k])[|cs|..]) == Cost(k.op, k.age)
  {
    hide Cost;
    assert (cs + [k])[|cs|..] == [k] && [k][..0] == [];
  }

  lemma BacklogGrows(p: Params, cs: seq<Charge>, k: Charge, now: int, v: real)
    requires p.decayPerS >= 0.0 && IsBacklog(p, cs, k.now, v)
    ensures var t := Max(Clock(cs), k.now);
            var w := v + Cost(k.op, k.age) as real - Drained(p, Max(now, t) - t);
            IsBacklog(p, cs + [k], now, if w > 0.0 then w else 0.0)
  {
    hide Cost, Unleaked, Drained;
    var more := cs + [k];
    forall i | 0 <= i < |more|
      ensures var t := Max(Clock(cs), k.now);
              Unleaked(p, more, i, now) ==
                (if i < |cs| then Unleaked(p, cs, i, k.now) else 0.0) + Cost(k.op, k.age) as real
                - Drained(p, Max(now, t) - t)
    {
      if i < |cs| {
        OlderGrows(p, cs, k, i, now);
      } else {
        NewestCosts(p, cs, k, now);
      }
    }
    var i :| 0 <= i < |more| && if v == 0.0 then i == |cs| else i < |cs| && Unleaked(p, cs, i, k.now) == v;
    assert Unleaked(p, more, i, now) == v + Cost(k.op, k.age) as real
                                       - Drained(p, Max(now, Max(Clock(cs), k.now)) - Max(Clock(cs), k.now));
  }

  /**
   The count at any time is the backlog of the charges made: nothing stays that the decay has had
   time to take, and nothing goes that it has not.
   */
  lemma {:induction false} CountIsBacklog(p: Params, cs: seq<Charge>, now: int)
    requires p.decayPerS >= 0.0
    ensures IsBacklog(p, cs, now, CountAt(p, After(p, NO_CHARGE, cs), now))
  {
    hide Unleaked, Cost, Drained, CountAt;
    CountNonNegative(p, NO_CHARGE, cs);
    ClockIs(p, cs);
    CountLater(p, After(p, NO_CHARGE, cs), now);
    if cs == [] {
      DrainedGrows(p, Max(now, 0));
    } else {
      var front, k := cs[..|cs| - 1], cs[|cs| - 1];
      CountIsBacklog(p, front, k.now);
      ClockIs(p, front);
      BacklogGrows(p, front, k, now, CountAt(p, After(p, NO_CHARGE, front), k.now));
      assert front + [k] == cs;
    }
  }

  /**
   An operation is refused if and only if its own cost alone, or that of some suffix of the charges less
   what has leaked since it began, would pass the usable maximum.
   */
  lemma RefusedExact(p: Params, cs: seq<Charge>, op: RateOp, age: int, now: int)
    requires p.decayPerS >= 0.0
    ensures var room := p.max - p.margin - Cost(op, age) as real;
            !Allows(p, After(p, NO_CHARGE, cs), op, age, now)
            <==> room < 0.0 || exists i :: 0 <= i < |cs| && Unleaked(p, cs, i, now) > room
  {
    hide Unleaked, Cost, CountAt, After;
    CountIsBacklog(p, cs, now);
  }

  /** Once the counter has had time to drain, the whole budget is back. */
  lemma IdleFrees(p: Params, cs: seq<Charge>, now: int)
    requires p.decayPerS >= 0.0 && now >= Clock(cs)
    requires After(p, NO_CHARGE, cs).count * 1_000_000_000.0 <= p.decayPerS * (now - Clock(cs)) as real
    ensures CountAt(p, After(p, NO_CHARGE, cs), now) == 0.0
  {
    hide CountAt, After;
    CountNonNegative(p, NO_CHARGE, cs);
    ClockIs(p, cs);
    CountLater(p, After(p, NO_CHARGE, cs), now);
  }

  /** The venue's answer for the charges that a model has in fact made. */
  lemma WouldAllowExact(rate: RateModel, inst: nat, op: RateOp, age: int, now: int)
    requires rate.Valid() && rate.enabled && rate.params.decayPerS >= 0.0 && inst < |rate.history|
    ensures var p, cs := rate.params, rate.history[inst];
            var room := p.max - p.margin - Cost(op, age) as real;
            !rate.WouldAllow(inst, op, age, now)
            <==> room < 0.0 || exists i :: 0 <= i < |cs| && Unleaked(p, cs, i, now) > room
  {
    hide Unleaked, Cost, Allows, After;
    RefusedExact(rate.params, rate.history[inst], op, age, now);
  }

  /** The budget shown is what the backlog leaves of the usable maximum. */
  lemma BudgetExact(rate: RateModel, inst: nat, now: int)
    requires rate.Valid() && rate.enabled && rate.params.decayPerS >= 0.0 && inst < |rate.history|
    ensures var p := rate.params;
            IsBacklog(p, rate.history[inst], now, p.max - p.margin - rate.Budget(inst, now))
  {
    hide Unleaked, Cost, Allows, After, IsBacklog, CountAt;
    CountIsBacklog(rate.params, rate.history[inst], now);
  }

  lemma {:induction false} AddsAtOnce(p: Params, cs: seq<Charge>)
    requires p.decayPerS >= 0.0 && forall j :: 0 <= j < |cs| ==> cs[j] == Record(Add, 0, 1_000_000_000)
    ensures cs != [] ==> After(p, NO_CHARGE, cs) == Counter(|cs| as real, 1_000_000_000)
  {
    if |cs| == 1 {
      assert After(p, NO_CHARGE, []) == NO_CHARGE;
      CountLater(p, NO_CHARGE, 1_000_000_000);
      DrainedGrows(p, 1_000_000_000);
    } else if cs != [] {
      AddsAtOnce(p, cs[..|cs| - 1]);
    }
  }

  /** Fifty-five adds at once fill the default budget; an hour later it is free again. */
  lemma HourFrees(cs: seq<Charge>)
    requires |cs| == 55 && forall j :: 0 <= j < |cs| ==> cs[j] == Record(Add, 0, 1_000_000_000)
    ensures var p := Params(60.0, 1.0, 60, 5.0);
            && !Allows(p, After(p, NO_CHARGE, cs), Add, 0, 1_000_000_000)
            && Allows(p, After(p, NO_CHARGE, cs), Add, 0, 3_601_000_000_000)
  {
    AddsAtOnce(Params(60.0, 1.0, 60, 5.0), cs);
  }
}
