/** Kraken's per-pair rate counter as a leaky bucket. Counts are reals, times integer nanoseconds. */
module RateModelModule {

  const SEC_NS: int := 1_000_000_000

  datatype RateOp = Add | Amend | Cancel

  datatype Params = Params(max: real, decayPerS: real, maxOpen: nat, margin: real)

  datatype Counter = Counter(count: real, lastNs: int)

  /** Cost of an operation on an order of this age: an amend's or cancel's falls in steps. */
  function Cost(op: RateOp, age: int): (c: nat)
    ensures c <= 8 && (op != Cancel ==> 1 <= c <= 4)
  {
    match op
    case Add => 1
    case Amend =>
      1 + if age < 5 * SEC_NS then 3 else if age < 10 * SEC_NS then 2 else if age < 15 * SEC_NS then 1 else 0
    case Cancel =>
      if age < 5 * SEC_NS then 8 else if age < 10 * SEC_NS then 6 else if age < 15 * SEC_NS then 5
      else if age < 45 * SEC_NS then 4 else if age < 90 * SEC_NS then 2 else if age < 300 * SEC_NS then 1 else 0
  }

  /** Waiting never makes an operation dearer. */
  lemma CostFalls(op: RateOp, age: int, later: int)
    requires age <= later
    ensures Cost(op, later) <= Cost(op, age)
  {
  }

  /** The venue's cost for an age in milliseconds. */
  predicate Costs(op: RateOp, ms: nat, cost: nat) {
    Cost(op, ms * 1_000_000) == cost
  }

  /** The vectors of costs that the program shares with its research tools. */
  lemma CostVectors()
    ensures Costs(Add, 0, 1) && Costs(Add, 600000, 1)
    ensures Costs(Amend, 0, 4) && Costs(Amend, 4999, 4) && Costs(Amend, 5000, 3) && Costs(Amend, 9999, 3)
    ensures Costs(Amend, 10000, 2) && Costs(Amend, 14999, 2) && Costs(Amend, 15000, 1) && Costs(Amend, 600000, 1)
    ensures Costs(Cancel, 0, 8) && Costs(Cancel, 4999, 8) && Costs(Cancel, 5000, 6) && Costs(Cancel, 9999, 6)
    ensures Costs(Cancel, 10000, 5) && Costs(Cancel, 14999, 5) && Costs(Cancel, 15000, 4) && Costs(Cancel, 44999, 4)
    ensures Costs(Cancel, 45000, 2) && Costs(Cancel, 89999, 2) && Costs(Cancel, 90000, 1) && Costs(Cancel, 299999, 1)
    ensures Costs(Cancel, 300000, 0)
  {
  }

  /** What leaks out between two times. */
  function Leak(p: Params, fromNs: int, toNs: int): real {
    p.decayPerS * (toNs - fromNs) as real / SEC_NS as real
  }

  /** The count at a time; a clock that has stepped back leaks nothing. */
  function CountAt(p: Params, c: Counter, now: int): real {
    if now <= c.lastNs then c.count
    else
      var v := c.count - Leak(p, c.lastNs, now);
      if v > 0.0 then v else 0.0
  }

  predicate Allows(p: Params, c: Counter, op: RateOp, age: int, now: int) {
    CountAt(p, c, now) + Cost(op, age) as real <= p.max - p.margin
  }

  function Charged(p: Params, c: Counter, op: RateOp, age: int, now: int): Counter {
    Counter(CountAt(p, c, now) + Cost(op, age) as real, if now > c.lastNs then now else c.lastNs)
  }

  // One charge of an instrument's counter, as submit, replace and cancel make them.
  datatype Charge = Record(op: RateOp, age: int, now: int)

  /** The counter after the charges; only adds and amends are gated, so any sequence may occur. */
  function After(p: Params, c: Counter, cs: seq<Charge>): Counter {
    if cs == [] then c
    else
      var last := cs[|cs| - 1];
      Charged(p, After(p, c, cs[..|cs| - 1]), last.op, last.age, last.now)
  }

  const NO_CHARGE: Counter := Counter(0.0, 0)

  /** Every add and amend fitted the budget left by the charges before it. */
  ghost predicate Gated(p: Params, cs: seq<Charge>) {
    forall j :: 0 <= j < |cs| && cs[j].op != Cancel ==>
      Allows(p, After(p, NO_CHARGE, cs[..j]), cs[j].op, cs[j].age, cs[j].now)
  }

  lemma GateOne(p: Params, cs: seq<Charge>, k: Charge)
    requires Gated(p, cs) && (k.op != Cancel ==> Allows(p, After(p, NO_CHARGE, cs), k.op, k.age, k.now))
    ensures Gated(p, cs + [k])
  {
    hide Allows, After;
    forall j | 0 <= j <= |cs|
      ensures (cs + [k])[..j] == cs[..j]
    {
    }
    assert cs[..|cs|] == cs;
  }

  class RateModel {
    const enabled: bool
    const params: Params
    const counters: array<Counter>
    // Every charge made, per instrument.
    ghost var history: seq<seq<Charge>>

    ghost predicate Valid()
      reads this, counters
    {
      |history| == counters.Length
      && forall i :: 0 <= i < counters.Length ==> counters[i] == After(params, NO_CHARGE, history[i])
    }

    ghost predicate AllGated()
      reads this
    {
      forall i :: 0 <= i < |history| ==> Gated(params, history[i])
    }

    constructor (enabled: bool, params: Params, instruments: nat)
      ensures this.enabled == enabled && this.params == params && fresh(counters) && counters.Length == instruments
      ensures Valid() && AllGated() && history == seq(instruments, _ => [])
    {
      this.enabled, this.params := enabled, params;
      counters := new Counter[instruments](_ => NO_CHARGE);
      history := seq(instruments, _ => []);
    }

    /** Headroom under max less margin; an operation is allowed exactly when it fits the headroom. */
    function Budget(inst: nat, now: int): (b: real)
      requires inst < counters.Length
      reads counters
      ensures enabled ==> forall op, age :: Cost(op, age) as real <= b <==> WouldAllow(inst, op, age, now)
    {
      if enabled then params.max - params.margin - CountAt(params, counters[inst], now)
      else 1000000000000000000.0
    }

    predicate WouldAllow(inst: nat, op: RateOp, age: int, now: int)
      requires inst < counters.Length
      reads counters
    {
      !enabled || Allows(params, counters[inst], op, age, now)
    }

    method Charge(inst: nat, op: RateOp, age: int, now: int)
      requires Valid() && inst < counters.Length
      modifies this`history, counters
      ensures Valid()
      ensures counters[inst] == if enabled then Charged(params, old(counters[inst]), op, age, now)
                                else old(counters[inst])
      ensures forall i :: 0 <= i < counters.Length && i != inst ==> counters[i] == old(counters[i])
      ensures history == if enabled then old(history)[inst := old(history[inst]) + [Record(op, age, now)]]
                         else old(history)
      ensures old(AllGated()) && (op == Cancel || old(WouldAllow(inst, op, age, now))) ==> AllGated()
    {
      hide CountAt, Cost, Gated, Allows, After;
      if !enabled {
        return;
      }
      var c := counters[inst];
      var count := CountAt(params, c, now) + Cost(op, age) as real;
      counters[inst] := Counter(count, if now > c.lastNs then now else c.lastNs);
      Recorded(inst, Record(op, age, now), c);
      history := history[inst := history[inst] + [Record(op, age, now)]];
    }

    lemma Recorded(inst: nat, k: Charge, c: Counter)
      requires inst < |history| && c == After(params, NO_CHARGE, history[inst])
      ensures After(params, NO_CHARGE, history[inst] + [k]) == Charged(params, c, k.op, k.age, k.now)
      ensures AllGated() && (k.op == Cancel || Allows(params, c, k.op, k.age, k.now)) ==>
                Gated(params, history[inst] + [k])
    {
      hide Charged, Gated, Allows;
      assert (history[inst] + [k])[..|history[inst]|] == history[inst];
      if AllGated() && (k.op == Cancel || Allows(params, c, k.op, k.age, k.now)) {
        GateOne(params, history[inst], k);
      }
    }

    /** The bound of LeakyBucket, for the charges that were in fact made. */
    lemma ChargesLeak(inst: nat, i: nat, j: nat)
      requires Valid() && AllGated() && params.decayPerS >= 0.0 && inst < |history|
      requires i <= j < |history[inst]| && history[inst][j].op != Cancel
      ensures var cs := history[inst];
              TotalCost(cs[i..j + 1]) as real <= params.max - params.margin
                + Leak(params, After(params, NO_CHARGE, cs[..i + 1]).lastNs,
                       After(params, NO_CHARGE, cs[..j + 1]).lastNs)
    {
      hide Allows, After, Leak, TotalCost;
      assert Gated(params, history[inst]);
      LeakyBucket(params, NO_CHARGE, history[inst], i, j);
    }
  }

  function TotalCost(cs: seq<Charge>): nat {
    if cs == [] then 0 else TotalCost(cs[..|cs| - 1]) + Cost(cs[|cs| - 1].op, cs[|cs| - 1].age)
  }

  /** A charge adds its cost on top of what has not leaked, and the counter's time only advances. */
  lemma ChargeBounds(p: Params, c: Counter, op: RateOp, age: int, now: int)
    requires p.decayPerS >= 0.0 && c.count >= 0.0
    ensures var d := Charged(p, c, op, age, now);
            && d.lastNs >= c.lastNs && d.count >= Cost(op, age) as real
            && d.count >= c.count - Leak(p, c.lastNs, d.lastNs) + Cost(op, age) as real
  {
    hide Cost;
    assert Leak(p, c.lastNs, c.lastNs) == 0.0;
  }

  lemma LeakAdds(p: Params, a: int, b: int, c: int)
    ensures Leak(p, a, b) + Leak(p, b, c) == Leak(p, a, c)
  {
    assert (b - a) as real + (c - b) as real == (c - a) as real;
    assert p.decayPerS * (b - a) as real + p.decayPerS * (c - b) as real == p.decayPerS * (c - a) as real;
  }

  /** From charge i on, the count carries every later cost less what leaked since. */
  lemma {:induction false} CountCarries(p: Params, c: Counter, cs: seq<Charge>, i: nat)
    requires p.decayPerS >= 0.0 && c.count >= 0.0 && i < |cs|
    ensures After(p, c, cs).count >= 0.0
    ensures After(p, c, cs).count >=
            TotalCost(cs[i..]) as real - Leak(p, After(p, c, cs[..i + 1]).lastNs, After(p, c, cs).lastNs)
  {
    var front, last := cs[..|cs| - 1], cs[|cs| - 1];
    CountNonNegative(p, c, front);
    var b, d := After(p, c, front), After(p, c, cs);
    ChargeBounds(p, b, last.op, last.age, last.now);
    if i == |cs| - 1 {
      assert cs[..i + 1] == cs;
      assert cs[i..][..0] == [] && TotalCost(cs[i..]) == Cost(last.op, last.age);
      assert Leak(p, d.lastNs, d.lastNs) == 0.0;
    } else {
      CountCarries(p, c, front, i);
      assert front[..i + 1] == cs[..i + 1];
      assert cs[i..][..|cs| - i - 1] == front[i..];
      LeakAdds(p, After(p, c, cs[..i + 1]).lastNs, b.lastNs, d.lastNs);
    }
  }

  lemma {:induction false} CountNonNegative(p: Params, c: Counter, cs: seq<Charge>)
    requires p.decayPerS >= 0.0 && c.count >= 0.0
    ensures After(p, c, cs).count >= 0.0
  {
    if cs != [] {
      CountNonNegative(p, c, cs[..|cs| - 1]);
    }
  }

  /**
   Leaky bucket: whatever ungated cancels and backward clock steps lie between, the cost charged
   from charge i up to an accepted add or amend j is at most the usable maximum plus the leak
   over the counter's own time from i to j.
   */
  lemma LeakyBucket(p: Params, c: Counter, cs: seq<Charge>, i: nat, j: nat)
    requires p.decayPerS >= 0.0 && c.count >= 0.0 && i <= j < |cs|
    requires Allows(p, After(p, c, cs[..j]), cs[j].op, cs[j].age, cs[j].now)
    ensures TotalCost(cs[i..j + 1]) as real <=
            p.max - p.margin + Leak(p, After(p, c, cs[..i + 1]).lastNs, After(p, c, cs[..j + 1]).lastNs)
  {
    hide Cost, Leak;
    var upTo := cs[..j + 1];
    assert upTo[..j] == cs[..j] && upTo[..i + 1] == cs[..i + 1] && upTo[i..] == cs[i..j + 1];
    CountCarries(p, c, upTo, i);
  }
}
