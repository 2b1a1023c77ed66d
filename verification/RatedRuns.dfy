/**
 Runs of the engine and its queue together with the venue's rate counters: what the gate is told
 of the rate is read from the counters, and each request that is routed charges one of them.
 */
module RatedRuns {
  import opened OrderTypes
  import opened Engine
  import opened NullVenue
  import opened RateModelModule

  datatype Tariff = Tariff(enabled: bool, params: Params)

  datatype Rated = Rated(s: Sys, counters: seq<Counter>)

  // A cancel is charged by its order's age at this time; the other actions carry their own.
  datatype Timed = Timed(a: NullAction, now: int)

  /** The age that an amend or a cancel is charged at. */
  function Age(r: OrderRow, now: int): int {
    if r.tAck != 0 then now - r.tAck else 0
  }

  predicate Allowed(m: Tariff, counters: seq<Counter>, inst: nat, op: RateOp, age: int, now: int) {
    inst < |counters| && (!m.enabled || Allows(m.params, counters[inst], op, age, now))
  }

  function ChargeOne(m: Tariff, counters: seq<Counter>, inst: nat, op: RateOp, age: int, now: int): (r: seq<Counter>)
    ensures |r| == |counters|
  {
    if !m.enabled || inst >= |counters| then counters
    else counters[inst := Charged(m.params, counters[inst], op, age, now)]
  }

  /** The action with the answer that the counters give the gate. */
  function Answered(m: Tariff, x: Rated, a: NullAction): NullAction {
    match a
    case NSubmit(q, v) => NSubmit(q, v.(rateOk := Allowed(m, x.counters, q.instrument, Add, 0, v.now)))
    case NReplace(id, px, qty, v) =>
      var p := FindRow(x.s.e.rows, id);
      if p.None? then a
      else
        var r := x.s.e.rows[p.value];
        NReplace(id, px, qty, v.(rateOk := Allowed(m, x.counters, r.instrument, Amend, Age(r, v.now), v.now)))
    case _ => a
  }

  /** The counters after an action: the requests that reach the router are charged. */
  function CountersAfter(c: Config, m: Tariff, x: Rated, a: NullAction, now: int): seq<Counter>
    requires Ok(x.s.e)
  {
    var e := x.s.e;
    match a
    case NSubmit(q, v) =>
      if SubmitVerdict(c, e, q, v) == NoReject && Fits(x.s, NewReq, q.tif)
      then ChargeOne(m, x.counters, q.instrument, Add, 0, v.now) else x.counters
    case NReplace(id, px, qty, v) =>
      if ReplaceAsked(c, e, id, px, qty, v) && Fits(x.s, ReplaceReq, GTC)
      then
        var r := e.rows[FindRow(e.rows, id).value];
        ChargeOne(m, x.counters, r.instrument, Amend, Age(r, v.now), v.now)
      else x.counters
    case NCancel(id) =>
      if CancelAsked(e, id) && Fits(x.s, CancelReq, GTC)
      then
        var r := e.rows[FindRow(e.rows, id).value];
        ChargeOne(m, x.counters, r.instrument, Cancel, Age(r, now), now)
      else x.counters
    case _ => x.counters
  }

  /** Only a cancel is charged at the step's time; polls and marks charge nothing. */
  lemma OwnTime(c: Config, m: Tariff, x: Rated, a: NullAction, now: int)
    requires Ok(x.s.e)
    ensures a.NSubmit? || a.NReplace? ==> CountersAfter(c, m, x, a, now) == CountersAfter(c, m, x, a, a.env.now)
    ensures a.NPoll? || a.NMark? ==> CountersAfter(c, m, x, a, now) == x.counters
  {
    hide SubmitVerdict, ReplaceAsked, ChargeOne, FindRow, Ok;
  }

  function RStep(c: Config, m: Tariff, x: Rated, t: Timed): (y: Rated)
    requires Ok(x.s.e)
    ensures Ok(y.s.e)
  {
    var a := Answered(m, x, t.a);
    Rated(NStep(c, x.s, a), CountersAfter(c, m, x, a, t.now))
  }

  function RRun(c: Config, m: Tariff, x: Rated, actions: seq<Timed>): (y: Rated)
    requires Ok(x.s.e)
    ensures Ok(y.s.e)
  {
    if actions == [] then x else RStep(c, m, RRun(c, m, x, actions[..|actions| - 1]), actions[|actions| - 1])
  }

  /** The run's actions, each with the answer it was given. */
  function Done(c: Config, m: Tariff, x: Rated, actions: seq<Timed>): (d: seq<NullAction>)
    requires Ok(x.s.e)
    ensures |d| == |actions|
  {
    if actions == [] then []
    else
      var n := |actions| - 1;
      Done(c, m, x, actions[..n]) + [Answered(m, RRun(c, m, x, actions[..n]), actions[n].a)]
  }

  /** A run with counters is the engine's run of the actions as they were answered. */
  lemma {:induction false} RatedIsRun(c: Config, m: Tariff, x: Rated, actions: seq<Timed>)
    requires Ok(x.s.e)
    ensures RRun(c, m, x, actions).s == NRun(c, x.s, Done(c, m, x, actions))
  {
    hide NStep, Ok, Answered, CountersAfter;
    if actions != [] {
      var n := |actions| - 1;
      RatedIsRun(c, m, x, actions[..n]);
      assert Done(c, m, x, actions)[..n] == Done(c, m, x, actions[..n]);
    }
  }

  /** The k-th action done is the k-th asked for, answered from the counters of the run so far. */
  lemma {:induction false} DoneAt(c: Config, m: Tariff, x: Rated, actions: seq<Timed>, k: nat)
    requires Ok(x.s.e) && k < |actions|
    ensures Done(c, m, x, actions)[k] == Answered(m, RRun(c, m, x, actions[..k]), actions[k].a)
  {
    hide Ok, Answered, RStep;
    var n := |actions| - 1;
    if k < n {
      DoneAt(c, m, x, actions[..n], k);
      assert actions[..n][..k] == actions[..k];
    }
  }

  lemma RunOn(c: Config, m: Tariff, x: Rated, actions: seq<Timed>, k: nat)
    requires Ok(x.s.e) && k < |actions|
    ensures RRun(c, m, x, actions[..k + 1]) == RStep(c, m, RRun(c, m, x, actions[..k]), actions[k])
  {
    hide Ok, RStep;
    assert actions[..k + 1][..k] == actions[..k];
  }

  /** Market orders keep their mid whatever the gate answers. */
  lemma DonePriced(c: Config, m: Tariff, x: Rated, actions: seq<Timed>)
    requires Ok(x.s.e)
    requires forall j :: 0 <= j < |actions| && actions[j].a.NSubmit? ==> actions[j].a.env.mid2 >= 0
    ensures var d := Done(c, m, x, actions); forall j :: 0 <= j < |d| && d[j].NSubmit? ==> d[j].env.mid2 >= 0
  {
    hide Ok, RStep, Done, RRun, Allowed, FindRow;
    forall j | 0 <= j < |actions| && Done(c, m, x, actions)[j].NSubmit?
      ensures Done(c, m, x, actions)[j].env.mid2 >= 0
    {
      DoneAt(c, m, x, actions, j);
    }
  }
}
