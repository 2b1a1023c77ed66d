/**
 What a live order has behind it and ahead of it at the null venue: the poll that took its Ack, and exactly
 the answers still queued for it. Its age, which amends and cancels are charged at, runs from that poll.
 */
module OrderLives {
  import opened Common
  import opened OrderTypes
  import opened AccountModule
  import opened Engine
  import opened LegalRuns
  import opened NullVenue
  import opened RatedRuns
  import opened RateModelModule

  /** An answer of this kind is queued for the order. */
  ghost predicate Awaits(q: seq<Report>, id: nat, kind: ExecType) {
    exists j :: 0 <= j < |q| && q[j].id == id && q[j].kind == kind
  }

  /** When polls took Acks, by order. */
  function AckStep(s: Sys, a: NullAction, times: map<nat, int>): map<nat, int> {
    if a.NPoll? && s.q != [] && s.q[0].kind == Acked then times[s.q[0].id := a.now] else times
  }

  function AckTimes(c: Config, s: Sys, actions: seq<NullAction>): map<nat, int>
    requires Ok(s.e)
  {
    if actions == [] then map[]
    else
      var n := |actions| - 1;
      AckStep(NRun(c, s, actions[..n]), actions[n], AckTimes(c, s, actions[..n]))
  }

  /** A live order is acked once its Ack is taken, and awaits exactly what it has asked for. */
  ghost predicate Lives(r: OrderRow, q: seq<Report>, times: map<nat, int>) {
    && (Awaits(q, r.id, Acked) <==> r.id !in times)
    && r.tAck == (if r.id in times then times[r.id] else 0)
    && r.status == (if r.id in times then New else PendingNew)
    && (Awaits(q, r.id, Expired) <==> r.tif == IOC || r.tif == FOK)
    && (Awaits(q, r.id, Canceled) <==> r.pendingCancel)
    && (Awaits(q, r.id, Replaced) <==> r.pendingReplace)
    && r.cum == 0 && r.leaves == r.qty
  }

  ghost predicate AllLive(rows: seq<OrderRow>, q: seq<Report>, times: map<nat, int>) {
    forall i :: 0 <= i < |rows| ==> Lives(rows[i], q, times)
  }

  ghost predicate TimesIssued(e: Engine, times: map<nat, int>) {
    forall id :: id in times ==> id <= e.gen * COUNTER_IDS + e.counter
  }

  // The queue.

  /** An answer added is awaited by its order alone. */
  lemma AwaitsMore(q: seq<Report>, r: Report)
    ensures forall id, kind :: Awaits(q + [r], id, kind) <==> Awaits(q, id, kind) || (id == r.id && kind == r.kind)
  {
    forall id, kind
      ensures Awaits(q + [r], id, kind) <==> Awaits(q, id, kind) || (id == r.id && kind == r.kind)
    {
      if Awaits(q, id, kind) {
        var j :| 0 <= j < |q| && q[j].id == id && q[j].kind == kind;
        assert (q + [r])[j] == q[j];
      }
      assert (q + [r])[|q|] == r;
    }
  }

  /** An answer taken is the only one that may no longer be awaited. */
  lemma AwaitsLess(q: seq<Report>)
    requires q != []
    ensures forall id, kind :: Awaits(q[1..], id, kind) ==> Awaits(q, id, kind)
    ensures forall id, kind ::
              Awaits(q, id, kind) && !Awaits(q[1..], id, kind) ==> id == q[0].id && kind == q[0].kind
  {
    forall id, kind
      ensures Awaits(q[1..], id, kind) ==> Awaits(q, id, kind)
      ensures Awaits(q, id, kind) && !Awaits(q[1..], id, kind) ==> id == q[0].id && kind == q[0].kind
    {
      if Awaits(q[1..], id, kind) {
        var j :| 0 <= j < |q[1..]| && q[1..][j].id == id && q[1..][j].kind == kind;
        assert q[j + 1] == q[1..][j];
      }
      if Awaits(q, id, kind) {
        var j :| 0 <= j < |q| && q[j].id == id && q[j].kind == kind;
        assert j > 0 ==> q[1..][j - 1] == q[j];
      }
    }
  }

  /** Nothing of the kind taken stays queued: Acks come first, and a replace is answered once. */
  lemma TakenOnce(rows: seq<OrderRow>, q: seq<Report>)
    requires Paired(rows, q) && q != []
    ensures q[0].kind == Acked || q[0].kind == Replaced ==> !Awaits(q[1..], q[0].id, q[0].kind)
    ensures !Awaits(q[1..], q[0].id, Acked)
  {
    hide FindRow;
    AfterFirst(q);
  }

  lemma AfterFirst(q: seq<Report>)
    requires q != []
    ensures forall id, kind ::
              Awaits(q[1..], id, kind) ==> exists j :: 0 < j < |q| && q[j].id == id && q[j].kind == kind
  {
    forall id, kind | Awaits(q[1..], id, kind)
      ensures exists j :: 0 < j < |q| && q[j].id == id && q[j].kind == kind
    {
      var j :| 0 <= j < |q[1..]| && q[1..][j].id == id && q[1..][j].kind == kind;
      assert q[j + 1] == q[1..][j];
    }
  }

  // Steps.

  lemma SubmitLives(s: Sys, r: OrderRow, times: map<nat, int>)
    requires IdsKnown(s.e, s.q) && TimesIssued(s.e, times) && AllLive(s.e.rows, s.q, times)
    requires FindRow(s.e.rows, r.id).None? && r.id > s.e.gen * COUNTER_IDS + s.e.counter
    requires r.status == PendingNew && r.tAck == 0 && !r.pendingCancel && !r.pendingReplace
    requires r.cum == 0 && r.leaves == r.qty
    ensures AllLive(s.e.rows + [r], s.q + Answers(r.id, NewReq, r.tif), times)
  {
    hide FindRow;
    AwaitsMore(s.q, Answer(r.id, Acked));
    AwaitsMore(s.q + [Answer(r.id, Acked)], Answer(r.id, Expired));
    assert forall kind :: !Awaits(s.q, r.id, kind);
    assert s.q + Answers(r.id, NewReq, r.tif)
           == if Fleeting(NewReq, r.tif) then s.q + [Answer(r.id, Acked)] + [Answer(r.id, Expired)]
              else s.q + [Answer(r.id, Acked)];
  }

  lemma RequestLives(rows: seq<OrderRow>, q: seq<Report>, p: nat, r: OrderRow, kind: ExecType, times: map<nat, int>)
    requires UniqueIds(rows) && AllLive(rows, q, times) && p < |rows|
    requires (kind == Canceled && r == rows[p].(pendingCancel := true))
             || (kind == Replaced && r == rows[p].(pendingReplace := true, newPx := r.newPx, newQty := r.newQty))
    ensures AllLive(rows[p := r], q + [Answer(r.id, kind)], times)
  {
    AwaitsMore(q, Answer(r.id, kind));
    assert forall i :: 0 <= i < |rows| && i != p ==> rows[i].id != rows[p].id;
  }

  /** An answer that its order outlives: an Ack or a Replaced. */
  lemma AnswerLives(rows: seq<OrderRow>, q: seq<Report>, p: nat, r: OrderRow, now: int, times: map<nat, int>)
    requires Paired(rows, q) && AllLive(rows, q, times) && q != [] && p < |rows| && q[0].id == rows[p].id
    requires (q[0].kind == Acked && r == rows[p].(status := New, tAck := now))
             || (q[0].kind == Replaced && r == ReplacedRow(rows[p]))
    ensures AllLive(rows[p := r], q[1..], if q[0].kind == Acked then times[q[0].id := now] else times)
  {
    hide FindRow, Paired;
    AwaitsLess(q);
    TakenOnce(rows, q);
    PairedUnfilled(rows, q, p);
    PairedUnique(rows, q);
    assert forall i :: 0 <= i < |rows| && i != p ==> rows[i].id != rows[p].id;
  }

  lemma PairedUnique(rows: seq<OrderRow>, q: seq<Report>)
    requires Paired(rows, q)
    ensures UniqueIds(rows)
  {
  }

  /** An answer that ends its order, or finds it gone. */
  lemma EndLives(rows: seq<OrderRow>, q: seq<Report>, left: seq<OrderRow>, times: map<nat, int>)
    requires AllLive(rows, q, times) && q != [] && q[0].kind != Acked
    requires forall i :: 0 <= i < |left| ==> left[i] in rows && left[i].id != q[0].id
    ensures AllLive(left, q[1..], times)
  {
    AwaitsLess(q);
  }

  lemma LeftAfter(rows: seq<OrderRow>, p: nat)
    requires UniqueIds(rows) && p < |rows|
    ensures var left := SwapRemove(rows, p);
            forall i :: 0 <= i < |left| ==> left[i] in rows && left[i].id != rows[p].id
  {
  }

  lemma AckFound(rows: seq<OrderRow>, q: seq<Report>)
    requires Paired(rows, q) && q != [] && q[0].kind == Acked
    ensures FindRow(rows, q[0].id).Some?
  {
  }

  lemma PollLives(e: Engine, q: seq<Report>, now: int, times: map<nat, int>)
    requires Ok(e) && IdsKnown(e, q) && Paired(e.rows, q) && AllLive(e.rows, q, times) && q != []
    ensures AllLive(ApplyReport(e, q[0], now).rows, q[1..],
                    if q[0].kind == Acked then times[q[0].id := now] else times)
  {
    hide FindRow, Release, Reserve, WellFormed, Paired, Lives, AllLive, SwapRemove;
    var p := FindRow(e.rows, q[0].id);
    if q[0].kind == Acked {
      AckFound(e.rows, q);
    }
    if p.None? {
      EndLives(e.rows, q, e.rows, times);
    } else if q[0].kind == Acked {
      AnswerLives(e.rows, q, p.value, e.rows[p.value].(status := New, tAck := now), now, times);
    } else if q[0].kind == Replaced {
      AnswerLives(e.rows, q, p.value, ReplacedRow(e.rows[p.value]), now, times);
    } else {
      LeftAfter(e.rows, p.value);
      EndLives(e.rows, q, SwapRemove(e.rows, p.value), times);
    }
  }

  lemma SubmitStepLives(c: Config, s: Sys, q: Request, v: Env, times: map<nat, int>)
    requires NullOk(s) && NLegal(s, NSubmit(q, v)) && AllLive(s.e.rows, s.q, times) && TimesIssued(s.e, times)
    ensures var t := NStep(c, s, NSubmit(q, v)); AllLive(t.e.rows, t.q, times) && TimesIssued(t.e, times)
  {
    hide FindRow, SubmitVerdict, Submit, SameShape, Answers, Paired, Lives, WellFormed;
    SubmitOutcome(c, s.e, q, v, Fits(s, NewReq, q.tif));
    if SubmitVerdict(c, s.e, q, v) == NoReject && Fits(s, NewReq, q.tif) {
      SubmitLives(s, NewRow(q, NextId(s.e.gen, s.e.counter), v), times);
    }
  }

  lemma RequestStepLives(c: Config, s: Sys, a: NullAction, times: map<nat, int>)
    requires NullOk(s) && (a.NReplace? || a.NCancel?) && AllLive(s.e.rows, s.q, times) && TimesIssued(s.e, times)
    ensures var t := NStep(c, s, a); AllLive(t.e.rows, t.q, times) && TimesIssued(t.e, times)
  {
    hide FindRow, CheckReplace, SameShape, Answers, Paired, Lives, WellFormed;
    OneAnswer(a.id);
    if a.NReplace? && ReplaceAsked(c, s.e, a.id, a.px, a.qty, a.env) && Fits(s, ReplaceReq, GTC) {
      var p := FindRow(s.e.rows, a.id).value;
      var r := s.e.rows[p].(pendingReplace := true, newPx := a.px, newQty := a.qty);
      RequestLives(s.e.rows, s.q, p, r, Replaced, times);
    } else if a.NCancel? && CancelAsked(s.e, a.id) && Fits(s, CancelReq, GTC) {
      var p := FindRow(s.e.rows, a.id).value;
      RequestLives(s.e.rows, s.q, p, s.e.rows[p].(pendingCancel := true), Canceled, times);
    }
  }

  /** Every step of the system keeps what its orders have behind and ahead of them. */
  lemma StepLives(c: Config, s: Sys, a: NullAction, times: map<nat, int>)
    requires NullOk(s) && NLegal(s, a) && AllLive(s.e.rows, s.q, times) && TimesIssued(s.e, times)
    ensures var t := NStep(c, s, a);
            AllLive(t.e.rows, t.q, AckStep(s, a, times)) && TimesIssued(t.e, AckStep(s, a, times))
  {
    hide FindRow, Submit, Replace, SameShape, ApplyReport, Paired, Lives, AllLive, WellFormed;
    match a {
      case NSubmit(q, v) => SubmitStepLives(c, s, q, v, times);
      case NReplace(_, _, _, _) => RequestStepLives(c, s, a, times);
      case NCancel(_) => RequestStepLives(c, s, a, times);
      case NPoll(now) =>
        if s.q != [] {
          PollLives(s.e, s.q, now, times);
          PollIds(s.e, s.q[0], now);
        }
      case NMark(inst, bid, ask) =>
    }
  }

  lemma OneAnswer(id: nat)
    ensures Answers(id, ReplaceReq, GTC) == [Answer(id, Replaced)]
    ensures Answers(id, CancelReq, GTC) == [Answer(id, Canceled)]
  {
  }

  lemma PollIds(e: Engine, rep: Report, now: int)
    requires Ok(e)
    ensures ApplyReport(e, rep, now).gen == e.gen && ApplyReport(e, rep, now).counter == e.counter
  {
    hide FindRow, Release, Reserve, OnFill, WellFormed;
  }

  // Runs.

  /**
   In every run from a fresh start a live order's Ack is queued or has been taken, and its ack time is that of the
   poll that took it; its Expired is queued if and only if it is IOC or FOK, its Canceled and its Replaced if and
   only if it has asked for them.
   */
  lemma {:induction false} RunLives(c: Config, s: Sys, actions: seq<NullAction>)
    requires Fresh(s) && NLegalRun(c, s, actions)
    ensures var t := NRun(c, s, actions);
            && NullOk(t) && AllLive(t.e.rows, t.q, AckTimes(c, s, actions))
            && TimesIssued(t.e, AckTimes(c, s, actions))
  {
    hide NStep, NullOk, NLegal, Lives, Acks, AckStep;
    if actions == [] {
      NullRunsBalance(c, s, actions);
    } else {
      var n := |actions| - 1;
      NLegalFront(c, s, actions);
      RunLives(c, s, actions[..n]);
      var b := NRun(c, s, actions[..n]);
      StepLives(c, b, actions[n], AckTimes(c, s, actions[..n]));
      StepKeepsNullOk(c, b, actions[n]);
    }
  }

  lemma NLegalFront(c: Config, s: Sys, actions: seq<NullAction>)
    requires Ok(s.e) && NLegalRun(c, s, actions) && actions != []
    ensures var n := |actions| - 1;
            NLegalRun(c, s, actions[..n]) && NLegal(NRun(c, s, actions[..n]), actions[n])
  {
    hide NStep, NLegal, Ok, NRun;
    var front := actions[..|actions| - 1];
    forall j | 0 <= j < |front|
      ensures front[..j] == actions[..j] && front[j] == actions[j]
    {
    }
  }

  /** Once everything queued is polled, each live order is one that rests: acked, nothing pending, not IOC or FOK. */
  lemma PolledRests(c: Config, s: Sys, actions: seq<NullAction>, i: nat)
    requires Fresh(s) && NLegalRun(c, s, actions) && NRun(c, s, actions).q == []
    requires i < |NRun(c, s, actions).e.rows|
    ensures var r := NRun(c, s, actions).e.rows[i];
            && r.tif != IOC && r.tif != FOK && !r.pendingCancel && !r.pendingReplace
            && r.status == New && r.id in AckTimes(c, s, actions) && r.tAck == AckTimes(c, s, actions)[r.id]
  {
    hide NStep, NullOk, NLegal, NRun, AckTimes, NLegalRun;
    RunLives(c, s, actions);
  }

  // The rate counters.

  /** Time since the order's Ack was polled; none before that, or when the clock showed 0. */
  function Since(times: map<nat, int>, id: nat, now: int): int {
    if id in times && times[id] != 0 then now - times[id] else 0
  }

  /** What was taken before the k-th action of a run with rate counters. */
  function TimesBefore(c: Config, m: Tariff, x: Rated, actions: seq<Timed>, k: nat): map<nat, int>
    requires Ok(x.s.e) && k <= |actions|
  {
    AckTimes(c, x.s, Done(c, m, x, actions[..k]))
  }

  /** The counter pays the cost at that age, on top of what has not leaked. */
  ghost predicate Pays(m: Tariff, before: seq<Counter>, after: seq<Counter>, inst: nat, cost: nat, now: int) {
    |after| == |before|
    && forall i :: 0 <= i < |before| ==>
         after[i] == if m.enabled && i == inst
                     then Counter(CountAt(m.params, before[i], now) + cost as real, Max(now, before[i].lastNs))
                     else before[i]
  }

  lemma {:induction false} DoneFront(c: Config, m: Tariff, x: Rated, actions: seq<Timed>, k: nat)
    requires Ok(x.s.e) && k <= |actions|
    ensures Done(c, m, x, actions)[..k] == Done(c, m, x, actions[..k])
  {
    hide Ok, Answered, RStep;
    if k < |actions| {
      var n := |actions| - 1;
      DoneFront(c, m, x, actions[..n], k);
      assert actions[..n][..k] == actions[..k];
      assert Done(c, m, x, actions)[..n] == Done(c, m, x, actions[..n]);
    } else {
      assert actions[..k] == actions;
    }
  }

  lemma NLegalPrefix(c: Config, s: Sys, actions: seq<NullAction>, k: nat)
    requires Ok(s.e) && NLegalRun(c, s, actions) && k <= |actions|
    ensures NLegalRun(c, s, actions[..k])
  {
    hide NStep, NLegal, Ok, NRun;
    forall j | 0 <= j < k
      ensures actions[..k][..j] == actions[..j] && actions[..k][j] == actions[j]
    {
    }
  }

  /** Before each action of a run the live orders' ages run from the polls that took their Acks. */
  lemma AgesBefore(c: Config, m: Tariff, x: Rated, actions: seq<Timed>, k: nat)
    requires Fresh(x.s) && NLegalRun(c, x.s, Done(c, m, x, actions)) && k <= |actions|
    ensures Ok(x.s.e)
    ensures var y := RRun(c, m, x, actions[..k]);
            && UniqueIds(y.s.e.rows)
            && forall i, now :: 0 <= i < |y.s.e.rows| ==>
                 Age(y.s.e.rows[i], now) == Since(TimesBefore(c, m, x, actions, k), y.s.e.rows[i].id, now)
  {
    hide NStep, NullOk, NLegal, NRun, RRun, RStep, AckTimes, NLegalRun, Done;
    var done := Done(c, m, x, actions);
    DoneFront(c, m, x, actions, k);
    NLegalPrefix(c, x.s, done, k);
    RunLives(c, x.s, done[..k]);
    RatedIsRun(c, m, x, actions[..k]);
    assert Ok(RRun(c, m, x, actions[..k]).s.e);
  }

  /** Every routed cancel is charged by exactly the time since its order's Ack was polled. */
  lemma CancelCharged(c: Config, m: Tariff, x: Rated, actions: seq<Timed>, k: nat) returns (i: nat)
    requires Fresh(x.s) && NLegalRun(c, x.s, Done(c, m, x, actions)) && k < |actions| && actions[k].a.NCancel?
    requires RRun(c, m, x, actions[..k + 1]).s.e.st.ordersCancel > RRun(c, m, x, actions[..k]).s.e.st.ordersCancel
    ensures var y, z := RRun(c, m, x, actions[..k]), RRun(c, m, x, actions[..k + 1]);
            var id, now := actions[k].a.id, actions[k].now;
            && i < |y.s.e.rows| && y.s.e.rows[i].id == id
            && Pays(m, y.counters, z.counters, y.s.e.rows[i].instrument,
                    Cost(RateOp.Cancel, Since(TimesBefore(c, m, x, actions, k), id, now)), now)
  {
    hide RRun, Done, TimesBefore, NLegalRun, Fresh, Cost, CountAt, FindRow, Ok, SameShape, Age, Since;
    AgesBefore(c, m, x, actions, k);
    RunOn(c, m, x, actions, k);
    var y := RRun(c, m, x, actions[..k]);
    i := FindRow(y.s.e.rows, actions[k].a.id).value;
  }

  /** So is every routed replace, and its answer from the gate is the counter's room for that cost. */
  lemma ReplaceCharged(c: Config, m: Tariff, x: Rated, actions: seq<Timed>, k: nat) returns (i: nat)
    requires Fresh(x.s) && NLegalRun(c, x.s, Done(c, m, x, actions)) && k < |actions| && actions[k].a.NReplace?
    requires RRun(c, m, x, actions[..k + 1]).s.e.st.ordersReplace > RRun(c, m, x, actions[..k]).s.e.st.ordersReplace
    ensures var y, z := RRun(c, m, x, actions[..k]), RRun(c, m, x, actions[..k + 1]);
            var id, now := actions[k].a.id, actions[k].a.env.now;
            && i < |y.s.e.rows| && y.s.e.rows[i].id == id
            && Pays(m, y.counters, z.counters, y.s.e.rows[i].instrument,
                    Cost(RateOp.Amend, Since(TimesBefore(c, m, x, actions, k), id, now)), now)
  {
    hide RRun, Done, TimesBefore, NLegalRun, Fresh, Cost, CountAt, FindRow, Ok, SameShape, Age, Since, CheckReplace;
    AgesBefore(c, m, x, actions, k);
    RunOn(c, m, x, actions, k);
    var y := RRun(c, m, x, actions[..k]);
    i := FindRow(y.s.e.rows, actions[k].a.id).value;
  }
}
