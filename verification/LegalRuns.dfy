/**
 What the venue and the id space guarantee of a run, and what every such run keeps. A
 continuation is a run of reports alone: what the venue may still do to the orders it has.
 */
module LegalRuns {
  import opened Common
  import opened OrderTypes
  import opened AccountModule
  import opened Engine

  ghost predicate RowsSane(e: Engine) {
    forall i :: 0 <= i < |e.rows| ==>
      var r := e.rows[i];
      r.px >= 0 && r.leaves >= 0 && (r.pendingReplace ==> r.newPx > 0)
  }

  /** What the venue and the id space guarantee of each step. */
  predicate Legal(e: Engine, a: Action) {
    match a
    case SubmitA(_, v, _) => v.mid2 >= 0 && e.counter + 1 < COUNTER_IDS
    case ReportA(rep, _) =>
      var p := FindRow(e.rows, rep.id);
      p.Some? ==>
        var r := e.rows[p.value];
        && (rep.kind == PartialFill || rep.kind == FullFill ==> 0 <= rep.lastQty <= r.leaves)
        && (rep.kind == Replaced ==> r.pendingReplace && r.newQty >= r.cum)
    case _ => true
  }

  ghost predicate LegalRun(c: Config, e: Engine, actions: seq<Action>)
    requires Ok(e)
  {
    forall k {:trigger actions[k]} :: 0 <= k < |actions| ==> Legal(Run(c, e, actions[..k]), actions[k])
  }

  lemma VerdictMeans(c: Config, e: Engine, q: Request, v: Env)
    requires WellFormed(e.acct) && SubmitVerdict(c, e, q, v) == NoReject
    ensures Trades(e.acct, q.instrument) && q.qty > 0 && (q.ordType == Limit ==> q.px > 0)
  {
  }

  lemma ReplaceVerdictMeans(c: Config, e: Engine, r: OrderRow, px: int, qty: int, v: Env)
    requires WellFormed(e.acct) && Trades(e.acct, r.instrument) && CheckReplace(c, e, r, px, qty, v) == NoReject
    ensures px > 0 && qty > r.cum
  {
  }

  lemma SaneAfterRemoval(e: Engine, i: nat, a: Acct, st: Stats)
    requires RowsSane(e) && i < |e.rows|
    ensures RowsSane(e.(acct := a, rows := SwapRemove(e.rows, i), st := st))
  {
  }

  lemma StepKeepsSane(c: Config, e: Engine, a: Action)
    requires Ok(e) && IdsIssued(e) && RowsSane(e) && Legal(e, a)
    ensures RowsSane(Step(c, e, a))
  {
    hide CheckReplace, CheckNew, Reserve, Release, OnFill, Marked, WellFormed, FindRow;
    match a {
      case SubmitA(q, v, routed) =>
        if SubmitVerdict(c, e, q, v) == NoReject {
          VerdictMeans(c, e, q, v);
          InsertSucceeds(c, e, q, v);
        }
      case ReplaceA(id, px, qty, v, routed) =>
        var p := FindRow(e.rows, id);
        if p.Some? && CheckReplace(c, e, e.rows[p.value], px, qty, v) == NoReject {
          ReplaceVerdictMeans(c, e, e.rows[p.value], px, qty, v);
        }
      case CancelA(id, routed) =>
      case ReportA(rep, now) => ReportKeepsSane(e, rep, now);
      case MarkA(inst, bid, ask) =>
    }
  }

  lemma ReportKeepsSane(e: Engine, rep: Report, now: int)
    requires Ok(e) && RowsSane(e) && Legal(e, ReportA(rep, now))
    ensures RowsSane(ApplyReport(e, rep, now))
  {
    hide Reserve, Release, OnFill, WellFormed, FindRow;
    var p := FindRow(e.rows, rep.id);
    if p.Some? {
      var i := p.value;
      SaneAfterRemoval(e, i, Finish(e, i).acct, e.st);
      if rep.kind == PartialFill || rep.kind == FullFill {
        var f := e.(rows := e.rows[i := FilledRow(e.rows[i], rep)]);
        assert RowsSane(f);
        SaneAfterRemoval(f, i, e.acct, e.st);
      }
    }
  }

  lemma LegalSubmits(e: Engine, a: Action)
    requires Legal(e, a)
    ensures a.SubmitA? ==> e.counter + 1 < COUNTER_IDS
  {
  }

  /** Every legal run keeps what its steps keep. */
  lemma {:induction false} RunKeeps(c: Config, e: Engine, actions: seq<Action>)
    requires Ok(e) && IdsIssued(e) && RowsSane(e) && LegalRun(c, e, actions)
    ensures var r := Run(c, e, actions); IdsIssued(r) && RowsSane(r) && SameShape(e.acct, r.acct)
  {
    hide Step, Legal, RowsSane, IdsIssued, Ok, SameShape, WellFormed;
    if actions == [] {
      SameShapeRefl(e.acct);
    } else {
      LegalFront(c, e, actions);
      var front, a := actions[..|actions| - 1], actions[|actions| - 1];
      RunKeeps(c, e, front);
      var b := Run(c, e, front);
      StepKeepsOk(c, b, a);
      LegalSubmits(b, a);
      StepKeepsIds(c, b, a);
      StepKeepsSane(c, b, a);
      SameShapeTrans(e.acct, b.acct, Step(c, b, a).acct);
    }
  }

  lemma LegalFront(c: Config, e: Engine, actions: seq<Action>)
    requires Ok(e) && LegalRun(c, e, actions) && actions != []
    ensures var n := |actions| - 1;
            LegalRun(c, e, actions[..n]) && Legal(Run(c, e, actions[..n]), actions[n])
  {
    hide Step, Legal, Ok, Run;
    var front := actions[..|actions| - 1];
    forall j | 0 <= j < |front|
      ensures front[..j] == actions[..j] && front[j] == actions[j]
    {
    }
  }

  lemma RunLast(c: Config, e: Engine, actions: seq<Action>)
    requires Ok(e) && actions != []
    ensures var n := |actions| - 1; Run(c, e, actions) == Step(c, Run(c, e, actions[..n]), actions[n])
  {
  }

  // Continuations.

  ghost predicate ReportsOnly(actions: seq<Action>) {
    forall j :: 0 <= j < |actions| ==> actions[j].ReportA?
  }

  /** One more report. */
  lemma RunExtends(c: Config, e: Engine, done: seq<Action>, a: Action)
    requires Ok(e) && LegalRun(c, e, done) && Legal(Run(c, e, done), a)
    ensures Run(c, e, done + [a]) == Step(c, Run(c, e, done), a) && LegalRun(c, e, done + [a])
    ensures ReportsOnly(done) && a.ReportA? ==> ReportsOnly(done + [a])
  {
    hide Step, Legal, Ok;
    var more := done + [a];
    assert more[..|done|] == done;
    forall j | 0 <= j < |more|
      ensures Legal(Run(c, e, more[..j]), more[j])
    {
      assert j < |done| ==> more[..j] == done[..j] && more[j] == done[j];
    }
  }

  /** The venue accepts a row's replace. */
  function AnswerTo(r: OrderRow): Action {
    ReportA(Report(r.id, Replaced, 0, 0, 0, false), 0)
  }

  lemma AnswerStep(c: Config, e: Engine, i: nat)
    requires Ok(e) && i < |e.rows|
    ensures Step(c, e, AnswerTo(e.rows[i])) == ApplyReplaced(e, i)
    ensures e.rows[i].pendingReplace && e.rows[i].newQty >= e.rows[i].cum ==> Legal(e, AnswerTo(e.rows[i]))
  {
    hide FindRow, Reserve, Release, WellFormed;
    FindUnique(e.rows, i);
  }
}
