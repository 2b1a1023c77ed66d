/**
 The null venue: a router that queues the answer to every request in a ring and fills nothing,
 and the engine run against it.
 */
module NullVenue {
  import opened Common
  import opened Probing
  import opened OrderTypes
  import opened AccountModule
  import opened Engine
  import opened LegalRuns
  import opened Reservations
  import SpscRing

  datatype ReqType = NewReq | CancelReq | ReplaceReq | CancelAllReq

  function Answer(id: nat, kind: ExecType): Report {
    Report(id, kind, 0, 0, 0, false)
  }

  predicate Fleeting(kind: ReqType, tif: Tif) {
    kind == NewReq && (tif == IOC || tif == FOK)
  }

  /** Room a request asks of the queue. */
  function Needed(kind: ReqType, tif: Tif): nat {
    if Fleeting(kind, tif) then 2 else 1
  }

  /** The reports that answer a request, in order. */
  function Answers(id: nat, kind: ReqType, tif: Tif): (r: seq<Report>)
    ensures |r| <= Needed(kind, tif)
  {
    match kind
    case NewReq => [Answer(id, Acked)] + if Fleeting(kind, tif) then [Answer(id, Expired)] else []
    case CancelReq => [Answer(id, Canceled)]
    case ReplaceReq => [Answer(id, Replaced)]
    case CancelAllReq => []
  }

  class NullRouter {
    const q: array<Report>
    ghost const shape: SpscRing.Shape
    var head: nat
    var tail: nat
    // The queued reports, oldest first, and how many have ever been taken.
    ghost var contents: seq<Report>
    ghost var taken: nat

    /** The capacity divides 2^32, so the slots of the wrapped indices follow each other. */
    ghost predicate Valid()
      reads this, q
    {
      && shape.Valid() && shape.capacity == q.Length && |contents| <= q.Length
      && head == U32(taken) && tail == U32(taken + |contents|)
      && forall j {:trigger contents[j]} :: 0 <= j < |contents| ==> q[Mask(taken + j, q.Length)] == contents[j]
    }

    constructor (capacity: nat, laps: nat)
      requires 0 < capacity < WORD32 && laps * capacity == WORD32
      ensures Valid() && fresh(q) && q.Length == capacity && contents == []
    {
      q := new Report[capacity](_ => Answer(0, Restated));
      shape := SpscRing.Shape(capacity, laps, 1);
      head, tail, contents, taken := 0, 0, [], 0;
    }

    /** Refused when the answers may not fit; nothing is queued for a cancel-all. */
    method Submit(id: nat, kind: ReqType, tif: Tif) returns (ok: bool)
      requires Valid()
      modifies this`tail, this`contents, q
      ensures Valid() && ok == (|old(contents)| + Needed(kind, tif) <= q.Length)
      ensures contents == if ok then old(contents) + Answers(id, kind, tif) else old(contents)
    {
      hide Valid;
      var room := Room();
      if room < Needed(kind, tif) {
        return false;
      }
      match kind {
        case NewReq =>
          Push(Answer(id, Acked));
          if Fleeting(kind, tif) {
            Push(Answer(id, Expired));
          }
        case CancelReq => Push(Answer(id, Canceled));
        case ReplaceReq => Push(Answer(id, Replaced));
        case CancelAllReq =>
      }
      return true;
    }

    /** The unsigned difference of the indices counts the queued reports, across the wrap. */
    method Room() returns (room: int)
      requires Valid()
      ensures room == q.Length - |contents| >= 0
    {
      SpscRing.WrappedDifference(taken, taken + |contents|);
      return q.Length - U32(tail - head);
    }

    method Push(r: Report)
      requires Valid() && |contents| < q.Length
      modifies this`tail, this`contents, q
      ensures Valid() && contents == old(contents) + [r]
    {
      hide U32, Mask;
      ghost var end := taken + |contents|;
      SpscRing.WrappedSlot(shape, end);
      SpscRing.WrapNext(end);
      forall j {:trigger contents[j]} | 0 <= j < |contents|
        ensures Mask(taken + j, q.Length) != Mask(end, q.Length)
      {
        MaskDistinct(taken + j, end, q.Length);
      }
      q[Mask(tail, q.Length)] := r;
      tail := U32(tail + 1);
      contents := contents + [r];
    }

    /** One turn of poll: the head advances before the report is handed on. */
    method Pop() returns (r: Option<Report>)
      requires Valid()
      modifies this`head, this`contents, this`taken
      ensures Valid()
      ensures old(contents) == [] ==> r == None && contents == []
      ensures old(contents) != [] ==> r == Some(old(contents)[0]) && contents == old(contents)[1..]
    {
      hide U32, Mask;
      SpscRing.WrappedDifference(taken, taken + |contents|);
      if head == tail {
        return None;
      }
      SpscRing.WrappedSlot(shape, taken);
      SpscRing.WrapNext(taken);
      r := Some(q[Mask(head, q.Length)]);
      assert r.value == contents[0];
      head := U32(head + 1);
      contents, taken := contents[1..], taken + 1;
    }
  }

  // The engine and its queue of answers.

  datatype Sys = Sys(e: Engine, q: seq<Report>, room: nat)

  datatype NullAction =
    | NSubmit(q: Request, env: Env)
    | NReplace(id: nat, px: int, qty: int, env: Env)
    | NCancel(id: nat)
    | NPoll(now: int)
    | NMark(inst: nat, bid: int, ask: int)

  predicate Fits(s: Sys, kind: ReqType, tif: Tif) {
    |s.q| + Needed(kind, tif) <= s.room
  }

  predicate CancelAsked(e: Engine, id: nat) {
    var p := FindRow(e.rows, id);
    p.Some? && !e.rows[p.value].pendingCancel
  }

  /** The engine's part of a step; polling an empty queue is none. */
  function Lowered(s: Sys, a: NullAction): Option<Action> {
    match a
    case NSubmit(q, v) => Some(SubmitA(q, v, Fits(s, NewReq, q.tif)))
    case NReplace(id, px, qty, v) => Some(ReplaceA(id, px, qty, v, Fits(s, ReplaceReq, GTC)))
    case NCancel(id) => Some(CancelA(id, Fits(s, CancelReq, GTC)))
    case NPoll(now) => if s.q == [] then None else Some(ReportA(s.q[0], now))
    case NMark(inst, bid, ask) => Some(MarkA(inst, bid, ask))
  }

  /** The queue after a step: a request that reaches the router appends its answers. */
  function Queued(c: Config, s: Sys, a: NullAction): seq<Report>
    requires Ok(s.e)
  {
    match a
    case NSubmit(q, v) =>
      if SubmitVerdict(c, s.e, q, v) == NoReject && Fits(s, NewReq, q.tif)
      then s.q + Answers(NextId(s.e.gen, s.e.counter), NewReq, q.tif) else s.q
    case NReplace(id, px, qty, v) =>
      if ReplaceAsked(c, s.e, id, px, qty, v) && Fits(s, ReplaceReq, GTC)
      then s.q + Answers(id, ReplaceReq, GTC) else s.q
    case NCancel(id) =>
      if CancelAsked(s.e, id) && Fits(s, CancelReq, GTC) then s.q + Answers(id, CancelReq, GTC) else s.q
    case NPoll(_) => if s.q == [] then [] else s.q[1..]
    case NMark(_, _, _) => s.q
  }

  function NStep(c: Config, s: Sys, a: NullAction): (t: Sys)
    requires Ok(s.e)
    ensures Ok(t.e) && SameShape(s.e.acct, t.e.acct)
  {
    var l := Lowered(s, a);
    if l.Some? then StepKeepsOk(c, s.e, l.value); s.(e := Step(c, s.e, l.value), q := Queued(c, s, a))
    else SameShapeRefl(s.e.acct); s.(q := Queued(c, s, a))
  }

  function NRun(c: Config, s: Sys, actions: seq<NullAction>): (t: Sys)
    requires Ok(s.e)
    ensures Ok(t.e)
  {
    if actions == [] then s else NStep(c, NRun(c, s, actions[..|actions| - 1]), actions[|actions| - 1])
  }

  /** A generation issues fewer than 2^40 ids, and market orders are priced at a real mid. */
  predicate NLegal(s: Sys, a: NullAction) {
    a.NSubmit? ==> a.env.mid2 >= 0 && s.e.counter + 1 < COUNTER_IDS
  }

  ghost predicate NLegalRun(c: Config, s: Sys, actions: seq<NullAction>)
    requires Ok(s.e)
  {
    forall k {:trigger actions[k]} :: 0 <= k < |actions| ==> NLegal(NRun(c, s, actions[..k]), actions[k])
  }

  function Acks(q: seq<Report>): nat {
    if q == [] then 0 else Acks(q[..|q| - 1]) + if q[|q| - 1].kind == Acked then 1 else 0
  }

  // What the queue and the rows know of each other.

  ghost predicate IdsKnown(e: Engine, q: seq<Report>) {
    forall j :: 0 <= j < |q| ==>
      q[j].id <= e.gen * COUNTER_IDS + e.counter && q[j].kind in {Acked, Expired, Canceled, Replaced}
  }

  /** Nothing is queued for an order before its Ack, which finds it live. */
  ghost predicate AckFirst(rows: seq<OrderRow>, q: seq<Report>) {
    forall j :: 0 <= j < |q| && q[j].kind == Acked ==>
      FindRow(rows, q[j].id).Some? && forall i :: 0 <= i < j ==> q[i].id != q[j].id
  }

  /** At most one Replaced is queued for an order, and while one is, the live row awaits it. */
  ghost predicate OneReplaced(rows: seq<OrderRow>, q: seq<Report>) {
    && (forall i, j :: 0 <= i < j < |q| && q[i].kind == Replaced && q[j].kind == Replaced ==> q[i].id != q[j].id)
    && (forall i, j :: 0 <= i < |rows| && 0 <= j < |q| && q[j].kind == Replaced && q[j].id == rows[i].id ==>
          rows[i].pendingReplace)
  }

  /** A cancel in flight has its Canceled in the queue. */
  ghost predicate CancelQueued(rows: seq<OrderRow>, q: seq<Report>) {
    forall i :: 0 <= i < |rows| && rows[i].pendingCancel ==> Answer(rows[i].id, Canceled) in q
  }

  ghost predicate Unfilled(rows: seq<OrderRow>) {
    forall i :: 0 <= i < |rows| ==> rows[i].cum == 0 && (rows[i].pendingReplace ==> rows[i].newQty >= 0)
  }

  ghost predicate Paired(rows: seq<OrderRow>, q: seq<Report>) {
    && UniqueIds(rows) && AckFirst(rows, q) && OneReplaced(rows, q) && CancelQueued(rows, q) && Unfilled(rows)
  }

  /** Every state of a run against the null venue. */
  ghost predicate NullOk(s: Sys) {
    && Ok(s.e) && IdsIssued(s.e) && RowsSane(s.e) && |s.q| <= s.room && IdsKnown(s.e, s.q) && Paired(s.e.rows, s.q)
  }

  lemma {:induction false} AcksAdd(p: seq<Report>, q: seq<Report>)
    ensures Acks(p + q) == Acks(p) + Acks(q)
  {
    if q == [] {
      assert p + q == p;
    } else {
      assert (p + q)[..|p + q| - 1] == p + q[..|q| - 1];
      AcksAdd(p, q[..|q| - 1]);
    }
  }

  lemma NewAnswers(id: nat, tif: Tif)
    ensures var r := Answers(id, NewReq, tif);
            && |r| >= 1 && r[0] == Answer(id, Acked) && Acks(r) == 1
            && (|r| > 1 ==> |r| == 2 && r[1] == Answer(id, Expired))
  {
    AcksAdd([Answer(id, Acked)], if Fleeting(NewReq, tif) then [Answer(id, Expired)] else []);
    assert Acks([Answer(id, Acked)]) == Acks([]) + 1;
    assert Acks([Answer(id, Expired)]) == Acks([]);
  }

  lemma PairedSubmit(rows: seq<OrderRow>, q: seq<Report>, r: OrderRow, tif: Tif)
    requires Paired(rows, q) && FindRow(rows, r.id).None? && (forall j :: 0 <= j < |q| ==> q[j].id != r.id)
    requires r.cum == 0 && !r.pendingReplace && !r.pendingCancel
    ensures Paired(rows + [r], q + Answers(r.id, NewReq, tif))
  {
    hide FindRow, Answers, AckFirst, OneReplaced, CancelQueued, UniqueIds;
    UniqueAppend(rows, r);
    NewAnswers(r.id, tif);
    AcksAfter(rows, q, r, Answers(r.id, NewReq, tif));
    OthersAfter(rows, q, r, Answers(r.id, NewReq, tif));
  }

  lemma AcksAfter(rows: seq<OrderRow>, q: seq<Report>, r: OrderRow, more: seq<Report>)
    requires AckFirst(rows, q) && (forall j :: 0 <= j < |q| ==> q[j].id != r.id)
    requires 1 <= |more| <= 2 && more[0] == Answer(r.id, Acked)
    requires |more| > 1 ==> more[1] == Answer(r.id, Expired)
    ensures AckFirst(rows + [r], q + more)
  {
    hide FindRow;
    FindAppend(rows, r);
  }

  lemma OthersAfter(rows: seq<OrderRow>, q: seq<Report>, r: OrderRow, more: seq<Report>)
    requires OneReplaced(rows, q) && CancelQueued(rows, q) && !r.pendingCancel
    requires forall j :: 0 <= j < |more| ==> more[j].kind != Replaced
    requires forall j :: 0 <= j < |q| ==> q[j].id != r.id
    ensures OneReplaced(rows + [r], q + more) && CancelQueued(rows + [r], q + more)
  {
  }

  lemma PairedReplace(rows: seq<OrderRow>, q: seq<Report>, p: nat, px: int, qty: nat)
    requires Paired(rows, q) && p < |rows| && !rows[p].pendingReplace
    ensures Paired(rows[p := rows[p].(pendingReplace := true, newPx := px, newQty := qty)],
                   q + [Answer(rows[p].id, Replaced)])
  {
    hide FindRow;
    var r := rows[p].(pendingReplace := true, newPx := px, newQty := qty);
    UniqueUpdate(rows, p, r);
    FindUpdate(rows, p, r);
  }

  lemma PairedCancel(rows: seq<OrderRow>, q: seq<Report>, p: nat)
    requires Paired(rows, q) && p < |rows|
    ensures Paired(rows[p := rows[p].(pendingCancel := true)], q + [Answer(rows[p].id, Canceled)])
  {
    hide FindRow;
    UniqueUpdate(rows, p, rows[p].(pendingCancel := true));
    FindUpdate(rows, p, rows[p].(pendingCancel := true));
  }

  lemma PairedUnsolicited(rows: seq<OrderRow>, q: seq<Report>)
    requires Paired(rows, q) && q != [] && FindRow(rows, q[0].id).None?
    ensures Paired(rows, q[1..])
  {
    hide FindRow;
    StillQueued(rows, q);
  }

  lemma StillQueued(rows: seq<OrderRow>, q: seq<Report>)
    requires CancelQueued(rows, q) && q != []
    ensures forall i :: 0 <= i < |rows| && rows[i].pendingCancel && (q[0].id != rows[i].id || q[0].kind != Canceled) ==>
              Answer(rows[i].id, Canceled) in q[1..]
  {
    assert q == [q[0]] + q[1..];
  }

  lemma PairedFinish(rows: seq<OrderRow>, q: seq<Report>, p: nat)
    requires Paired(rows, q) && q != [] && p < |rows| && q[0].id == rows[p].id && q[0].kind != Acked
    ensures Paired(SwapRemove(rows, p), q[1..])
  {
    hide FindRow;
    FindSwapRemove(rows, p);
    StillQueued(rows, q);
  }

  /** An Ack or a Replaced is taken off the queue and its row updated. */
  lemma PairedAnswer(rows: seq<OrderRow>, q: seq<Report>, p: nat, r: OrderRow)
    requires Paired(rows, q) && q != [] && p < |rows| && q[0].id == rows[p].id && q[0].kind != Canceled
    requires r.id == rows[p].id && r.cum == 0 && r.pendingCancel == rows[p].pendingCancel
    requires r.newQty == rows[p].newQty
    requires r.pendingReplace == rows[p].pendingReplace || (q[0].kind == Replaced && !r.pendingReplace)
    ensures Paired(rows[p := r], q[1..])
  {
    hide FindRow;
    UniqueUpdate(rows, p, r);
    FindUpdate(rows, p, r);
    StillQueued(rows, q);
  }

  // Steps.

  lemma SubmitOutcome(c: Config, e: Engine, q: Request, v: Env, routed: bool)
    requires Ok(e) && IdsIssued(e) && e.counter + 1 < COUNTER_IDS
    ensures var f := Submit(c, e, q, v, routed);
            var row := NewRow(q, NextId(e.gen, e.counter), v);
            && f.gen == e.gen && f.st.acks == e.st.acks
            && if SubmitVerdict(c, e, q, v) == NoReject then
                 && f.counter == e.counter + 1 && FindRow(e.rows, row.id).None?
                 && row.id == e.gen * COUNTER_IDS + f.counter
                 && f.rows == (if routed then e.rows + [row] else e.rows)
                 && f.st.ordersNew == e.st.ordersNew + (if routed then 1 else 0)
               else f.counter == e.counter && f.rows == e.rows && f.st.ordersNew == e.st.ordersNew
  {
    hide CheckNew, Reserve, FindRow;
    if SubmitVerdict(c, e, q, v) == NoReject {
      InsertSucceeds(c, e, q, v);
      UniqueAppend(e.rows, NewRow(q, NextId(e.gen, e.counter), v));
    }
  }

  /** A submit's id is new to the rows and to the queue. */
  lemma SubmitKeepsNullOk(c: Config, s: Sys, q: Request, v: Env)
    requires NullOk(s) && NLegal(s, NSubmit(q, v))
    ensures NullOk(NStep(c, s, NSubmit(q, v)))
  {
    hide SubmitVerdict, Submit, SameShape, FindRow, Answers, Paired, IdsIssued, RowsSane;
    var l := Lowered(s, NSubmit(q, v)).value;
    StepKeepsIds(c, s.e, l);
    StepKeepsSane(c, s.e, l);
    SubmitOutcome(c, s.e, q, v, l.routed);
    if SubmitVerdict(c, s.e, q, v) == NoReject && l.routed {
      var row := NewRow(q, NextId(s.e.gen, s.e.counter), v);
      NewAnswers(row.id, q.tif);
      PairedSubmit(s.e.rows, s.q, row, q.tif);
    }
  }

  lemma ReplaceKeepsNullOk(c: Config, s: Sys, id: nat, px: int, qty: int, v: Env)
    requires NullOk(s)
    ensures NullOk(NStep(c, s, NReplace(id, px, qty, v)))
  {
    hide CheckReplace, SameShape, FindRow, Paired;
    var l := Lowered(s, NReplace(id, px, qty, v)).value;
    StepKeepsIds(c, s.e, l);
    StepKeepsSane(c, s.e, l);
    if ReplaceAsked(c, s.e, id, px, qty, v) && Fits(s, ReplaceReq, GTC) {
      var p := FindRow(s.e.rows, id).value;
      ReplaceVerdictMeans(c, s.e, s.e.rows[p], px, qty, v);
      PairedUnfilled(s.e.rows, s.q, p);
      PairedReplace(s.e.rows, s.q, p, px, qty);
    }
  }

  lemma PairedUnfilled(rows: seq<OrderRow>, q: seq<Report>, p: nat)
    requires Paired(rows, q) && p < |rows|
    ensures rows[p].cum == 0
  {
  }

  lemma CancelKeepsNullOk(c: Config, s: Sys, id: nat)
    requires NullOk(s)
    ensures NullOk(NStep(c, s, NCancel(id)))
  {
    hide SameShape, FindRow, Paired;
    var l := Lowered(s, NCancel(id)).value;
    StepKeepsIds(c, s.e, l);
    StepKeepsSane(c, s.e, l);
    if CancelAsked(s.e, id) && Fits(s, CancelReq, GTC) {
      PairedCancel(s.e.rows, s.q, FindRow(s.e.rows, id).value);
    }
  }

  lemma PollLegal(s: Sys, now: int)
    requires NullOk(s) && s.q != []
    ensures Legal(s.e, ReportA(s.q[0], now))
  {
  }

  lemma PollKeepsNullOk(c: Config, s: Sys, now: int)
    requires NullOk(s)
    ensures NullOk(NStep(c, s, NPoll(now)))
  {
    hide SameShape, FindRow, Release, Reserve, Paired;
    if s.q != [] {
      PollLegal(s, now);
      StepKeepsIds(c, s.e, ReportA(s.q[0], now));
      StepKeepsSane(c, s.e, ReportA(s.q[0], now));
      PollKeepsPaired(s.e, s.q, now);
    }
  }

  lemma PollKeepsPaired(e: Engine, q: seq<Report>, now: int)
    requires Ok(e) && IdsKnown(e, q) && Paired(e.rows, q) && q != []
    ensures Paired(ApplyReport(e, q[0], now).rows, q[1..])
  {
    hide FindRow, Release, Reserve, Paired, WellFormed;
    var p := FindRow(e.rows, q[0].id);
    if p.None? {
      PairedUnsolicited(e.rows, q);
    } else {
      var r := e.rows[p.value];
      PairedUnfilled(e.rows, q, p.value);
      if q[0].kind == Acked {
        PairedAnswer(e.rows, q, p.value, r.(status := New, tAck := now));
      } else if q[0].kind == Replaced {
        PairedAnswer(e.rows, q, p.value, ReplacedRow(r));
      } else {
        PairedFinish(e.rows, q, p.value);
      }
    }
  }

  lemma StepKeepsNullOk(c: Config, s: Sys, a: NullAction)
    requires NullOk(s) && NLegal(s, a)
    ensures NullOk(NStep(c, s, a))
  {
    hide NullOk, NStep, Ok;
    match a {
      case NSubmit(q, v) => SubmitKeepsNullOk(c, s, q, v);
      case NReplace(id, px, qty, v) => ReplaceKeepsNullOk(c, s, id, px, qty, v);
      case NCancel(id) => CancelKeepsNullOk(c, s, id);
      case NPoll(now) => PollKeepsNullOk(c, s, now);
      case NMark(inst, bid, ask) => MarkKeepsNullOk(c, s, inst, bid, ask);
    }
  }

  lemma MarkKeepsNullOk(c: Config, s: Sys, inst: nat, bid: int, ask: int)
    requires NullOk(s)
    ensures NullOk(NStep(c, s, NMark(inst, bid, ask)))
  {
    hide Paired, Ok, SameShape, Marked;
  }

  /** New orders whose Ack is neither counted nor queued. */
  function Unanswered(s: Sys): int {
    s.e.st.ordersNew - s.e.st.acks - Acks(s.q)
  }

  lemma PollCounts(e: Engine, q: seq<Report>, now: int)
    requires Ok(e) && IdsKnown(e, q) && AckFirst(e.rows, q) && q != []
    ensures var f := ApplyReport(e, q[0], now);
            && f.st.ordersNew == e.st.ordersNew && f.st.fills == e.st.fills
            && f.st.acks - e.st.acks == Acks(q) - Acks(q[1..])
  {
    hide FindRow, Release, Reserve, WellFormed;
    assert q == [q[0]] + q[1..];
    AcksAdd([q[0]], q[1..]);
    assert Acks([q[0]]) == Acks([]) + if q[0].kind == Acked then 1 else 0;
  }

  lemma StepCounts(c: Config, s: Sys, a: NullAction)
    requires NullOk(s) && NLegal(s, a)
    ensures var t := NStep(c, s, a);
            && Unanswered(t) == Unanswered(s) && t.room == s.room
            && (a.NPoll? || a.NCancel? ==> t.e.st.fills == s.e.st.fills)
  {
    hide FindRow, Submit, SubmitVerdict, CheckReplace, SameShape, Acks, Answers, ApplyReport;
    match a {
      case NSubmit(q, v) =>
        SubmitOutcome(c, s.e, q, v, Fits(s, NewReq, q.tif));
        NewAnswers(NextId(s.e.gen, s.e.counter), q.tif);
        AcksAdd(s.q, Answers(NextId(s.e.gen, s.e.counter), NewReq, q.tif));
      case NReplace(id, px, qty, v) => OtherAnswers(s.q, id);
      case NCancel(id) => OtherAnswers(s.q, id);
      case NPoll(now) =>
        if s.q != [] {
          PollCounts(s.e, s.q, now);
        }
      case NMark(inst, bid, ask) =>
    }
  }

  lemma OtherAnswers(q: seq<Report>, id: nat)
    ensures Acks(q + Answers(id, ReplaceReq, GTC)) == Acks(q) == Acks(q + Answers(id, CancelReq, GTC))
  {
    assert (q + [Answer(id, Replaced)])[..|q|] == q && (q + [Answer(id, Canceled)])[..|q|] == q;
  }

  /** No step against the null venue fills, so none lets an asset's reserved money drift. */
  lemma StepHoldsDrift(c: Config, s: Sys, a: NullAction)
    requires NullOk(s) && NLegal(s, a)
    ensures SameDrift(s.e, NStep(c, s, a).e)
  {
    BalancesSame(s.e.acct, NStep(c, s, a).e.acct);
    forall k | 0 <= k < |s.e.acct.bal|
      ensures var t := NStep(c, s, a); k < |t.e.acct.bal| && Drift(t.e, k) == Drift(s.e, k)
    {
      StepHoldsOne(c, s, a, k);
    }
  }

  ghost predicate SameDrift(e: Engine, f: Engine) {
    |f.acct.bal| == |e.acct.bal| && forall k :: 0 <= k < |e.acct.bal| ==> Drift(f, k) == Drift(e, k)
  }

  lemma StepHoldsOne(c: Config, s: Sys, a: NullAction, k: nat)
    requires NullOk(s) && NLegal(s, a) && k < |s.e.acct.bal|
    ensures var t := NStep(c, s, a); k < |t.e.acct.bal| && Drift(t.e, k) == Drift(s.e, k)
  {
    hide Drift, Unrounded, FindRow, Submit, Replace, Cancel, Paired, IdsIssued, RowsSane, SameShape, ApplyReport, Ok;
    var l := Lowered(s, a);
    if l.Some? {
      if a.NPoll? {
        PollLegal(s, a.now);
      }
      StepDrift(c, s.e, l.value, k);
      StrandedAtMost(c, s.e, l.value, k);
      NoFills(c, s, a);
    }
  }

  lemma NoFills(c: Config, s: Sys, a: NullAction)
    requires NullOk(s) && NLegal(s, a) && Lowered(s, a).Some?
    ensures Step(c, s.e, Lowered(s, a).value).st.fills == s.e.st.fills
  {
    hide FindRow, SubmitVerdict, CheckReplace, SameShape, ApplyReport, Reserve, Acks;
    if a.NPoll? {
      PollCounts(s.e, s.q, a.now);
    }
  }

  /** The start: nothing issued, nothing queued, nothing reserved. */
  ghost predicate Fresh(s: Sys) {
    && Ok(s.e) && s.e.rows == [] && s.e.counter == 0 && s.e.st == NO_STATS && s.q == []
    && forall k :: 0 <= k < |s.e.acct.bal| ==> s.e.acct.bal[k].reserved == 0
  }

  /** Every asset has reserved exactly what the live rows lock. */
  ghost predicate Undrifted(e: Engine) {
    forall k :: 0 <= k < |e.acct.bal| ==> Drift(e, k) == 0
  }

  /**
   In every run against the null venue, orders_new equals acks plus the Acks still queued, the
   queue never holds more than its room, and no asset has more reserved than live rows lock.
   */
  lemma {:induction false} NullRunsBalance(c: Config, s: Sys, actions: seq<NullAction>)
    requires Fresh(s) && NLegalRun(c, s, actions)
    ensures var t := NRun(c, s, actions);
            && NullOk(t) && t.room == s.room && |t.q| <= s.room && t.e.st.ordersNew == t.e.st.acks + Acks(t.q)
            && SameDrift(s.e, t.e) && Undrifted(t.e)
  {
    hide NStep, NullOk, Acks, NLegal, Drift;
    if actions == [] {
      StartsNullOk(s);
    } else {
      var n := |actions| - 1;
      var front, a := actions[..n], actions[n];
      forall j | 0 <= j < n
        ensures NLegal(NRun(c, s, front[..j]), front[j])
      {
        assert front[..j] == actions[..j] && front[j] == actions[j];
      }
      NullRunsBalance(c, s, front);
      var b := NRun(c, s, front);
      assert actions[..n] == front && NLegal(b, a);
      StepKeepsNullOk(c, b, a);
      StepCounts(c, b, a);
      StepHoldsDrift(c, b, a);
      QueueFits(NStep(c, b, a));
    }
  }

  lemma QueueFits(s: Sys)
    requires NullOk(s)
    ensures |s.q| <= s.room && Ok(s.e)
  {
  }

  lemma StartsNullOk(s: Sys)
    requires Fresh(s)
    ensures NullOk(s) && Acks(s.q) == 0 && Undrifted(s.e) && |s.q| <= s.room
  {
  }

  // Shutdown.

  /** cancel_all: a cancel for each row in turn, from the i-th on. */
  function CancelFrom(c: Config, s: Sys, i: nat): (t: Sys)
    requires Ok(s.e)
    ensures Ok(t.e)
    decreases |s.e.rows| - i
  {
    if i >= |s.e.rows| then s
    else CancelKeepsSize(c, s, s.e.rows[i].id); CancelFrom(c, NStep(c, s, NCancel(s.e.rows[i].id)), i + 1)
  }

  lemma CancelKeepsSize(c: Config, s: Sys, id: nat)
    requires Ok(s.e)
    ensures |NStep(c, s, NCancel(id)).e.rows| == |s.e.rows|
  {
    hide FindRow, SameShape;
  }

  /** Polling until the queue is empty. */
  function Drain(c: Config, s: Sys, now: int): (t: Sys)
    requires Ok(s.e)
    ensures Ok(t.e)
    decreases |s.q|
  {
    if s.q == [] then s else Drain(c, NStep(c, s, NPoll(now)), now)
  }

  ghost predicate AllCanceling(rows: seq<OrderRow>, n: nat) {
    forall i :: 0 <= i < n && i < |rows| ==> rows[i].pendingCancel
  }

  /** A cancel that fits marks its row and leaves the others as they were. */
  lemma CancelMarks(c: Config, s: Sys, i: nat)
    requires NullOk(s) && i < |s.e.rows| && AllCanceling(s.e.rows, i) && |s.q| < s.room
    ensures var t := NStep(c, s, NCancel(s.e.rows[i].id));
            |t.e.rows| == |s.e.rows| && AllCanceling(t.e.rows, i + 1) && |t.q| <= |s.q| + 1 && t.room == s.room
            && t.e.acct == s.e.acct
  {
    hide FindRow, SameShape, Paired;
    FindUnique(s.e.rows, i);
  }

  /** With room for a cancel of every row, cancel_all leaves each with its Canceled queued. */
  lemma {:induction false} CancelAllReaches(c: Config, s: Sys, i: nat)
    requires NullOk(s) && i <= |s.e.rows| && AllCanceling(s.e.rows, i) && |s.q| + |s.e.rows| - i <= s.room
    ensures var t := CancelFrom(c, s, i);
            && NullOk(t) && AllCanceling(t.e.rows, |t.e.rows|) && Unanswered(t) == Unanswered(s)
            && SameDrift(s.e, t.e)
    decreases |s.e.rows| - i
  {
    hide NStep, NullOk, Acks, Drift, AllCanceling, Unanswered;
    QueueFits(s);
    if i < |s.e.rows| {
      var a := NCancel(s.e.rows[i].id);
      CancelMarks(c, s, i);
      StepKeepsNullOk(c, s, a);
      StepCounts(c, s, a);
      StepHoldsDrift(c, s, a);
      CancelAllReaches(c, NStep(c, s, a), i + 1);
    }
  }

  lemma PollKeepsCanceling(c: Config, s: Sys, now: int)
    requires NullOk(s) && AllCanceling(s.e.rows, |s.e.rows|) && s.q != []
    ensures var t := NStep(c, s, NPoll(now)); AllCanceling(t.e.rows, |t.e.rows|) && t.q == s.q[1..]
  {
    hide FindRow, SameShape, Paired, Release, Reserve;
  }

  /** Once every row has its Canceled queued, draining the queue empties the table. */
  lemma {:induction false} DrainEmpties(c: Config, s: Sys, now: int)
    requires NullOk(s) && AllCanceling(s.e.rows, |s.e.rows|)
    ensures var t := Drain(c, s, now);
            && t.e.rows == [] && t.q == [] && Unanswered(t) == Unanswered(s)
            && SameDrift(s.e, t.e)
    decreases |s.q|
  {
    hide NStep, NullOk, Acks, Drift, AllCanceling, Unanswered;
    QueueFits(s);
    CancelingQueued(s);
    if s.q != [] {
      PollKeepsCanceling(c, s, now);
      StepKeepsNullOk(c, s, NPoll(now));
      StepCounts(c, s, NPoll(now));
      StepHoldsDrift(c, s, NPoll(now));
      DrainEmpties(c, NStep(c, s, NPoll(now)), now);
    }
  }

  lemma CancelingQueued(s: Sys)
    requires NullOk(s) && AllCanceling(s.e.rows, |s.e.rows|)
    ensures s.e.rows != [] ==> s.q != []
  {
    hide FindRow;
    if s.e.rows != [] {
      assert Answer(s.e.rows[0].id, Canceled) in s.q;
    }
  }

  /** The drain at shutdown: the queue is polled only while an order is live. */
  function Settle(c: Config, s: Sys, now: int): (t: Sys)
    requires Ok(s.e)
    ensures Ok(t.e)
  {
    if s.e.rows == [] then s else Drain(c, s, now)
  }

  /** With no order live no Ack is queued. */
  lemma {:induction false} NoRowsNoAcks(q: seq<Report>)
    requires AckFirst([], q)
    ensures Acks(q) == 0
  {
    if q != [] {
      var front := q[..|q| - 1];
      assert forall j :: 0 <= j < |front| ==> front[j] == q[j];
      NoRowsNoAcks(front);
    }
  }

  /**
   Leaving nothing resting: after any run, if queued reports and live rows together fit the
   queue, cancel_all and the drain empty the table, free all reserved money and see every order
   acked; reports stay queued only where no order was live to wait for.
   */
  lemma ShutdownLeavesNothing(c: Config, s: Sys, actions: seq<NullAction>, now: int)
    requires Fresh(s) && NLegalRun(c, s, actions)
    requires var t := NRun(c, s, actions); |t.q| + |t.e.rows| <= t.room
    ensures var t := NRun(c, s, actions);
            var z := Settle(c, CancelFrom(c, t, 0), now);
            && z.e.rows == [] && z.e.st.ordersNew == z.e.st.acks && z.q == (if t.e.rows == [] then t.q else [])
            && |z.e.acct.bal| == |s.e.acct.bal| && forall k :: 0 <= k < |z.e.acct.bal| ==> z.e.acct.bal[k].reserved == 0
  {
    hide NStep, NullOk, NLegal, NLegalRun, NRun, Drain, Drift, Acks;
    NullRunsBalance(c, s, actions);
    var t := NRun(c, s, actions);
    var u := CancelFrom(c, t, 0);
    CancelAllReaches(c, t, 0);
    CancelsKeepSize(c, t, 0);
    if t.e.rows == [] {
      NoneLive(t);
    } else {
      DrainEmpties(c, u, now);
      NoRowsDrift(Drain(c, u, now).e);
      assert Acks([]) == 0 by { NoRowsNoAcks([]); }
    }
  }

  lemma NoneLive(s: Sys)
    requires NullOk(s) && s.e.rows == []
    ensures Acks(s.q) == 0 && forall k :: 0 <= k < |s.e.acct.bal| ==> Drift(s.e, k) == s.e.acct.bal[k].reserved
  {
    NoRowsNoAcks(s.q);
  }

  lemma NoRowsDrift(e: Engine)
    requires e.rows == []
    ensures forall k :: 0 <= k < |e.acct.bal| ==> Drift(e, k) == e.acct.bal[k].reserved
  {
  }

  lemma {:induction false} CancelsKeepSize(c: Config, s: Sys, i: nat)
    requires Ok(s.e)
    ensures |CancelFrom(c, s, i).e.rows| == |s.e.rows|
    decreases |s.e.rows| - i
  {
    hide NStep;
    if i < |s.e.rows| {
      var a := NCancel(s.e.rows[i].id);
      CancelKeepsSize(c, s, a.id);
      CancelsKeepSize(c, NStep(c, s, a), i + 1);
    }
  }

  // Ids issued.

  lemma StepIssues(c: Config, s: Sys, a: NullAction)
    requires Ok(s.e)
    ensures s.e.counter <= NStep(c, s, a).e.counter <= s.e.counter + 1
  {
    hide FindRow, SubmitVerdict, CheckReplace, Reserve, Release, OnFill, Marked, SameShape, Inserted, Erased, Queued;
  }

  lemma NRunLast(c: Config, s: Sys, actions: seq<NullAction>)
    requires Ok(s.e)
    ensures actions == [] ==> NRun(c, s, actions) == s
    ensures actions != [] ==>
              var n := |actions| - 1; NRun(c, s, actions) == NStep(c, NRun(c, s, actions[..n]), actions[n])
  {
  }

  lemma LegalNext(s: Sys, a: NullAction)
    requires s.e.counter + 1 < COUNTER_IDS && (a.NSubmit? ==> a.env.mid2 >= 0)
    ensures NLegal(s, a)
  {
  }

  /** A run issues no more ids than it has actions, so a short enough one is legal. */
  lemma {:induction false} ShortRunsAreLegal(c: Config, s: Sys, actions: seq<NullAction>)
    requires Ok(s.e) && s.e.counter + |actions| < COUNTER_IDS
    requires forall j :: 0 <= j < |actions| && actions[j].NSubmit? ==> actions[j].env.mid2 >= 0
    ensures NLegalRun(c, s, actions) && NRun(c, s, actions).e.counter <= s.e.counter + |actions|
  {
    hide NStep, Ok, NRun, NLegal;
    NRunLast(c, s, actions);
    if actions != [] {
      var n := |actions| - 1;
      var front := actions[..n];
      assert forall j :: 0 <= j < n ==> front[j] == actions[j] && front[..j] == actions[..j];
      ShortRunsAreLegal(c, s, front);
      LegalNext(NRun(c, s, front), actions[n]);
      StepIssues(c, NRun(c, s, front), actions[n]);
    }
  }
}
