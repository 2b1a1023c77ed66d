/** Runs from a new engine, every request accepted by the gate, that show where funds are lost or overdrawn. */
module Witnesses {
  import opened Common
  import opened OrderTypes
  import opened Positions
  import opened AccountModule
  import opened Engine
  import opened LegalRuns
  import opened Reservations
  import opened Solvency

  const SPOT: Config :=
    Config(RiskLimits(0, 0, 0, 0, 0, true, 0.0), {0}, _ => InstrumentRow(0, 0, Online), false, 0)

  const CALM_MARKET: Env := Env(false, false, 20, true, 0)

  /** One instrument whose tick-lot is worth 10^tlExp, and funds in its quote asset. */
  function Funded(tlExp: int, quote: nat): Engine {
    Engine([], 10, 0, 0, Acct(map[0 := 0], [Inst(0, 1, 1, tlExp, 1, FLAT)], [Balance(0, 0), Balance(quote, 0)], 0, 0),
           NO_STATS)
  }

  function BuyAction(px: int, qty: int): Action {
    SubmitA(Request(0, Buy, px, qty, GTC, Limit), CALM_MARKET, true)
  }

  function BuyRow(px: int, qty: int): OrderRow {
    OrderRow(1, px, qty, qty, 0, 0, 0, 0, Buy, GTC, Limit, PendingNew, false, false, 0, 0)
  }

  /** The engine once its one buy, locking all its funds, has been sent. */
  function Sent(tlExp: int, quote: nat, px: int, qty: int): Engine {
    Funded(tlExp, quote).(rows := [BuyRow(px, qty)], counter := 1, st := NO_STATS.(ordersNew := 1),
      acct := Acct(map[0 := 0], [Inst(0, 1, 1, tlExp, 1, FLAT)], [Balance(0, 0), Balance(quote, quote)], 0, 0))
  }

  lemma StartsWell(tlExp: int, quote: nat)
    ensures var e := Funded(tlExp, quote); Ok(e) && IdsIssued(e) && RowsSane(e) && TwoAssets(e.acct) && Drift(e, 1) == 0
    ensures forall venue :: Solvent(venue, Funded(tlExp, quote), 1)
  {
  }

  /** The gate accepts a buy that costs exactly the funds there are. */
  lemma BuyIsSent(tlExp: int, quote: nat, px: int, qty: int)
    requires px > 0 && qty > 0 && Notional(Inst(0, 1, 1, tlExp, 1, FLAT), px, qty) == quote
    ensures var e, a := Funded(tlExp, quote), BuyAction(px, qty);
            && Ok(e) && Legal(e, a) && SubmitVerdict(SPOT, e, a.q, a.env) == NoReject
            && Step(SPOT, e, a) == Sent(tlExp, quote, px, qty)
  {
    hide TlToMoney, SumRows;
    var e, a := Funded(tlExp, quote), BuyAction(px, qty);
    StartsWell(tlExp, quote);
    assert SubmitVerdict(SPOT, e, a.q, a.env) == NoReject;
    InsertSucceeds(SPOT, e, a.q, a.env);
    assert [] + [BuyRow(px, qty)] == [BuyRow(px, qty)];
  }

  lemma SentWell(tlExp: int, quote: nat, px: int, qty: int)
    requires px > 0 && qty > 0
    ensures var e := Sent(tlExp, quote, px, qty); Ok(e) && IdsIssued(e) && RowsSane(e) && FindRow(e.rows, 1) == Some(0)
  {
  }

  // Rounding.

  function FillReport(kind: ExecType, px: int, qty: int): Action {
    ReportA(Report(1, kind, px, qty, 0, false), 0)
  }

  /** A buy of ten lots, each worth a tenth of a unit, that fills in halves. */
  const HALVES: seq<Action> := [BuyAction(1, 10), FillReport(PartialFill, 1, 5), FillReport(FullFill, 1, 5)]

  lemma TenthsMoney()
    ensures Notional(Inst(0, 1, 1, -1, 1, FLAT), 1, 10) == 1
  {
    assert Pow10(1) == 10 * Pow10(0) == 10;
  }

  lemma HalvesCarry(i: Inst)
    requires i.tlExp == -1 && i.tlMul == 1
    ensures Stranded(i, Buy, 1, 10, 5) == 1 && Stranded(i, Buy, 1, 5, 5) == 0
  {
    assert Pow10(1) == 10 * Pow10(0) == 10;
  }

  /** A fill of the one row of an engine. */
  lemma OnlyRowFills(e: Engine, r: OrderRow, a: Action)
    requires Ok(e) && RowsSane(e) && e.rows == [r] && r.id == 1 && a.ReportA? && a.rep.id == 1
    requires (a.rep.kind == PartialFill || a.rep.kind == FullFill) && 0 <= a.rep.lastQty <= r.leaves
    ensures Legal(e, a)
    ensures var f := Step(SPOT, e, a);
            && f.rows == (if a.rep.lastQty < r.leaves then [FilledRow(r, a.rep)] else []) && SameShape(e.acct, f.acct)
    ensures StrandedIn(e, a, 1) == StrandedBy(e, 0, a.rep, 1)
  {
    hide OnFill, Release, WellFormed, SameShape, StrandedBy;
    assert FindRow(e.rows, 1) == Some(0);
    assert [r][0 := FilledRow(r, a.rep)] == [FilledRow(r, a.rep)];
    StepKeepsOk(SPOT, e, a);
  }

  lemma SameConversion(a: Acct, b: Acct, inst: nat)
    requires SameShape(a, b) && Trades(a, inst)
    ensures Trades(b, inst) && InstOf(b, inst).(pos := InstOf(a, inst).pos) == InstOf(a, inst)
  {
  }

  /** One more action of a legal run. */
  lemma Then(e: Engine, done: seq<Action>, a: Action, f: Engine)
    requires Ok(e) && LegalRun(SPOT, e, done) && Run(SPOT, e, done) == f && Legal(f, a)
    ensures Ok(f) && LegalRun(SPOT, e, done + [a]) && Run(SPOT, e, done + [a]) == Step(SPOT, f, a)
  {
    hide Ok, Step, Legal, LegalRun;
    RunExtends(SPOT, e, done, a);
  }

  /** After the first half one unit is locked that no lot needs, and it stays locked when the order is gone. */
  lemma HalvesStrand()
    ensures var e := Funded(-1, 1);
            && Ok(e) && LegalRun(SPOT, e, HALVES)
            && SubmitVerdict(SPOT, e, HALVES[0].q, HALVES[0].env) == NoReject
            && Drift(e, 1) == 0
            && var r := Run(SPOT, e, HALVES);
               r.rows == [] && |r.acct.bal| == 2 && r.acct.bal[1].reserved == Drift(r, 1) == 1
  {
    hide Step, Ok, LegalRun, Run, Legal, RowsSane, IdsIssued, Drift, SubmitVerdict, StrandedIn, StrandedBy, SameShape,
         WellFormed, Funded, Sent;
    var e, f := Funded(-1, 1), Sent(-1, 1, 1, 10);
    StartsWell(-1, 1);
    TenthsMoney();
    BuyIsSent(-1, 1, 1, 10);
    SentWell(-1, 1, 1, 10);
    Start(Patient, SPOT, e);
    var g := HalvesFill(e, f);
    assert [] + [HALVES[0]] == [HALVES[0]] && [HALVES[0]] + [HALVES[1]] == [HALVES[0], HALVES[1]];
    assert [HALVES[0], HALVES[1]] + [HALVES[2]] == HALVES;
    Then(e, [], HALVES[0], e);
    Then(e, [HALVES[0]], HALVES[1], f);
    Then(e, [HALVES[0], HALVES[1]], HALVES[2], g);
    NoRowsDrift(Step(SPOT, g, HALVES[2]));
  }

  lemma NoRowsDrift(e: Engine)
    requires e.rows == [] && |e.acct.bal| == 2
    ensures Drift(e, 1) == e.acct.bal[1].reserved
  {
  }

  /** The drift along the halves: nothing, nothing, a unit, a unit. */
  lemma HalvesFill(e: Engine, f: Engine) returns (g: Engine)
    requires e == Funded(-1, 1) && f == Sent(-1, 1, 1, 10) && Ok(e) && Ok(f) && Step(SPOT, e, HALVES[0]) == f
    requires IdsIssued(e) && RowsSane(e) && Legal(e, HALVES[0]) && Drift(e, 1) == 0
    requires IdsIssued(f) && RowsSane(f)
    ensures g == Step(SPOT, f, HALVES[1]) && Ok(g) && Legal(f, HALVES[1]) && Legal(g, HALVES[2])
    ensures var h := Step(SPOT, g, HALVES[2]); h.rows == [] && |h.acct.bal| == 2 && Drift(h, 1) == 1
  {
    hide Step, Ok, Legal, RowsSane, IdsIssued, Drift, StrandedIn, SameShape, WellFormed, Stranded;
    g := Step(SPOT, f, HALVES[1]);
    var r := BuyRow(1, 10);
    var n := FilledRow(r, HALVES[1].rep);
    OnlyRowFills(f, r, HALVES[1]);
    StepDrift(SPOT, e, HALVES[0], 1);
    StepDrift(SPOT, f, HALVES[1], 1);
    StepKeepsOk(SPOT, f, HALVES[1]);
    StepKeepsIds(SPOT, f, HALVES[1]);
    StepKeepsSane(SPOT, f, HALVES[1]);
    OnlyRowFills(g, n, HALVES[2]);
    StepDrift(SPOT, g, HALVES[2], 1);
    StepKeepsOk(SPOT, g, HALVES[2]);
    BalancesSame(f.acct, g.acct);
    BalancesSame(g.acct, Step(SPOT, g, HALVES[2]).acct);
    SameConversion(f.acct, g.acct, 0);
    HalvesCarry(InstOf(f.acct, 0));
    HalvesCarry(InstOf(g.acct, 0));
    NothingStrandedBySubmit(e);
  }

  lemma NothingStrandedBySubmit(e: Engine)
    requires Ok(e)
    ensures StrandedIn(e, HALVES[0], 1) == 0
  {
  }

  // A fill before the answer.

  /** A buy of 10 at 10, to become a buy of 11 at 9; nine lots fill at 10 before the venue answers. */
  const OVERTAKEN: seq<Action> :=
    [BuyAction(10, 10), ReplaceA(1, 9, 11, CALM_MARKET, true), FillReport(PartialFill, 10, 9), AnswerTo(BuyRow(10, 10))]

  function Repriced(): OrderRow {
    BuyRow(10, 10).(pendingReplace := true, newPx := 9, newQty := 11)
  }

  function Asked(): Engine {
    Sent(0, 100, 10, 10).(rows := [Repriced()], st := NO_STATS.(ordersNew := 1, ordersReplace := 1))
  }

  lemma WholeMoney(i: Inst, x: nat)
    requires i.tlExp == 0 && i.tlMul == 1
    ensures TlToMoney(i, x) == x
  {
  }

  /** The gate accepts the replace: it locks one less than the order does. */
  lemma ReplaceIsSent()
    ensures var e, a := Sent(0, 100, 10, 10), OVERTAKEN[1];
            && Ok(e) && Legal(e, a) && ReplaceAsked(SPOT, e, a.id, a.px, a.qty, a.env) && Step(SPOT, e, a) == Asked()
  {
    hide TlToMoney, SumRows, FindRow;
    SentWell(0, 100, 10, 10);
    WholeMoney(Inst(0, 1, 1, 0, 1, FLAT), 99);
    WholeMoney(Inst(0, 1, 1, 0, 1, FLAT), 100);
    assert [BuyRow(10, 10)][0 := Repriced()] == [Repriced()];
  }

  lemma AskedWell()
    ensures var e := Asked(); Ok(e) && IdsIssued(e) && RowsSane(e) && FindRow(e.rows, 1) == Some(0)
    ensures var e := Asked(); TwoAssets(e.acct) && Free(e.acct, 1) == 0
  {
    hide Step, Ok, RowsSane, IdsIssued, FindRow, UniqueIds;
    var e, a := Sent(0, 100, 10, 10), OVERTAKEN[1];
    SentWell(0, 100, 10, 10);
    ReplaceIsSent();
    StepKeepsOk(SPOT, e, a);
    StepKeepsIds(SPOT, e, a);
    StepKeepsSane(SPOT, e, a);
    OneRow(Repriced());
  }

  lemma OneRow(r: OrderRow)
    ensures FindRow([r], r.id) == Some(0)
  {
  }

  lemma OvertakenGap(i: Inst)
    requires i.tlExp == 0 && i.tlMul == 1
    ensures GapAfter(i, Repriced(), 9) == 8
  {
    hide TlToMoney;
    WholeMoney(i, 18);
    WholeMoney(i, 10);
  }

  /** The fill leaves nothing free, and answering for the two lots left at 9 locks 8 more than the one at 10 did. */
  lemma AnswerOverdraws() returns (f: Engine)
    requires Ok(Asked())
    ensures f == Step(SPOT, Asked(), OVERTAKEN[2]) && Ok(f)
    ensures Legal(Asked(), OVERTAKEN[2]) && Legal(f, OVERTAKEN[3])
    ensures FairFill(Eager, Asked(), OVERTAKEN[2]) && FairFill(Eager, f, OVERTAKEN[3])
    ensures var g := Step(SPOT, f, OVERTAKEN[3]); |g.acct.bal| == 2 && Free(g.acct, 1) == -8
  {
    hide Step, Ok, Legal, RowsSane, IdsIssued, SameShape, WellFormed, TwoAssets, FindRow, FairFill, GapOf, GapAfter,
         ApplyFill, ApplyReplaced;
    var e := Asked();
    AskedWell();
    f := Step(SPOT, e, OVERTAKEN[2]);
    FillStep(SPOT, e, 0, 9);
    FillMovesGap(e, 0, 9, 1);
    AnswerStep(SPOT, f, 0);
    AnswerFair(Eager, f, BuyRow(10, 10));
    AnswerMoves(Eager, f, 0, 1);
    SameConversion(e.acct, f.acct, 0);
    OvertakenGap(InstOf(e.acct, 0));
    StepKeepsOk(SPOT, f, OVERTAKEN[3]);
    BalancesSame(e.acct, f.acct);
    BalancesSame(f.acct, Step(SPOT, f, OVERTAKEN[3]).acct);
  }

  /** Spot-only funds of 100, each request accepted by the gate, each fill at the limit: and 8 overdrawn. */
  lemma OvertakenOverdraws()
    ensures var e := Funded(0, 100);
            && Ok(e) && SPOT.lim.spotOnly && (forall venue :: Solvent(venue, e, 1))
            && LegalRun(SPOT, e, OVERTAKEN) && FairFills(Eager, SPOT, e, OVERTAKEN)
            && SubmitVerdict(SPOT, e, OVERTAKEN[0].q, OVERTAKEN[0].env) == NoReject
            && var f, a := Run(SPOT, e, OVERTAKEN[..1]), OVERTAKEN[1];
               && ReplaceAsked(SPOT, f, a.id, a.px, a.qty, a.env)
               && var r := Run(SPOT, e, OVERTAKEN); |r.acct.bal| == 2 && Free(r.acct, 1) == -8
  {
    hide Step, Ok, LegalRun, Run, Legal, RowsSane, IdsIssued, SubmitVerdict, ReplaceAsked, SameShape, WellFormed,
         Funded, Sent, Asked, FairFill, FairFills, Solvent;
    var e, f, g := Funded(0, 100), Sent(0, 100, 10, 10), Asked();
    var acts := OVERTAKEN;
    StartsWell(0, 100);
    WholeMoney(Inst(0, 1, 1, 0, 1, FLAT), 100);
    BuyIsSent(0, 100, 10, 10);
    ReplaceIsSent();
    AskedWell();
    var h := AnswerOverdraws();
    Start(Eager, SPOT, e);
    assert [] + [acts[0]] == [acts[0]] == acts[..1] && [acts[0]] + [acts[1]] == [acts[0], acts[1]];
    assert [acts[0], acts[1]] + [acts[2]] == [acts[0], acts[1], acts[2]];
    assert [acts[0], acts[1], acts[2]] + [acts[3]] == acts;
    RequestsAreFair(e, acts[0]);
    RequestsAreFair(f, acts[1]);
    ThenFair(e, [], acts[0], e);
    ThenFair(e, [acts[0]], acts[1], f);
    ThenFair(e, [acts[0], acts[1]], acts[2], g);
    ThenFair(e, [acts[0], acts[1], acts[2]], acts[3], h);
  }

  lemma RequestsAreFair(e: Engine, a: Action)
    requires !a.ReportA?
    ensures FairFill(Eager, e, a)
  {
  }

  lemma ThenFair(e: Engine, done: seq<Action>, a: Action, f: Engine)
    requires Ok(e) && LegalRun(SPOT, e, done) && FairFills(Eager, SPOT, e, done) && Run(SPOT, e, done) == f
    requires Legal(f, a) && FairFill(Eager, f, a)
    ensures Ok(f) && LegalRun(SPOT, e, done + [a]) && FairFills(Eager, SPOT, e, done + [a])
    ensures Run(SPOT, e, done + [a]) == Step(SPOT, f, a)
  {
    hide Ok, Step, Legal, LegalRun, FairFill, FairFills;
    RunExtends(SPOT, e, done, a);
    FairExtends(Eager, SPOT, e, done, a);
  }
}
