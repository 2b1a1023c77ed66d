/**
 Exec's account: positions, spot balances with reservations, equity and drawdown. Money is in
 1e-8 units of its asset, prices in ticks and sizes in lots.
 */
module AccountModule {
  import opened Common
  import opened Positions

  // An instrument's assets and unit conversions; tlMul, tlExp turn tick-lots into quote money.
  datatype Inst = Inst(base: nat, quote: nat, tlMul: nat, tlExp: int, basePerLot: nat, pos: Position)

  /** A venue's increments: mantissa and exponent of the tick and of the lot. */
  datatype Grid = Grid(tickMant: nat, tickExp: int, lotMant: nat, lotExp: int)

  datatype Balance = Balance(total: int, reserved: int)

  // The whole account as a value. slotOf maps an instrument id to its row.
  datatype Acct = Acct(slotOf: map<nat, nat>, insts: seq<Inst>, bal: seq<Balance>, peak: int, maxDd: int)

  const EMPTY_BID: int := 0
  const EMPTY_ASK: int := 0x7FFF_FFFF_FFFF_FFFF

  function Pow10(e: nat): (r: nat)
    ensures r >= 1
  {
    if e == 0 then 1 else 10 * Pow10(e - 1)
  }

  /** The instrument's conversions are those of the grid, for money in 1e-8 units. */
  predicate OnGrid(g: Grid, i: Inst) {
    && i.tlMul == g.tickMant * g.lotMant && i.tlExp == g.tickExp + g.lotExp + 8
    && i.basePerLot == g.lotMant * PowerOf10(g.lotExp + 8)
  }

  /** The program's power of ten, which is 1 for exponents below 0. */
  function PowerOf10(e: int): (r: nat)
    ensures r >= 1
  {
    if e > 0 then Pow10(e) else 1
  }

  /** Quote money of a number of tick-lots, truncated toward zero. */
  function TlToMoney(i: Inst, tickLots: int): int {
    var v := tickLots * i.tlMul;
    if i.tlExp >= 0 then v * Pow10(i.tlExp) else TruncDiv(v, Pow10(-i.tlExp))
  }

  function Notional(i: Inst, px: int, qty: int): int {
    TlToMoney(i, px * qty)
  }

  /** What an order ties up: its value in quote when it buys, its lots in base when it sells. */
  function Reservation(i: Inst, side: Side, px: int, qty: int): int {
    if side == Buy then Notional(i, px, qty) else qty * i.basePerLot
  }

  function SideAsset(i: Inst, side: Side): nat {
    if side == Buy then i.quote else i.base
  }

  predicate Trades(a: Acct, inst: nat) {
    inst in a.slotOf && a.slotOf[inst] < |a.insts|
  }

  /** No two instruments share a row. */
  predicate DistinctSlots(a: Acct) {
    forall i, j :: i in a.slotOf && j in a.slotOf && i != j ==> a.slotOf[i] != a.slotOf[j]
  }

  function InstOf(a: Acct, inst: nat): Inst
    requires Trades(a, inst)
  {
    a.insts[a.slotOf[inst]]
  }

  /** The same instruments and assets: what no account operation but registration changes. */
  predicate SameShape(a: Acct, b: Acct) {
    && b.slotOf == a.slotOf && |b.insts| == |a.insts| && |b.bal| == |a.bal|
    && forall k :: 0 <= k < |a.insts| ==> b.insts[k].(pos := a.insts[k].pos) == a.insts[k]
  }

  /** Every instrument's assets exist. */
  predicate WellFormed(a: Acct) {
    forall k :: 0 <= k < |a.insts| ==> a.insts[k].base < |a.bal| && a.insts[k].quote < |a.bal|
  }

  function Reserve(a: Acct, inst: nat, side: Side, px: int, qty: int): (b: Acct)
    requires WellFormed(a) && Trades(a, inst)
    ensures WellFormed(b) && SameShape(a, b)
  {
    var i := InstOf(a, inst);
    var k := SideAsset(i, side);
    a.(bal := a.bal[k := a.bal[k].(reserved := a.bal[k].reserved + Reservation(i, side, px, qty))])
  }

  function Release(a: Acct, inst: nat, side: Side, px: int, qty: int): (b: Acct)
    requires WellFormed(a) && Trades(a, inst)
    ensures WellFormed(b) && SameShape(a, b)
  {
    var i := InstOf(a, inst);
    var k := SideAsset(i, side);
    a.(bal := a.bal[k := a.bal[k].(reserved := a.bal[k].reserved - Reservation(i, side, px, qty))])
  }

  function Credit(bal: seq<Balance>, k: nat, amount: int): (r: seq<Balance>)
    requires k < |bal|
    ensures |r| == |bal|
  {
    bal[k := bal[k].(total := bal[k].total + amount)]
  }

  function Paid(bal: seq<Balance>, i: Inst, side: Side, lots: int, value: int): (r: seq<Balance>)
    requires i.base < |bal| && i.quote < |bal|
    ensures |r| == |bal|
  {
    Credit(Credit(bal, i.base, if side == Buy then lots else -lots), i.quote, if side == Buy then -value else value)
  }

  function FeeInQuote(i: Inst, value: int, qty: int, fee: int, inBase: bool): int {
    if !inBase then fee else if qty * i.basePerLot > 0 then TruncDiv(fee * value, qty * i.basePerLot) else 0
  }

  /** Balances and position after an execution of qty lots at px, the release included. */
  function Executed(a: Acct, inst: nat, side: Side, px: int, qty: int, orderPx: int, fee: int,
                    feeInBase: bool): (b: Acct)
    requires WellFormed(a) && Trades(a, inst)
    ensures WellFormed(b) && SameShape(a, b) && b.peak == a.peak && b.maxDd == a.maxDd
  {
    var r := Release(a, inst, side, orderPx, qty);
    var i := InstOf(a, inst);
    var value := Notional(i, px, qty);
    var paid := Paid(r.bal, i, side, qty * i.basePerLot, value);
    var net := Credit(paid, if feeInBase then i.base else i.quote, -fee);
    var pos := Filled(i.pos.(fees := i.pos.fees + FeeInQuote(i, value, qty, fee, feeInBase)), Fill(side, px, qty));
    r.(bal := net, insts := r.insts[a.slotOf[inst] := i.(pos := pos)])
  }

  function Realized(i: Inst): int {
    TlToMoney(i, i.pos.realized)
  }

  /** Half of qty * mark2 - 2 * cost, at the last mark; 0 when flat or never marked. */
  function Unrealized(i: Inst): int {
    if i.pos.mark2 == 0 || i.pos.qty == 0 then 0
    else TlToMoney(i, TruncDiv(i.pos.qty * i.pos.mark2 - 2 * i.pos.cost, 2))
  }

  function EquityOf(insts: seq<Inst>): int {
    if insts == [] then 0
    else
      var i := insts[|insts| - 1];
      EquityOf(insts[..|insts| - 1]) + Realized(i) + Unrealized(i) - i.pos.fees
  }

  /** The running peak and the deepest fall from it. */
  function Tracked(a: Acct): (b: Acct)
    ensures b.insts == a.insts && b.slotOf == a.slotOf && b.bal == a.bal
  {
    var e := EquityOf(a.insts);
    var peak := if e > a.peak then e else a.peak;
    a.(peak := peak, maxDd := if peak - e > a.maxDd then peak - e else a.maxDd)
  }

  function OnFill(a: Acct, inst: nat, side: Side, px: int, qty: int, orderPx: int, fee: int, feeInBase: bool): (b: Acct)
    requires WellFormed(a) && Trades(a, inst)
    ensures WellFormed(b) && SameShape(a, b)
  {
    Tracked(Executed(a, inst, side, px, qty, orderPx, fee, feeInBase))
  }

  function Marked(a: Acct, inst: nat, bid: int, ask: int): (b: Acct)
    requires WellFormed(a)
    ensures WellFormed(b) && SameShape(a, b)
  {
    if !Trades(a, inst) || bid == EMPTY_BID || ask == EMPTY_ASK then a
    else
      var k := a.slotOf[inst];
      Tracked(a.(insts := a.insts[k := a.insts[k].(pos := a.insts[k].pos.(mark2 := bid + ask))]))
  }

  /** Position of the first separator of a pair's symbol, or its length. */
  function Separator(symbol: string): (k: nat)
    ensures k <= |symbol| && (k < |symbol| ==> symbol[k] in {'/', '-'})
    ensures forall j :: 0 <= j < k ==> symbol[j] !in {'/', '-'}
  {
    if symbol == [] || symbol[0] in {'/', '-'} then 0 else 1 + Separator(symbol[1..])
  }

  const NAME_LENGTH: nat := 7

  function ShortName(name: string): string {
    if |name| > NAME_LENGTH then name[..NAME_LENGTH] else name
  }

  /** Base and quote of a venue's symbol; a bare ticker is quoted in USD. */
  function SplitSymbol(symbol: string): (string, string) {
    var k := Separator(symbol);
    if k == |symbol| then (ShortName(symbol), "USD") else (ShortName(symbol[..k]), ShortName(symbol[k + 1..]))
  }

  /** A symbol written of two names, either way, splits into them, and a bare ticker is itself in USD. */
  lemma SplitRoundTrip(base: string, quote: string, sep: char)
    requires sep in {'/', '-'} && |base| <= NAME_LENGTH && |quote| <= NAME_LENGTH
    requires forall j :: 0 <= j < |base| ==> base[j] !in {'/', '-'}
    ensures SplitSymbol(base + [sep] + quote) == (base, quote) && SplitSymbol(base) == (base, "USD")
  {
    var symbol := base + [sep] + quote;
    assert symbol[|base|] == sep;
    assert symbol[..|base|] == base && symbol[|base| + 1..] == quote;
  }

  /** Asset names once this one is among them, if there is room. */
  function WithName(names: seq<string>, max: nat, name: string): Option<seq<string>> {
    if name in names then Some(names) else if |names| == max then None else Some(names + [name])
  }

  /** Both names of a pair can be had; the first may take the last room from the second. */
  predicate PairFits(names: seq<string>, max: nat, base: string, quote: string) {
    WithName(names, max, base).Some? && WithName(WithName(names, max, base).value, max, quote).Some?
  }

  class Account {
    var slotOf: map<nat, nat>
    var insts: seq<Inst>
    var bal: seq<Balance>
    var peak: int
    var maxDd: int
    var names: seq<string>  // of the assets, in the order of bal
    const maxInstruments: nat
    const maxAssets: nat

    function Value(): Acct
      reads this
    {
      Acct(slotOf, insts, bal, peak, maxDd)
    }

    constructor (maxInstruments: nat, maxAssets: nat)
      ensures Value() == Acct(map[], [], [], 0, 0) && Registered()
      ensures this.maxInstruments == maxInstruments && this.maxAssets == maxAssets && names == []
    {
      this.maxInstruments, this.maxAssets := maxInstruments, maxAssets;
      slotOf, insts, bal, peak, maxDd, names := map[], [], [], 0, 0, [];
    }

    /** Every asset has one name, and every instrument its row and its assets. */
    ghost predicate Registered()
      reads this
    {
      && WellFormed(Value()) && |insts| <= maxInstruments && |names| == |bal| <= maxAssets
      && (forall i :: i in slotOf ==> slotOf[i] < |insts|)
      && (forall i, j :: 0 <= i < j < |names| ==> names[i] != names[j])
    }

    /** Finds an asset by name, or adds it with no funds; none when the account has no room for it. */
    method Asset(name: string) returns (k: Option<nat>)
      requires Registered()
      modifies this`names, this`bal
      ensures Registered() && Some(names) == if k.Some? then WithName(old(names), maxAssets, name) else Some(old(names))
      ensures k.Some? <==> WithName(old(names), maxAssets, name).Some?
      ensures k.Some? ==> k.value < |bal| && names[k.value] == name
      ensures bal == old(bal) + seq(|bal| - |old(bal)|, _ => Balance(0, 0)) && |bal| >= |old(bal)|
    {
      for i := 0 to |names|
        invariant name !in names[..i]
      {
        if names[i] == name {
          return Some(i);
        }
      }
      if |bal| == maxAssets {
        return None;
      }
      names, bal := names + [name], bal + [Balance(0, 0)];
      return Some(|bal| - 1);
    }

    method SetBalance(name: string, total: int)
      requires Registered()
      modifies this`names, this`bal
      ensures Registered() && (name in names <==> WithName(old(names), maxAssets, name).Some?)
      ensures |bal| >= |old(bal)| == |old(names)| && names[..|old(names)|] == old(names)
      ensures forall k :: 0 <= k < |bal| && names[k] == name ==> bal[k].total == total
      ensures forall k :: 0 <= k < |old(bal)| && names[k] != name ==> bal[k] == old(bal)[k]
      ensures forall k :: 0 <= k < |old(bal)| ==> bal[k].reserved == old(bal)[k].reserved
    {
      var k := Asset(name);
      if k.Some? {
        bal := bal[k.value := bal[k.value].(total := total)];
      }
    }

    /**
     Registers an instrument and its assets; one already registered stays as it is. False when
     there is no room for the instrument or for one of its assets.
     */
    method AddInstrument(inst: nat, symbol: string, g: Grid) returns (ok: bool)
      requires Registered()
      modifies this
      ensures Registered() && peak == old(peak) && maxDd == old(maxDd)
      ensures ok <==> inst in old(slotOf)
                      || (|old(insts)| < maxInstruments
                          && PairFits(old(names), maxAssets, SplitSymbol(symbol).0, SplitSymbol(symbol).1))
      ensures inst in old(slotOf) || !ok ==> slotOf == old(slotOf) && insts == old(insts)
      ensures inst in old(slotOf) ==> Value() == old(Value()) && names == old(names)
      ensures ok && inst !in old(slotOf) ==>
                && slotOf == old(slotOf)[inst := |old(insts)|]
                && |insts| == |old(insts)| + 1 && insts[..|old(insts)|] == old(insts)
                && var i := InstOf(Value(), inst);
                   && OnGrid(g, i) && i.pos == FLAT
                   && (names[i.base], names[i.quote]) == SplitSymbol(symbol)
      ensures |bal| >= |old(bal)| && bal == old(bal) + seq(|bal| - |old(bal)|, _ => Balance(0, 0))
      ensures old(DistinctSlots(Value())) ==> DistinctSlots(Value())
    {
      if inst in slotOf {
        return true;
      }
      if |insts| == maxInstruments {
        return false;
      }
      hide WithName, SplitSymbol;
      var (base, quote) := SplitSymbol(symbol);
      var b := Asset(base);
      ghost var withBase := names;
      assert b.Some? ==> WithName(old(names), maxAssets, base) == Some(withBase);
      var q := Asset(quote);
      assert q.Some? <==> WithName(withBase, maxAssets, quote).Some?;
      if b.None? || q.None? {
        return false;
      }
      slotOf := slotOf[inst := |insts|];
      var perLot := g.lotMant * PowerOf10(g.lotExp + 8);
      insts := insts + [Inst(b.value, q.value, g.tickMant * g.lotMant, g.tickExp + g.lotExp + 8, perLot, FLAT)];
      return true;
    }

    method ReserveFunds(inst: nat, side: Side, px: int, qty: int)
      requires WellFormed(Value()) && Trades(Value(), inst)
      modifies this
      ensures Value() == Reserve(old(Value()), inst, side, px, qty)
    {
      var i := insts[slotOf[inst]];
      var k := SideAsset(i, side);
      bal := bal[k := bal[k].(reserved := bal[k].reserved + Reservation(i, side, px, qty))];
    }

    method ReleaseFunds(inst: nat, side: Side, px: int, qty: int)
      requires WellFormed(Value()) && Trades(Value(), inst)
      modifies this
      ensures Value() == Release(old(Value()), inst, side, px, qty)
    {
      var i := insts[slotOf[inst]];
      var k := SideAsset(i, side);
      bal := bal[k := bal[k].(reserved := bal[k].reserved - Reservation(i, side, px, qty))];
    }

    method OnFillReport(inst: nat, side: Side, px: int, qty: int, orderPx: int, fee: int, feeInBase: bool)
      requires WellFormed(Value()) && Trades(Value(), inst)
      modifies this
      ensures Value() == OnFill(old(Value()), inst, side, px, qty, orderPx, fee, feeInBase)
    {
      hide Filled, EquityOf, TlToMoney, Reservation, FeeInQuote, Credit, Tracked, Paid;
      ReleaseFunds(inst, side, orderPx, qty);
      var i := insts[slotOf[inst]];
      var value := Notional(i, px, qty);
      Pay(i, side, qty * i.basePerLot, value);
      Charge(if feeInBase then i.base else i.quote, fee);
      var p := i.pos.(fees := i.pos.fees + FeeInQuote(i, value, qty, fee, feeInBase));
      insts := insts[slotOf[inst] := i.(pos := Filled(p, Fill(side, px, qty)))];
      TrackEquity();
    }

    /** The exchange of base for quote. */
    method Pay(i: Inst, side: Side, lots: int, value: int)
      requires i.base < |bal| && i.quote < |bal|
      modifies this`bal
      ensures bal == Paid(old(bal), i, side, lots, value)
    {
      if side == Buy {
        bal := Credit(bal, i.base, lots);
        bal := Credit(bal, i.quote, -value);
      } else {
        bal := Credit(bal, i.base, -lots);
        bal := Credit(bal, i.quote, value);
      }
    }

    method Charge(asset: nat, fee: int)
      requires asset < |bal|
      modifies this`bal
      ensures bal == Credit(old(bal), asset, -fee)
    {
      bal := Credit(bal, asset, -fee);
    }

    method Mark(inst: nat, bid: int, ask: int)
      requires WellFormed(Value())
      modifies this
      ensures Value() == Marked(old(Value()), inst, bid, ask)
    {
      hide EquityOf;
      if inst !in slotOf || slotOf[inst] >= |insts| || bid == EMPTY_BID || ask == EMPTY_ASK {
        return;
      }
      var k := slotOf[inst];
      insts := insts[k := insts[k].(pos := insts[k].pos.(mark2 := bid + ask))];
      TrackEquity();
    }

    method Equity() returns (e: int)
      ensures e == EquityOf(insts)
    {
      e := 0;
      for k := 0 to |insts|
        invariant e == EquityOf(insts[..k])
      {
        assert insts[..k + 1][..k] == insts[..k];
        e := e + Realized(insts[k]) + Unrealized(insts[k]) - insts[k].pos.fees;
      }
      assert insts[..|insts|] == insts;
    }

    method TrackEquity()
      modifies this`peak, this`maxDd
      ensures Value() == Tracked(old(Value()))
    {
      var e := Equity();
      if e > peak {
        peak := e;
      }
      if peak - e > maxDd {
        maxDd := peak - e;
      }
    }
  }

  // Account operations that track equity.
  datatype Op = FillOp(inst: nat, side: Side, px: int, qty: int, orderPx: int, fee: int, feeInBase: bool)
              | MarkOp(inst: nat, bid: int, ask: int)

  function Apply(a: Acct, op: Op): (b: Acct)
    requires WellFormed(a)
    ensures WellFormed(b)
  {
    match op
    case FillOp(inst, side, px, qty, orderPx, fee, inBase) =>
      if Trades(a, inst) then OnFill(a, inst, side, px, qty, orderPx, fee, inBase) else a
    case MarkOp(inst, bid, ask) => Marked(a, inst, bid, ask)
  }

  function ApplyAll(a: Acct, ops: seq<Op>): (b: Acct)
    requires WellFormed(a)
    ensures WellFormed(b)
  {
    if ops == [] then a else Apply(ApplyAll(a, ops[..|ops| - 1]), ops[|ops| - 1])
  }

  /** An unknown instrument, or a mark without both sides. */
  predicate Ignored(a: Acct, op: Op) {
    match op
    case FillOp(inst, _, _, _, _, _, _) => !Trades(a, inst)
    case MarkOp(inst, bid, ask) => !Trades(a, inst) || bid == EMPTY_BID || ask == EMPTY_ASK
  }

  lemma ApplyTracks(a: Acct, op: Op)
    requires WellFormed(a)
    ensures var b := Apply(a, op);
            if Ignored(a, op) then b == a
            else
              var e := EquityOf(b.insts);
              var top := if e > a.peak then e else a.peak;
              b.peak == top && b.maxDd == if top - e > a.maxDd then top - e else a.maxDd
  {
    hide EquityOf, Executed;
  }

  /** The equities that a run has tracked, the starting 0 first; an ignored operation repeats the last. */
  function Equities(a: Acct, ops: seq<Op>): (es: seq<int>)
    requires WellFormed(a)
    ensures |es| >= 1
  {
    if ops == [] then [0]
    else
      var before := ApplyAll(a, ops[..|ops| - 1]);
      var op := ops[|ops| - 1];
      var es := Equities(a, ops[..|ops| - 1]);
      if Ignored(before, op) then es else es + [EquityOf(Apply(before, op).insts)]
  }

  /** The highest of the equities, and the deepest fall from an earlier one to a later one. */
  ghost predicate IsPeak(es: seq<int>, peak: int) {
    peak in es && forall i :: 0 <= i < |es| ==> es[i] <= peak
  }

  ghost predicate IsMaxDrawdown(es: seq<int>, dd: int) {
    && (exists i, j :: 0 <= i <= j < |es| && dd == es[i] - es[j])
    && (forall i, j :: 0 <= i <= j < |es| ==> es[i] - es[j] <= dd)
  }

  lemma TrackStep(es: seq<int>, peak: int, dd: int, e: int)
    requires IsPeak(es, peak) && IsMaxDrawdown(es, dd)
    ensures var top := Max(e, peak); IsPeak(es + [e], top) && IsMaxDrawdown(es + [e], Max(top - e, dd))
  {
    PeakStep(es, peak, e);
    DrawdownStep(es, peak, dd, e);
  }

  lemma PeakStep(es: seq<int>, peak: int, e: int)
    requires IsPeak(es, peak)
    ensures IsPeak(es + [e], Max(e, peak))
  {
    assert (es + [e])[|es|] == e;
    var k :| 0 <= k < |es| && es[k] == peak;
    assert (es + [e])[k] == peak;
  }

  lemma DrawdownStep(es: seq<int>, peak: int, dd: int, e: int)
    requires IsPeak(es, peak) && IsMaxDrawdown(es, dd)
    ensures IsMaxDrawdown(es + [e], Max(Max(e, peak) - e, dd))
  {
    var longer, n, deeper := es + [e], |es|, Max(Max(e, peak) - e, dd);
    forall i, j | 0 <= i <= j < |longer|
      ensures longer[i] - longer[j] <= deeper
    {
      assert j < n ==> longer[i] == es[i] && longer[j] == es[j];
      assert j == n && i < n ==> longer[i] == es[i] <= peak;
    }
    var i, j :| 0 <= i <= j < n && dd == es[i] - es[j];
    var k :| 0 <= k < n && es[k] == peak;
    assert longer[i] - longer[j] == dd && longer[k] - longer[n] == peak - e && longer[n] - longer[n] == 0;
  }

  /** After any run of fills and marks the online peak and drawdown are those of the tracked equities. */
  lemma {:induction false} DrawdownExact(a: Acct, ops: seq<Op>)
    requires WellFormed(a) && a.peak == 0 && a.maxDd == 0
    ensures var b, es := ApplyAll(a, ops), Equities(a, ops);
            IsPeak(es, b.peak) && IsMaxDrawdown(es, b.maxDd)
  {
    hide EquityOf, IsPeak, IsMaxDrawdown, Apply, Ignored;
    if ops == [] {
      DrawdownStart();
    } else {
      var front, op := ops[..|ops| - 1], ops[|ops| - 1];
      DrawdownExact(a, front);
      var b := ApplyAll(a, front);
      ApplyTracks(b, op);
      TrackStep(Equities(a, front), b.peak, b.maxDd, EquityOf(Apply(b, op).insts));
    }
  }

  lemma DrawdownStart()
    ensures IsPeak([0], 0) && IsMaxDrawdown([0], 0)
  {
    assert [0][0] == 0;
    assert 0 == [0][0] - [0][0];
  }
}
