/** The money and quantity side of a close: PnL of the filled legs, the evidence a bill needs,
    the balance and residual left behind, and the new holding of the position. */
module CloseAccounting {
  import opened Domain

  /** A filled close order. */
  datatype CloseLeg = CloseLeg(fill: OrderFill, clientOrderId: Id) {
    /** The client id to record: the one the venue reports, else the one submitted. */
    function RecordedClientOrderId(): Id {
      OrElse(fill.clientOrderId, clientOrderId)
    }
  }

  /** What a close reads of the position and never changes. */
  datatype PositionFacts = PositionFacts(
    positionId: string,
    longVenue: Venue,
    shortVenue: Venue,
    longEntryPrice: real,
    shortEntryPrice: real,
    longEntryFee: real,
    shortEntryFee: real,
    entryFeeEvidenceComplete: bool,
    capturedFunding: real,
    secondStageFunding: real)
  {
    function Funding(): real {
      capturedFunding + secondStageFunding
    }

    function EntryFees(): real {
      longEntryFee + shortEntryFee
    }
  }

  /** What a close updates. */
  datatype Holding = Holding(
    matched: real,
    longQty: real,
    shortQty: real,
    realizedPricePnl: real,
    realizedExitFee: real,
    currentNet: real)

  datatype CloseExecution = CloseExecution(
    longClosePrice: real,
    shortClosePrice: real,
    longCloseQty: real,
    shortCloseQty: real,
    longFee: real,
    shortFee: real,
    realizedPricePnl: real,
    fundingPnl: real,
    net: real)

  // ---------------------------------------------------------------------------------------------
  // Sums over legs
  // ---------------------------------------------------------------------------------------------

  function Sum(legs: seq<CloseLeg>, f: CloseLeg -> real): real {
    if legs == [] then 0.0 else Sum(legs[..|legs| - 1], f) + f(legs[|legs| - 1])
  }

  lemma {:induction false} SumConcat(a: seq<CloseLeg>, b: seq<CloseLeg>, f: CloseLeg -> real)
    ensures Sum(a + b, f) == Sum(a, f) + Sum(b, f)
    decreases |b|
  {
    if b == [] {
      assert a + b == a;
    } else {
      SumConcat(a, b[..|b| - 1], f);
      assert (a + b)[..|a + b| - 1] == a + b[..|b| - 1];
    }
  }

  const QTY: CloseLeg -> real := (leg: CloseLeg) => leg.fill.quantity
  const NOTIONAL: CloseLeg -> real := (leg: CloseLeg) => leg.fill.price * leg.fill.quantity
  const FEE: CloseLeg -> real := (leg: CloseLeg) => leg.fill.fee.GetOr(0.0)

  function LongPnl(entry: real): CloseLeg -> real {
    (leg: CloseLeg) => (leg.fill.price - entry) * leg.fill.quantity
  }

  function ShortPnl(entry: real): CloseLeg -> real {
    (leg: CloseLeg) => (entry - leg.fill.price) * leg.fill.quantity
  }

  predicate NonNegative(legs: seq<CloseLeg>) {
    forall leg :: leg in legs ==> leg.fill.quantity >= 0.0
  }

  // ---------------------------------------------------------------------------------------------
  // PnL of a close
  // ---------------------------------------------------------------------------------------------

  /** Volume-weighted price; zero when nothing was filled. */
  function Vwap(legs: seq<CloseLeg>): real {
    var qty := Sum(legs, QTY);
    if qty != 0.0 then Sum(legs, NOTIONAL) / qty else 0.0
  }

  function BuildCloseExecution(facts: PositionFacts, shortLegs: seq<CloseLeg>,
      longLegs: seq<CloseLeg>): CloseExecution {
    var pricePnl := Sum(longLegs, LongPnl(facts.longEntryPrice)) + Sum(shortLegs, ShortPnl(facts.shortEntryPrice));
    var longFee := Sum(longLegs, FEE);
    var shortFee := Sum(shortLegs, FEE);
    CloseExecution(
      Vwap(longLegs), Vwap(shortLegs), Sum(longLegs, QTY), Sum(shortLegs, QTY), longFee, shortFee,
      pricePnl, facts.Funding(),
      pricePnl + facts.capturedFunding + facts.secondStageFunding - (longFee + shortFee))
  }

  lemma {:induction false} PnlIsNotionalDifference(legs: seq<CloseLeg>, entry: real)
    ensures Sum(legs, LongPnl(entry)) == Sum(legs, NOTIONAL) - entry * Sum(legs, QTY)
    ensures Sum(legs, ShortPnl(entry)) == entry * Sum(legs, QTY) - Sum(legs, NOTIONAL)
  {
    if legs != [] {
      PnlIsNotionalDifference(legs[..|legs| - 1], entry);
    }
  }

  lemma {:induction false} NothingFilled(legs: seq<CloseLeg>)
    requires NonNegative(legs)
    ensures Sum(legs, QTY) >= 0.0
    ensures Sum(legs, QTY) == 0.0 ==> Sum(legs, NOTIONAL) == 0.0
  {
    if legs != [] {
      NothingFilled(legs[..|legs| - 1]);
      assert legs[|legs| - 1] in legs;
    }
  }

  lemma VwapTimesQuantity(legs: seq<CloseLeg>)
    requires NonNegative(legs)
    ensures Vwap(legs) * Sum(legs, QTY) == Sum(legs, NOTIONAL)
  {
    NothingFilled(legs);
  }

  function Gain(from: real, to: real, quantity: real): real {
    (to - from) * quantity
  }

  /** The leg-by-leg price PnL is the volume-weighted form, with the sign reversed on the short leg. */
  lemma PricePnlIsVwapForm(facts: PositionFacts, shortLegs: seq<CloseLeg>, longLegs: seq<CloseLeg>)
    requires NonNegative(shortLegs) && NonNegative(longLegs)
    ensures var c := BuildCloseExecution(facts, shortLegs, longLegs);
            c.realizedPricePnl == Gain(facts.longEntryPrice, c.longClosePrice, c.longCloseQty)
                                - Gain(facts.shortEntryPrice, c.shortClosePrice, c.shortCloseQty)
  {
    LegPnlIsVwapForm(longLegs, facts.longEntryPrice);
    LegPnlIsVwapForm(shortLegs, facts.shortEntryPrice);
  }

  lemma LegPnlIsVwapForm(legs: seq<CloseLeg>, entry: real)
    requires NonNegative(legs)
    ensures Sum(legs, LongPnl(entry)) == Gain(entry, Vwap(legs), Sum(legs, QTY))
    ensures Sum(legs, ShortPnl(entry)) == -Gain(entry, Vwap(legs), Sum(legs, QTY))
  {
    PnlIsNotionalDifference(legs, entry);
    VwapTimesQuantity(legs);
    Distributes(Vwap(legs), entry, Sum(legs, QTY));
  }

  lemma Distributes(a: real, b: real, c: real)
    ensures (a - b) * c == a * c - b * c
  {
  }

  /** Closing in two parts realizes what closing the joined legs realizes. Only the funding is
      counted once per part. */
  lemma CloseExecutionIsAdditive(facts: PositionFacts,
      short1: seq<CloseLeg>, long1: seq<CloseLeg>, short2: seq<CloseLeg>, long2: seq<CloseLeg>)
    ensures var a := BuildCloseExecution(facts, short1, long1);
            var b := BuildCloseExecution(facts, short2, long2);
            var c := BuildCloseExecution(facts, short1 + short2, long1 + long2);
            && c.realizedPricePnl == a.realizedPricePnl + b.realizedPricePnl
            && c.longFee == a.longFee + b.longFee && c.shortFee == a.shortFee + b.shortFee
            && c.longCloseQty == a.longCloseQty + b.longCloseQty
            && c.shortCloseQty == a.shortCloseQty + b.shortCloseQty
            && c.net == a.net + b.net - facts.Funding()
  {
    SumConcat(long1, long2, LongPnl(facts.longEntryPrice));
    SumConcat(short1, short2, ShortPnl(facts.shortEntryPrice));
    SumConcat(long1, long2, FEE);
    SumConcat(short1, short2, FEE);
    SumConcat(long1, long2, QTY);
    SumConcat(short1, short2, QTY);
  }

  /** build_exit_pnl_attribution, its net. */
  function AttributedNet(facts: PositionFacts, close: CloseExecution): real {
    close.realizedPricePnl + facts.Funding() - facts.EntryFees() - (close.longFee + close.shortFee)
  }

  lemma AttributionChargesEntryFees(facts: PositionFacts, shortLegs: seq<CloseLeg>, longLegs: seq<CloseLeg>)
    ensures var c := BuildCloseExecution(facts, shortLegs, longLegs);
            AttributedNet(facts, c) == c.net - facts.EntryFees()
  {
  }

  // ---------------------------------------------------------------------------------------------
  // Evidence a bill needs
  // ---------------------------------------------------------------------------------------------

  datatype Gap =
    | ExecutionUnconfirmed(leg: LegLabel)
    | EntryPriceUnavailable(leg: LegLabel)
    | EntryFeeUnavailable
    | ClosePriceUnavailable(leg: LegLabel)
    | ExitFeeUnavailable(leg: LegLabel)

  predicate Counted(leg: CloseLeg) {
    leg.fill.quantity > QTY_EPS
  }

  predicate PriceValid(leg: CloseLeg) {
    leg.fill.price > 0.0
  }

  predicate FeeValid(leg: CloseLeg) {
    leg.fill.fee.Some? && leg.fill.fee.value >= 0.0
  }

  function GapIf(missing: bool, gap: Gap): seq<Gap> {
    if missing then [gap] else []
  }

  function LegGaps(side: LegLabel, legs: seq<CloseLeg>): seq<Gap> {
    GapIf((exists leg :: leg in legs && Counted(leg) && !PriceValid(leg)), ClosePriceUnavailable(side))
    + GapIf((exists leg :: leg in legs && Counted(leg) && !FeeValid(leg)), ExitFeeUnavailable(side))
  }

  /** close_accounting_evidence_gaps. */
  function EvidenceGaps(facts: PositionFacts, longLegs: seq<CloseLeg>, shortLegs: seq<CloseLeg>,
      longUnresolved: bool, shortUnresolved: bool): seq<Gap>
  {
    GapIf(longUnresolved, ExecutionUnconfirmed(LongLeg))
    + GapIf(shortUnresolved, ExecutionUnconfirmed(ShortLeg))
    + GapIf(!(facts.longEntryPrice > 0.0), EntryPriceUnavailable(LongLeg))
    + GapIf(!(facts.shortEntryPrice > 0.0), EntryPriceUnavailable(ShortLeg))
    + GapIf(!facts.entryFeeEvidenceComplete, EntryFeeUnavailable)
    + LegGaps(LongLeg, longLegs)
    + LegGaps(ShortLeg, shortLegs)
  }

  predicate Billable(legs: seq<CloseLeg>) {
    forall leg :: leg in legs && Counted(leg) ==> PriceValid(leg) && FeeValid(leg)
  }

  /** No gap is reported exactly when both executions are confirmed, the entry is known, and every
      positive fill has a price and a fee. */
  lemma NoGapsMeansCompleteEvidence(facts: PositionFacts, longLegs: seq<CloseLeg>, shortLegs: seq<CloseLeg>,
      longUnresolved: bool, shortUnresolved: bool)
    ensures EvidenceGaps(facts, longLegs, shortLegs, longUnresolved, shortUnresolved) == []
            <==> !longUnresolved && !shortUnresolved
                 && facts.longEntryPrice > 0.0 && facts.shortEntryPrice > 0.0
                 && facts.entryFeeEvidenceComplete
                 && Billable(longLegs) && Billable(shortLegs)
  {
    assert LegGaps(LongLeg, longLegs) == [] <==> Billable(longLegs);
    assert LegGaps(ShortLeg, shortLegs) == [] <==> Billable(shortLegs);
  }

  // ---------------------------------------------------------------------------------------------
  // Balance, residual and the new holding
  // ---------------------------------------------------------------------------------------------

  datatype CloseBalance = CloseBalance(matchedClosed: real, matchedRemaining: real, longRemaining: real,
      shortRemaining: real)

  function BalanceAfterClose(position: real, longClosed: real, shortClosed: real): CloseBalance {
    var longRemaining := Max(position - longClosed, 0.0);
    var shortRemaining := Max(position - shortClosed, 0.0);
    var matchedRemaining := Min(longRemaining, shortRemaining);
    CloseBalance(Max(position - matchedRemaining, 0.0), matchedRemaining, longRemaining, shortRemaining)
  }

  datatype ResidualTask = ResidualTask(positionId: string, venue: Venue, side: Side, quantity: real)

  /** split_close_fill_residual: the leg that closed less is over-exposed. */
  function SplitResidual(facts: PositionFacts, matched: real, longClosed: real,
      shortClosed: real): Option<ResidualTask> {
    var balance := BalanceAfterClose(matched, longClosed, shortClosed);
    var delta := balance.longRemaining - balance.shortRemaining;
    if Abs(delta) <= FLAT_EPS then None
    else if delta > 0.0 then Some(ResidualTask(facts.positionId, facts.longVenue, Sell, delta))
    else Some(ResidualTask(facts.positionId, facts.shortVenue, Buy, -delta))
  }

  /** The quantities and sums _writeback_to_state leaves in the position. */
  function ApplyClose(h: Holding, close: CloseExecution, longClosed: real, shortClosed: real,
      evidenceComplete: bool): Holding {
    var paid := close.longFee + close.shortFee;
    Holding(
      Max(h.matched - Min(longClosed, shortClosed), 0.0),
      Max(h.longQty - longClosed, 0.0),
      Max(h.shortQty - shortClosed, 0.0),
      if evidenceComplete then h.realizedPricePnl + close.realizedPricePnl else h.realizedPricePnl,
      if evidenceComplete then h.realizedExitFee + paid else h.realizedExitFee,
      if evidenceComplete then h.currentNet + close.net else h.currentNet)
  }

  /** What the task says to do, on the remaining (long, short) quantities. */
  function FillTask(task: Option<ResidualTask>, balance: CloseBalance): (real, real) {
    match task
    case None => (balance.longRemaining, balance.shortRemaining)
    case Some(t) =>
      if t.side == Sell then (balance.longRemaining - t.quantity, balance.shortRemaining)
      else (balance.longRemaining, balance.shortRemaining - t.quantity)
  }

  /** The position keeps more matched quantity than the balance counts, by exactly what the residual task
      is to close; filling the task on its venue and side brings both legs to the balance. */
  lemma ResidualTaskSettlesWriteback(facts: PositionFacts, h: Holding, close: CloseExecution,
      longClosed: real, shortClosed: real, evidenceComplete: bool)
    requires h.matched >= 0.0 && longClosed >= 0.0 && shortClosed >= 0.0
    ensures var balance := BalanceAfterClose(h.matched, longClosed, shortClosed);
            var task := SplitResidual(facts, h.matched, longClosed, shortClosed);
            var excess := ApplyClose(h, close, longClosed, shortClosed,
                evidenceComplete).matched - balance.matchedRemaining;
            && (task.None? <==> excess <= FLAT_EPS)
            && (task.None? ==> 0.0 <= excess)
            && (task.Some? ==> && task.value.quantity == excess
                               && (task.value.side == Sell <==> longClosed < shortClosed)
                               && task.value.venue == (if longClosed < shortClosed then facts.longVenue
                               else facts.shortVenue)
                               && FillTask(task, balance) == (balance.matchedRemaining, balance.matchedRemaining))
  {
  }
}
