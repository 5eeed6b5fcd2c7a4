/** The life of a position: opened from two entry fills, then closed in any number of parts. */
module PositionLifecycle {
  import opened Domain
  import opened CloseAccounting
  import ClosePosition
  import Exchange

  // ---------------------------------------------------------------------------------------------
  // Opening
  // ---------------------------------------------------------------------------------------------

  /** The share of a fill's fee that belongs to the matched quantity. */
  function AttributedFee(fill: OrderFill, matched: real): real {
    if fill.quantity > 0.0 then ExactFee(fill).GetOr(0.0) * (matched / fill.quantity) else 0.0
  }

  function ExactFee(fill: OrderFill): Option<real> {
    if fill.fee.Some? && fill.fee.value >= 0.0 then fill.fee else None
  }

  /** build_open_position: facts and holding of a position entered by these fills. No funding is captured yet. */
  function BuildOpenPosition(positionId: string, longVenue: Venue, shortVenue: Venue, makerIsLong: bool,
      makerFill: OrderFill, hedgeFill: OrderFill): (PositionFacts, Holding)
  {
    var matched := Min(makerFill.quantity, hedgeFill.quantity);
    var (longFill, shortFill) := if makerIsLong then (makerFill, hedgeFill) else (hedgeFill, makerFill);
    var longFee := AttributedFee(longFill, matched);
    var shortFee := AttributedFee(shortFill, matched);
    (PositionFacts(positionId, longVenue, shortVenue, longFill.price, shortFill.price, longFee, shortFee,
       ExactFee(longFill).Some? && ExactFee(shortFill).Some?, 0.0, 0.0),
     Holding(matched, matched, matched, 0.0, 0.0, -(longFee + shortFee)))
  }

  /** A fee is charged in part, and in full when the fill is matched in full. */
  lemma FeeIsShared(fill: OrderFill, matched: real)
    requires 0.0 < matched <= fill.quantity
    ensures 0.0 <= AttributedFee(fill, matched) <= ExactFee(fill).GetOr(0.0)
    ensures matched == fill.quantity ==> AttributedFee(fill, matched) == ExactFee(fill).GetOr(0.0)
  {
    Share(ExactFee(fill).GetOr(0.0), matched, fill.quantity);
  }

  lemma Share(fee: real, part: real, whole: real)
    requires fee >= 0.0 && 0.0 < part <= whole
    ensures 0.0 <= fee * (part / whole) <= fee
    ensures part == whole ==> fee * (part / whole) == fee
  {
    UnitShare(part, whole);
    assert fee * (part / whole) <= fee * 1.0;
  }

  lemma UnitShare(part: real, whole: real)
    requires 0.0 < part <= whole
    ensures 0.0 <= part / whole <= 1.0
    ensures part == whole ==> part / whole == 1.0
  {
    var q := part / whole;
    assert part == q * whole;
  }

  /** The position charges no more than the fees of the fills, and all of the fee of the smaller one. */
  lemma OpenedFeesAreAttributed(id: string, lv: Venue, sv: Venue, makerIsLong: bool, maker: OrderFill, hedge: OrderFill)
    requires maker.quantity > 0.0 && hedge.quantity > 0.0
    ensures var (facts, h) := BuildOpenPosition(id, lv, sv, makerIsLong, maker, hedge);
            var (long, short) := if makerIsLong then (maker, hedge) else (hedge, maker);
            && 0.0 <= facts.longEntryFee <= ExactFee(long).GetOr(0.0)
            && 0.0 <= facts.shortEntryFee <= ExactFee(short).GetOr(0.0)
            && (long.quantity <= short.quantity ==> facts.longEntryFee == ExactFee(long).GetOr(0.0))
            && (short.quantity <= long.quantity ==> facts.shortEntryFee == ExactFee(short).GetOr(0.0))
            && h.currentNet == -facts.EntryFees()
  {
    FeeIsShared(maker, Min(maker.quantity, hedge.quantity));
    FeeIsShared(hedge, Min(maker.quantity, hedge.quantity));
  }

  // ---------------------------------------------------------------------------------------------
  // Any number of closes
  // ---------------------------------------------------------------------------------------------

  /** One close: what was filled, and whether the evidence was complete. */
  datatype ClosePart = ClosePart(longLegs: seq<CloseLeg>, shortLegs: seq<CloseLeg>, evidenceComplete: bool)
  {
    function LongClosed(): real {
      Sum(longLegs, QTY)
    }

    function ShortClosed(): real {
      Sum(shortLegs, QTY)
    }
  }

  function Step(facts: PositionFacts, h: Holding, part: ClosePart): Holding {
    ApplyClose(h, BuildCloseExecution(facts, part.shortLegs, part.longLegs), part.LongClosed(), part.ShortClosed(),
        part.evidenceComplete)
  }

  function Run(facts: PositionFacts, h: Holding, parts: seq<ClosePart>): Holding {
    if parts == [] then h else Step(facts, Run(facts, h, parts[..|parts| - 1]), parts[|parts| - 1])
  }

  predicate MatchedCoversLegs(h: Holding) {
    h.matched >= h.longQty && h.matched >= h.shortQty
  }

  /** However asymmetric the fills of the parts are, the matched quantity never falls below a leg: so a
      position whose matched quantity is used up has no tracked leg left. */
  lemma {:induction false} MatchedAlwaysCoversLegs(facts: PositionFacts, h: Holding, parts: seq<ClosePart>)
    requires MatchedCoversLegs(h)
    ensures MatchedCoversLegs(Run(facts, h, parts))
    ensures Run(facts, h, parts).matched < QTY_EPS ==>
        Run(facts, h, parts).longQty < QTY_EPS && Run(facts, h, parts).shortQty < QTY_EPS
  {
    if parts != [] {
      MatchedAlwaysCoversLegs(facts, h, parts[..|parts| - 1]);
    }
  }

  lemma OpenedPositionIsMatched(id: string, lv: Venue, sv: Venue, makerIsLong: bool, maker: OrderFill,
      hedge: OrderFill, parts: seq<ClosePart>)
    ensures var (facts, h) := BuildOpenPosition(id, lv, sv, makerIsLong, maker, hedge);
            MatchedCoversLegs(Run(facts, h, parts))
  {
    var (facts, h) := BuildOpenPosition(id, lv, sv, makerIsLong, maker, hedge);
    MatchedAlwaysCoversLegs(facts, h, parts);
  }

  /** A finished close is one part of the life of its position, and drops the position only with both legs closed. */
  lemma FinishedCloseIsAPart(facts: PositionFacts, run: ClosePosition.CloseRun, occasion: ClosePosition.Occasion,
      start: Exchange.Trail, now: Exchange.Trail, was: ClosePosition.Books, is_: ClosePosition.Books)
    requires ClosePosition.Finished(facts, BuildCloseExecution(facts, run.short.legs, run.long.legs), run.short,
        run.long, occasion, start, now, was, is_)
    ensures var complete := ClosePosition.FinalBill(facts, run.short, run.long);
            is_.position.holding
            == Run(facts, was.position.holding, [ClosePart(run.long.legs, run.short.legs, complete)])
    ensures MatchedCoversLegs(was.position.holding)
            && facts.positionId in was.state.open && facts.positionId !in is_.state.open ==>
              is_.position.holding.longQty < QTY_EPS && is_.position.holding.shortQty < QTY_EPS
    ensures was.state.open - {facts.positionId} == is_.state.open - {facts.positionId}
  {
    var before := was.position.holding;
    var part := ClosePart(run.long.legs, run.short.legs, ClosePosition.FinalBill(facts, run.short, run.long));
    assert [part][..0] == [];
    assert Run(facts, before, []) == before;
    if MatchedCoversLegs(before) {
      MatchedAlwaysCoversLegs(facts, before, [part]);
    }
  }

  // --- exact quantities ---

  function TotalLong(parts: seq<ClosePart>): real {
    if parts == [] then 0.0 else TotalLong(parts[..|parts| - 1]) + parts[|parts| - 1].LongClosed()
  }

  function TotalShort(parts: seq<ClosePart>): real {
    if parts == [] then 0.0 else TotalShort(parts[..|parts| - 1]) + parts[|parts| - 1].ShortClosed()
  }

  /** What was closed on both legs within the same part. */
  function TotalMatched(parts: seq<ClosePart>): real {
    if parts == [] then 0.0
    else TotalMatched(parts[..|parts| - 1]) + Min(parts[|parts| - 1].LongClosed(), parts[|parts| - 1].ShortClosed())
  }

  predicate NonNegativeParts(parts: seq<ClosePart>) {
    forall p :: p in parts ==> p.LongClosed() >= 0.0 && p.ShortClosed() >= 0.0
  }

  lemma {:induction false} TotalsAreOrdered(parts: seq<ClosePart>)
    requires NonNegativeParts(parts)
    ensures 0.0 <= TotalMatched(parts) <= Min(TotalLong(parts), TotalShort(parts))
  {
    if parts != [] {
      assert parts[|parts| - 1] in parts;
      assert forall p :: p in parts[..|parts| - 1] ==> p in parts;
      TotalsAreOrdered(parts[..|parts| - 1]);
    }
  }

  lemma {:induction false} RunQuantities(facts: PositionFacts, h: Holding, parts: seq<ClosePart>)
    requires NonNegativeParts(parts) && h.matched >= 0.0 && h.longQty >= 0.0 && h.shortQty >= 0.0
    ensures var r := Run(facts, h, parts);
            && r.matched == Max(h.matched - TotalMatched(parts), 0.0)
            && r.longQty == Max(h.longQty - TotalLong(parts), 0.0)
            && r.shortQty == Max(h.shortQty - TotalShort(parts), 0.0)
    ensures 0.0 <= TotalMatched(parts) <= Min(TotalLong(parts), TotalShort(parts))
  {
    TotalsAreOrdered(parts);
    if parts != [] {
      var init, last := parts[..|parts| - 1], parts[|parts| - 1];
      assert last in parts;
      assert forall p :: p in init ==> p in parts;
      RunQuantities(facts, h, init);
      StepQuantities(facts, Run(facts, h, init), last);
    }
  }

  lemma StepQuantities(facts: PositionFacts, h: Holding, part: ClosePart)
    ensures var r := Step(facts, h, part);
            && r.matched == Max(h.matched - Min(part.LongClosed(), part.ShortClosed()), 0.0)
            && r.longQty == Max(h.longQty - part.LongClosed(), 0.0)
            && r.shortQty == Max(h.shortQty - part.ShortClosed(), 0.0)
  {
  }

  /** A position opened with quantity q is dropped exactly when the parts matched q within themselves; its
      legs being closed is not enough. */
  lemma DroppedExactlyWhenMatchedPartwise(facts: PositionFacts, q: real, h: Holding, parts: seq<ClosePart>)
    requires NonNegativeParts(parts) && q >= 0.0
    requires h.matched == q && h.longQty == q && h.shortQty == q
    ensures Run(facts, h, parts).matched < QTY_EPS <==> TotalMatched(parts) > q - QTY_EPS
    ensures Run(facts, h, parts).longQty < QTY_EPS && Run(facts, h, parts).shortQty < QTY_EPS
            <==> Min(TotalLong(parts), TotalShort(parts)) > q - QTY_EPS
  {
    RunQuantities(facts, h, parts);
  }

  /** Closing the long leg in one part and the short leg in the next leaves a position without legs open. */
  lemma LegByLegCloseKeepsPositionOpen(facts: PositionFacts)
    ensures var h := Holding(5.0, 5.0, 5.0, 0.0, 0.0, 0.0);
            var leg := CloseLeg(OrderFill(5.0, 1.0, NoId, NoId, Some(0.0), 0), NoId);
            var r := Run(facts, h, [ClosePart([leg], [], true), ClosePart([], [leg], true)]);
            r.longQty == 0.0 && r.shortQty == 0.0 && r.matched == 5.0
  {
    var h := Holding(5.0, 5.0, 5.0, 0.0, 0.0, 0.0);
    var leg := CloseLeg(OrderFill(5.0, 1.0, NoId, NoId, Some(0.0), 0), NoId);
    var first, second := ClosePart([leg], [], true), ClosePart([], [leg], true);
    assert [leg][..0] == [];
    assert Sum([leg], QTY) == 5.0;
    assert [first, second][..1] == [first] && [first][..0] == [];
    assert Run(facts, h, [first]) == Step(facts, Run(facts, h, []), first);
  }

  // --- money ---

  function AllLong(parts: seq<ClosePart>): seq<CloseLeg> {
    if parts == [] then [] else AllLong(parts[..|parts| - 1]) + parts[|parts| - 1].longLegs
  }

  function AllShort(parts: seq<ClosePart>): seq<CloseLeg> {
    if parts == [] then [] else AllShort(parts[..|parts| - 1]) + parts[|parts| - 1].shortLegs
  }

  function Times(n: nat, x: real): real {
    if n == 0 then 0.0 else Times(n - 1, x) + x
  }

  /** After any run of parts with complete evidence, the realized sums are those of one close with all the
      legs. The running net also holds the funding once per part, where one close holds it once. */
  lemma {:induction false} CompletePartsRealizeOneClose(facts: PositionFacts, h: Holding, parts: seq<ClosePart>)
    requires forall p :: p in parts ==> p.evidenceComplete
    ensures var r := Run(facts, h, parts);
            var whole := BuildCloseExecution(facts, AllShort(parts), AllLong(parts));
            && r.realizedPricePnl == h.realizedPricePnl + whole.realizedPricePnl
            && r.realizedExitFee == h.realizedExitFee + whole.longFee + whole.shortFee
            && r.currentNet == h.currentNet + whole.net - facts.Funding() + Times(|parts|, facts.Funding())
  {
    if parts == [] {
    } else {
      var init, last := parts[..|parts| - 1], parts[|parts| - 1];
      assert last in parts;
      assert forall p :: p in init ==> p in parts;
      CompletePartsRealizeOneClose(facts, h, init);
      CloseExecutionIsAdditive(facts, AllShort(init), AllLong(init), last.shortLegs, last.longLegs);
    }
  }

  /** Without complete evidence nothing is realized, while the quantities still go down. */
  lemma {:induction false} IncompletePartsRealizeNothing(facts: PositionFacts, h: Holding, parts: seq<ClosePart>)
    requires forall p :: p in parts ==> !p.evidenceComplete
    requires NonNegativeParts(parts) && h.matched >= 0.0 && h.longQty >= 0.0 && h.shortQty >= 0.0
    ensures var r := Run(facts, h, parts);
            && r.realizedPricePnl == h.realizedPricePnl && r.realizedExitFee == h.realizedExitFee
            && r.currentNet == h.currentNet
            && r.longQty == Max(h.longQty - TotalLong(parts), 0.0)
            && r.shortQty == Max(h.shortQty - TotalShort(parts), 0.0)
  {
    RunQuantities(facts, h, parts);
    if parts != [] {
      assert parts[|parts| - 1] in parts;
      assert forall p :: p in parts[..|parts| - 1] ==> p in parts;
      IncompletePartsRealizeNothing(facts, h, parts[..|parts| - 1]);
    }
  }

  /** From entry to exit: a position starts at minus its entry fees. If all its parts have complete evidence,
      its running net is the attributed net of one close with all the legs, plus the funding of every
      part after the first. */
  lemma RunningNetOfALife(facts: PositionFacts, h: Holding, parts: seq<ClosePart>)
    requires h.currentNet == -facts.EntryFees()
    requires parts != [] && forall p :: p in parts ==> p.evidenceComplete
    ensures Run(facts, h, parts).currentNet
            == AttributedNet(facts, BuildCloseExecution(facts, AllShort(parts), AllLong(parts))) + Times(|parts| - 1,
                facts.Funding())
  {
    CompletePartsRealizeOneClose(facts, h, parts);
    AttributionChargesEntryFees(facts, AllShort(parts), AllLong(parts));
  }
}
