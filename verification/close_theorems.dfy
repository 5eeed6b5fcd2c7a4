/** What every close proves, whatever the venues answer; and inputs that show what the code does not keep. */
module CloseTheorems {
  import opened Domain
  import opened Exchange
  import opened CloseAccounting
  import opened CloseEvidence
  import opened CloseRecords
  import opened CloseState
  import opened CloseSubmission
  import opened CloseCompensation
  import opened CloseOrigins
  import opened CloseAccount
  import opened ClosePosition

  // ---------------------------------------------------------------------------------------------
  // Bills and records
  // ---------------------------------------------------------------------------------------------

  /** A bill is final exactly when the evidence has no gap, and proves a clean record. With retries allowed, no leg is
      in doubt if no order was left unresolved and no client id had to be reconciled: so a clean run is billed. */
  lemma BilledExactlyOnCleanRecord(start: Trail, now: Trail, facts: PositionFacts, short: LegView, long: LegView,
      maxRetries: nat)
    requires Accounted(start, now, facts, short, long, maxRetries)
    ensures FinalBill(facts, short, long) <==>
            EvidenceGaps(facts, long.legs, short.legs, long.inDoubt, short.inDoubt) == []
    ensures FinalBill(facts, short, long) ==> AllResolved(start, now)
    ensures maxRetries >= 1 && AllResolved(start, now) && now.reconciles == start.reconciles ==>
        !long.inDoubt && !short.inDoubt
  {
    NoGapsMeansCompleteEvidence(facts, long.legs, short.legs, long.inDoubt, short.inDoubt);
    if FinalBill(facts, short, long) {
      AccountedKnowsUnresolved(start, now, facts, short, long, maxRetries);
      FinalBillMeansResolved(start, now, facts, short, long);
    }
  }

  /** No reported fill is lost and none is made up: every fill a venue reported is among the legs of its side, and
      every leg came of an order of its own. */
  lemma LegsAreWhatVenuesReported(start: Trail, now: Trail, facts: PositionFacts, short: LegView, long: LegView,
      maxRetries: nat, k: nat)
    requires Accounted(start, now, facts, short, long, maxRetries)
    requires |start.placements| <= k < |now.placements| && Reported(now.placements[k])
    requires facts.shortVenue != facts.longVenue
    ensures Booked(if now.placements[k].request.venue == facts.shortVenue then short.legs
        else long.legs, now.placements[k].result.fill)
    ensures Traced(start, now, short.legs) && Traced(start, now, long.legs)
  {
    assert AccountedOrder(now.placements[k], facts, short, long);
  }

  /** No quantity is on record without a credit: what is on record for a venue is at most what the venue acknowledged
      and what was found there for duplicate client ids. Without those, it is at most what has gone from the
      position. */
  lemma EveryQuantityIsCredited(start: Trail, now: Trail, facts: PositionFacts, short: LegView, long: LegView,
      maxRetries: nat, v: Venue)
    requires Accounted(start, now, facts, short, long, maxRetries)
    ensures OnVenue(facts, v, short, long) <= Credit(now, v) - Credit(start, v)
    ensures now.reconciles == start.reconciles ==>
              OnVenue(facts, v, short, long) <= Abs(Live(start.book, v)) - Abs(Live(now.book, v))
  {
  }

  /** What a final bill may miss: only quantities of the close that a retry under a new client id superseded. */
  lemma FinalBillMissesOnlySuperseded(start: Trail, now: Trail, facts: PositionFacts, short: LegView, long: LegView,
      maxRetries: nat, k: nat)
    requires Accounted(start, now, facts, short, long, maxRetries) && FinalBill(facts, short, long)
    requires |start.reconciles| <= k < |now.reconciles| && now.reconciles[k].Result().reconciledQty > FLAT_EPS
    ensures BookedReconciliation(now.reconciles[k], facts, short, long)
        || (now.reconciles[k].phase == Closing && Superseded(now, k))
  {
    NoGapsMeansCompleteEvidence(facts, long.legs, short.legs, long.inDoubt, short.inDoubt);
    assert AccountedReconciliation(now, k, facts, short, long);
  }

  // ---------------------------------------------------------------------------------------------
  // One order on two legs
  // ---------------------------------------------------------------------------------------------

  function LegsOf(leg: LegLabel, short: LegView, long: LegView): seq<CloseLeg> {
    if leg == ShortLeg then short.legs else long.legs
  }

  /** The venues turn a client id down as a duplicate once they acknowledged it, or turned it down before. */
  predicate HonorsIds(n: nat, now: Trail) {
    forall j, k :: n <= j < k < |now.placements| && SameId(now.placements[j], now.placements[k]) ==>
      Fills(now.placements[j].result) || RejectedDuplicate(now.placements[j]) ==> !Fills(now.placements[k].result)
  }

  /** The client id of a retry that had settled the leg was sent again by a later chunk, turned down as a duplicate, and
      looked up: the order settled the leg a second time. */
  predicate LookedUpAgain(n: nat, now: Trail, facts: PositionFacts, leg: LegLabel) {
    exists j, k ::
      n <= j < k < |now.placements| && OfLeg(now.placements[j], facts, leg) && OfLeg(now.placements[k], facts, leg)
      && Settles(now, j) && Settles(now, k) && SameId(now.placements[j], now.placements[k]) && AskedAgain(now, j, k)
      && RejectedDuplicate(now.placements[k])
  }

  /** Two legs on record are of one order if and only if a later chunk sent the client id of a retry again and both
      orders settled the leg; where the venues honor client ids, the later of the two was looked up as a duplicate. */
  lemma OneOrderOnTwoLegsExactly(start: Trail, now: Trail, facts: PositionFacts, short: LegView, long: LegView,
      maxRetries: nat, leg: LegLabel)
    requires Accounted(start, now, facts, short, long, maxRetries)
    ensures OnTwoLegs(start, now, facts, leg, LegsOf(leg, short, long))
            <==> SettledAgain(|start.placements|, now, facts, leg)
    ensures HonorsIds(|start.placements|, now) ==>
              (OnTwoLegs(start, now, facts, leg, LegsOf(leg, short, long))
               <==> LookedUpAgain(|start.placements|, now, facts, leg))
  {
    OnTwoLegsExactly(start, now, facts, leg, LegsOf(leg, short, long));
    if HonorsIds(|start.placements|, now) {
      HonoredIsLookedUp(|start.placements|, now, facts, leg);
    }
  }

  lemma HonoredIsLookedUp(n: nat, now: Trail, facts: PositionFacts, leg: LegLabel)
    requires HonorsIds(n, now)
    ensures SettledAgain(n, now, facts, leg) <==> LookedUpAgain(n, now, facts, leg)
  {
    if SettledAgain(n, now, facts, leg) {
      var j, k :|
        n <= j < k < |now.placements| && OfLeg(now.placements[j], facts, leg) && OfLeg(now.placements[k], facts, leg)
        && Settles(now, j) && Settles(now, k) && SameId(now.placements[j], now.placements[k])
        && AskedAgain(now, j, k);
      assert RejectedDuplicate(now.placements[k]);
    }
  }

  /** An order of one close, from a to b, and one of a later close, from c to d, settled the leg under one client id. */
  predicate SettledInBoth(a: Trail, b: Trail, c: Trail, d: Trail, facts: PositionFacts, leg: LegLabel) {
    exists j, k ::
      && |a.placements| <= j < |b.placements| && |c.placements| <= k < |d.placements|
      && OfLeg(b.placements[j], facts, leg) && OfLeg(d.placements[k], facts, leg)
      && Settles(b, j) && Settles(d, k) && SameId(b.placements[j], d.placements[k])
  }

  /** These legs, one of each close, closed something and came of orders of the closes under one client id. */
  predicate OneOrderInBoth(b: Trail, d: Trail, legs1: seq<CloseLeg>, legs2: seq<CloseLeg>, origins1: seq<nat>,
      origins2: seq<nat>, i: nat, j: nat) {
    && |origins1| == |legs1| && |origins2| == |legs2| && i < |legs1| && j < |legs2|
    && origins1[i] < |b.placements| && origins2[j] < |d.placements|
    && legs1[i].fill.quantity > 0.0 && legs2[j].fill.quantity > 0.0
    && b.placements[origins1[i]].phase == d.placements[origins2[j]].phase == Closing
    && SameId(b.placements[origins1[i]], d.placements[origins2[j]])
  }

  ghost predicate OnLegsOfBoth(a: Trail, b: Trail, c: Trail, d: Trail, facts: PositionFacts, leg: LegLabel,
      legs1: seq<CloseLeg>, legs2: seq<CloseLeg>) {
    exists origins1, origins2, i, j ::
      && Originate(a, b, facts, leg, legs1, origins1) && Originate(c, d, facts, leg, legs2, origins2)
      && OneOrderInBoth(b, d, legs1, legs2, origins1, origins2, i, j)
  }

  /** Over two closes of a position: their legs hold one order if and only if an order of each settled the leg under one
      client id. The ids name neither the close nor, for retries, the chunk. */
  lemma OneOrderInTwoClosesExactly(a: Trail, b: Trail, c: Trail, d: Trail, facts: PositionFacts, leg: LegLabel,
      legs1: seq<CloseLeg>, legs2: seq<CloseLeg>)
    requires Attributed(a, b, facts, leg, legs1) && Attributed(c, d, facts, leg, legs2)
    ensures OnLegsOfBoth(a, b, c, d, facts, leg, legs1, legs2) <==> SettledInBoth(a, b, c, d, facts, leg)
  {
    if OnLegsOfBoth(a, b, c, d, facts, leg, legs1, legs2) {
      var origins1, origins2, i, j :|
        && Originate(a, b, facts, leg, legs1, origins1) && Originate(c, d, facts, leg, legs2, origins2)
        && OneOrderInBoth(b, d, legs1, legs2, origins1, origins2, i, j);
      LegsOfBothWereSettled(a, b, c, d, facts, leg, legs1, legs2, origins1, origins2, i, j);
    } else if SettledInBoth(a, b, c, d, facts, leg) {
      var origins1 :| Originate(a, b, facts, leg, legs1, origins1)
                      && AllHaveLegs(|a.placements|, b, facts, leg, legs1, origins1);
      var origins2 :| Originate(c, d, facts, leg, legs2, origins2)
                      && AllHaveLegs(|c.placements|, d, facts, leg, legs2, origins2);
      SettledInBothHasLegs(a, b, c, d, facts, leg, legs1, legs2, origins1, origins2);
    }
  }

  lemma LegsOfBothWereSettled(a: Trail, b: Trail, c: Trail, d: Trail, facts: PositionFacts, leg: LegLabel,
      legs1: seq<CloseLeg>, legs2: seq<CloseLeg>, origins1: seq<nat>, origins2: seq<nat>, i: nat, j: nat)
    requires Originate(a, b, facts, leg, legs1, origins1) && Originate(c, d, facts, leg, legs2, origins2)
    requires OneOrderInBoth(b, d, legs1, legs2, origins1, origins2, i, j)
    ensures SettledInBoth(a, b, c, d, facts, leg)
  {
    assert SettlesLeg(b, origins1[i], facts, leg, legs1[i].fill);
    assert SettlesLeg(d, origins2[j], facts, leg, legs2[j].fill);
  }

  lemma SettledInBothHasLegs(a: Trail, b: Trail, c: Trail, d: Trail, facts: PositionFacts, leg: LegLabel,
      legs1: seq<CloseLeg>, legs2: seq<CloseLeg>, origins1: seq<nat>, origins2: seq<nat>)
    requires Originate(a, b, facts, leg, legs1, origins1) && Originate(c, d, facts, leg, legs2, origins2)
    requires AllHaveLegs(|a.placements|, b, facts, leg, legs1, origins1)
    requires AllHaveLegs(|c.placements|, d, facts, leg, legs2, origins2)
    requires SettledInBoth(a, b, c, d, facts, leg)
    ensures OnLegsOfBoth(a, b, c, d, facts, leg, legs1, legs2)
  {
    var j, k :|
      && |a.placements| <= j < |b.placements| && |c.placements| <= k < |d.placements|
      && OfLeg(b.placements[j], facts, leg) && OfLeg(d.placements[k], facts, leg)
      && Settles(b, j) && Settles(d, k) && SameId(b.placements[j], d.placements[k]);
    HasLegsInBoth(b, d, legs1, legs2, origins1, origins2, j, k);
  }

  lemma HasLegsInBoth(b: Trail, d: Trail, legs1: seq<CloseLeg>, legs2: seq<CloseLeg>, origins1: seq<nat>,
      origins2: seq<nat>, j: nat, k: nat)
    requires |origins1| == |legs1| && |origins2| == |legs2|
    requires HasLeg(legs1, origins1, j) && HasLeg(legs2, origins2, k)
    requires j < |b.placements| && k < |d.placements| && SameId(b.placements[j], d.placements[k])
    requires b.placements[j].phase == d.placements[k].phase == Closing
    ensures exists i: nat, n: nat :: OneOrderInBoth(b, d, legs1, legs2, origins1, origins2, i, n)
  {
    var i :| 0 <= i < |legs1| && origins1[i] == j && legs1[i].fill.quantity > 0.0;
    var n :| 0 <= n < |legs2| && origins2[n] == k && legs2[n].fill.quantity > 0.0;
    assert OneOrderInBoth(b, d, legs1, legs2, origins1, origins2, i, n);
  }

  /** Two closes of 5 under the same stages: the second one's first order is turned down as a duplicate, the order of
      the first is found, and the probe fails with an empty text. The leg counts as filled by what the first close had
      on record. */
  lemma SecondCloseBooksTheFirst(facts: PositionFacts)
    ensures var request := LegRequest(facts, ShortLeg, ChunkNumber([5.0], 0), 5.0, 1.0);
            var first := TrailOf(map[facts.shortVenue := -5.0],
              [Placement(Closing, request, Ack(FilledFive()), -10.0, 0, 0)], [], []);
            var second := TrailOf(map[facts.shortVenue := -5.0],
              first.placements + [Placement(Closing, request, DUPLICATE, -5.0, 0, 0)],
              [Reconcile(Closing, facts.shortVenue, 5.0, request.clientOrderId, FoundFill(5.0, 1.0, VenueId(2), NoId),
                 ProbeFailed(false), -5.0, 2)], [Look(Closing, facts.shortVenue, ProbeFailed(false))]);
            var start := TrailOf(map[facts.shortVenue := -10.0], [], [], []);
            && SettledInBoth(start, first, first, second, facts, ShortLeg)
            && forall fill :: SettlesLast(first, second, fill) ==>
                 fill.Some? && fill.value.quantity == 5.0 && fill.value.orderId == FilledFive().orderId
  {
    var request := LegRequest(facts, ShortLeg, ChunkNumber([5.0], 0), 5.0, 1.0);
    var first := TrailOf(map[facts.shortVenue := -5.0],
      [Placement(Closing, request, Ack(FilledFive()), -10.0, 0, 0)], [], []);
    var second := TrailOf(map[facts.shortVenue := -5.0],
      first.placements + [Placement(Closing, request, DUPLICATE, -5.0, 0, 0)],
      [Reconcile(Closing, facts.shortVenue, 5.0, request.clientOrderId, FoundFill(5.0, 1.0, VenueId(2), NoId),
         ProbeFailed(false), -5.0, 2)], [Look(Closing, facts.shortVenue, ProbeFailed(false))]);
    assert Settles(first, 0) && Settles(second, 1);
    assert SameId(first.placements[0], second.placements[1]);
  }

  // ---------------------------------------------------------------------------------------------
  // What the orders ask for
  // ---------------------------------------------------------------------------------------------

  /** The order asks for all that was seen live, more than q, after the order before it was found filled in full. */
  predicate AsksForAllLive(now: Trail, k: nat, q: real)
    requires 0 < k < |now.placements|
  {
    var s := now.placements[k - 1].settled;
    s < |now.reconciles| && now.reconciles[s].orders == k && Superseded(now, s)
    && FullWithMoreLive(now.reconciles[s], q)
  }

  predicate SomeExceeds(n: nat, now: Trail, q: real) {
    exists k ::
      n <= k < |now.placements| && now.placements[k].phase == Closing && now.placements[k].request.quantity > q
  }

  predicate SomeAsksForAllLive(n: nat, now: Trail, q: real) {
    exists k :: n < k < |now.placements| && AsksForAllLive(now, k, q)
  }

  lemma OpeningOrderIsChunk(request: OrderRequest, facts: PositionFacts, chunks: seq<real>, shortPrice: real,
      longPrice: real)
    requires OpensOneOf(request, facts, chunks, |chunks|, shortPrice, longPrice)
    ensures request.quantity in chunks
  {
    var i :| 0 <= i < |chunks| && OpensChunk(request, facts, ChunkNumber(chunks, i), chunks[i], shortPrice, longPrice);
    assert chunks[i] in chunks;
  }

  lemma FollowingOrderExceeds(now: Trail, k: nat, q: real)
    requires 0 < k < |now.placements| && Follows(now, k) && now.placements[k].request.quantity > q >= 0.0
    ensures now.placements[k - 1].request.quantity > q || AsksForAllLive(now, k, q)
  {
    var last := now.placements[k - 1];
    if last.request.quantity <= q {
      RetryExceedsExactly(now.reconciles[last.settled], q);
      RetryIsWanted(now, last.settled, q);
    }
  }

  /** A retry that asks for more than the order before it is one the ledger wanted. */
  lemma RetryIsWanted(now: Trail, s: nat, q: real)
    requires s < |now.reconciles| && now.reconciles[s].target <= q && q >= 0.0
    requires RetryQuantity(now.reconciles[s].Result()) > q
    ensures now.reconciles[s].Result().ShouldRetry()
  {
  }

  /** An order of the close that exceeds what its chunks may hold goes back to a retry for all that is live. */
  lemma {:induction false} ExceedsByLive(n: nat, now: Trail, facts: PositionFacts, chunks: seq<real>,
      shortPrice: real, longPrice: real, q: real, k: nat)
    requires PlannedOrders(n, now, facts, chunks, |chunks|, shortPrice, longPrice)
    requires q >= 0.0 && forall c :: c in chunks ==> c <= q
    requires n <= k < |now.placements| && now.placements[k].phase == Closing
    requires now.placements[k].request.quantity > q
    ensures SomeAsksForAllLive(n, now, q)
    decreases k
  {
    if OpensOneOf(now.placements[k].request, facts, chunks, |chunks|, shortPrice, longPrice) {
      OpeningOrderIsChunk(now.placements[k].request, facts, chunks, shortPrice, longPrice);
    } else {
      FollowingOrderExceeds(now, k, q);
      if !AsksForAllLive(now, k, q) {
        ExceedsByLive(n, now, facts, chunks, shortPrice, longPrice, q, k - 1);
      }
    }
  }

  /** An order of the close asks for more than q, where q is the size of the chunks or larger, if and only if some order
      was sent after the one before it was found filled in full, with more than q live. */
  lemma OrdersExceedChunksExactly(run: CloseRun, start: Trail, now: Trail, adapters: set<Venue>, facts: PositionFacts,
      total: real, longPrice: real, shortPrice: real, cap: real, reasonGiven: bool, maxRetries: nat, q: real)
    requires RunAsPlanned(run, start, now, adapters, facts, total, longPrice, shortPrice, cap, reasonGiven, maxRetries)
    requires q >= 0.0 && q >= total / |run.chunks| as real
    ensures SomeExceeds(|start.placements|, now, q) <==> SomeAsksForAllLive(|start.placements|, now, q)
  {
    if SomeExceeds(|start.placements|, now, q) {
      var k :| |start.placements| <= k < |now.placements| && now.placements[k].phase == Closing
               && now.placements[k].request.quantity > q;
      ExceedsByLive(|start.placements|, now, facts, run.chunks, shortPrice, longPrice, q, k);
    }
    if SomeAsksForAllLive(|start.placements|, now, q) {
      var k :| |start.placements| < k < |now.placements| && AsksForAllLive(now, k, q);
      assert now.placements[k].phase == Closing && now.placements[k].request.quantity > q;
    }
  }

  // ---------------------------------------------------------------------------------------------
  // The refused short leg
  // ---------------------------------------------------------------------------------------------

  predicate Registers(oldRegs: seq<Reconciliation>, regs: seq<Reconciliation>, p: Placement) {
    exists j :: |oldRegs| <= j < |regs| && Covered(regs[j], p)
  }

  /** An unresolved order of a close with a state is left without any registered record if and only if the short leg was
      refused and some order is unresolved. */
  lemma LeftUnregisteredExactly(facts: PositionFacts, run: CloseRun, occasion: Occasion, start: Trail, now: Trail,
      was: Books, is_: Books, maxRetries: nat)
    requires Accounted(start, now, facts, run.short, run.long, maxRetries)
    requires Concluded(facts, OutcomeOf(run, facts), run.short, run.long, occasion, true, start, now, was, is_)
    ensures (exists k :: |start.placements| <= k < |now.placements| && Uncertain(now.placements[k])
                         && !Registers(was.journal.registered, is_.journal.registered, now.placements[k]))
            <==> run.verdict == Refused && !AllResolved(start, now)
  {
    var oldRegs, regs := was.journal.registered, is_.journal.registered;
    forall k | |start.placements| <= k < |now.placements| && Uncertain(now.placements[k])
      ensures Registers(oldRegs, regs, now.placements[k]) <==> run.verdict != Refused
    {
      assert AccountedOrder(now.placements[k], facts, run.short, run.long);
      if run.verdict != Refused {
        assert Covered(regs[|oldRegs|], now.placements[k]);
      }
    }
  }

  /** Two chunks of 5, both legs live with 10. */
  function RefusedStart(facts: PositionFacts): Trail {
    TrailOf(map[facts.shortVenue := -10.0, facts.longVenue := 10.0], [], [], [])
  }

  function FilledFive(): OrderFill {
    OrderFill(5.0, 1.0, VenueId(2), NoId, Some(0.0), 0)
  }

  function RejectedWith(kind: SubmitKind, accepted: Id): PlaceResult {
    Failed(SubmitError(kind, accepted, NoId, RejectReason(false, false, false, false, false)))
  }

  /** The first order is not resolved; its retry and the long leg fill; the short leg of the second chunk is refused. */
  function RefusedNow(facts: PositionFacts): Trail {
    var short1 := LegRequest(facts, ShortLeg, 1, 5.0, 1.0);
    TrailOf(map[facts.shortVenue := -5.0, facts.longVenue := 5.0],
      [Placement(Closing, short1, RejectedWith(UncertainOrder, VenueId(1)), -10.0, 0, 0),
       Placement(Closing, short1, Ack(FilledFive()), -10.0, 0, 0),
       Placement(Closing, LegRequest(facts, LongLeg, 1, 5.0, 1.0), Ack(FilledFive()), 10.0, 0, 0),
       Placement(Closing, LegRequest(facts, ShortLeg, 2, 5.0, 1.0), RejectedWith(RejectedOrder, NoId), -5.0, 0,
           0)], [], [])
  }

  function RefusedRun(facts: PositionFacts): CloseRun {
    var cid := LegRequest(facts, ShortLeg, 1, 5.0, 1.0).clientOrderId;
    CloseRun(LegView([CloseLeg(FilledFive(), cid)], [Identity(VenueId(1), cid)], true),
      LegView([CloseLeg(FilledFive(), LegRequest(facts, LongLeg, 1, 5.0, 1.0).clientOrderId)], [], false),
      [5.0, 5.0], Refused)
  }

  lemma RefusedRunRests(facts: PositionFacts)
    ensures Rests(RefusedStart(facts), RefusedNow(facts), RefusedRun(facts).short, 3)
    ensures Rests(RefusedStart(facts), RefusedNow(facts), RefusedRun(facts).long, 3)
  {
    var now := RefusedNow(facts);
    assert Uncertain(now.placements[0]);
  }

  lemma RefusedRunOrders(facts: PositionFacts)
    requires facts.shortVenue != facts.longVenue
    ensures OrdersAccounted(RefusedStart(facts), RefusedNow(facts), facts, RefusedRun(facts).short,
        RefusedRun(facts).long)
  {
    var run := RefusedRun(facts);
    assert run.short.legs[0] in run.short.legs && run.long.legs[0] in run.long.legs;
    assert Booked(run.short.legs, FilledFive()) && Booked(run.long.legs, FilledFive());
    assert Identity(VenueId(1), run.short.legs[0].clientOrderId) in run.short.identities;
  }

  lemma RefusedAcked(facts: PositionFacts, v: Venue)
    requires facts.shortVenue != facts.longVenue
    ensures Acked(RefusedNow(facts).placements, v)
            == if v == facts.shortVenue || v == facts.longVenue then 5.0 else 0.0
  {
    var ps := RefusedNow(facts).placements;
    AckedOneMore(ps, v, 0);
    AckedOneMore(ps, v, 1);
    AckedOneMore(ps, v, 2);
    AckedOneMore(ps, v, 3);
  }

  /** What one more order adds. */
  lemma AckedOneMore(ps: seq<Placement>, v: Venue, k: nat)
    requires k < |ps|
    ensures k == 0 ==> Acked(ps[..k], v) == 0.0
    ensures Acked(ps[..k + 1], v) == Acked(ps[..k], v)
        + if ps[k].request.venue == v && Fills(ps[k].result) then ps[k].result.fill.quantity else 0.0
    ensures k + 1 == |ps| ==> ps[..k + 1] == ps
  {
    assert ps[..k + 1][..k] == ps[..k];
  }

  lemma FoundOneMore(rs: seq<Reconcile>, v: Venue, k: nat)
    requires k < |rs|
    ensures k == 0 ==> Found(rs[..k], v) == 0.0
    ensures Found(rs[..k + 1], v) == Found(rs[..k], v)
        + if rs[k].venue == v then rs[k].Result().reconciledQty else 0.0
    ensures k + 1 == |rs| ==> rs[..k + 1] == rs
  {
    assert rs[..k + 1][..k] == rs[..k];
  }

  lemma RefusedRunIsBacked(facts: PositionFacts)
    requires facts.shortVenue != facts.longVenue
    ensures var start, now, run := RefusedStart(facts), RefusedNow(facts), RefusedRun(facts);
            Conserves(start, now) && Backed(start, now, facts, run.short, run.long)
  {
    var run := RefusedRun(facts);
    OneLegSum(run.short.legs);
    OneLegSum(run.long.legs);
    forall v
      ensures Acked(RefusedNow(facts).placements, v)
              == if v == facts.shortVenue || v == facts.longVenue then 5.0 else 0.0
    {
      RefusedAcked(facts, v);
    }
  }

  lemma RefusedRunIsTraceable(facts: PositionFacts)
    requires facts.shortVenue != facts.longVenue
    ensures var start, now, run := RefusedStart(facts), RefusedNow(facts), RefusedRun(facts);
            Traceable(start, now, facts, run.short, run.long)
  {
    var start, now, run := RefusedStart(facts), RefusedNow(facts), RefusedRun(facts);
    assert !Settles(now, 0) && Settles(now, 1) && Settles(now, 2) && !Settles(now, 3);
    assert HasLeg(run.short.legs, [1], 1) by { assert [1][0] == 1; }
    assert HasLeg(run.long.legs, [2], 2) by { assert [2][0] == 2; }
    assert Originate(start, now, facts, ShortLeg, run.short.legs, [1]);
    assert Originate(start, now, facts, LongLeg, run.long.legs, [2]);
  }

  /** The close ends as ShortRejected, and the order that may have executed is registered nowhere, whatever the books
      were. */
  lemma RefusedChunkLosesEvidence(facts: PositionFacts)
    requires facts.shortVenue != facts.longVenue
    ensures var start, now, run := RefusedStart(facts), RefusedNow(facts), RefusedRun(facts);
            && Accounted(start, now, facts, run.short, run.long, 3)
            && EndsAs(run.verdict, start, now, {facts.shortVenue, facts.longVenue}, facts, true, 3)
            && OutcomeOf(run, facts) == ShortRejected
            && Uncertain(now.placements[0])
            && forall occasion, was, is_ ::
                 Concluded(facts, ShortRejected, run.short, run.long, occasion, true, start, now, was, is_) ==>
                 !Registers(was.journal.registered, is_.journal.registered, now.placements[0])
  {
    RefusedRunRests(facts);
    RefusedRunOrders(facts);
    RefusedRunIsBacked(facts);
    RefusedRunIsTraceable(facts);
    var start, now := RefusedStart(facts), RefusedNow(facts);
    var p := now.placements[3];
    assert OfLeg(p, facts, ShortLeg) && Judge(now, p) == LegRejected;
    TroubledByLast(start, now, {facts.shortVenue, facts.longVenue}, facts, 3, 3);
  }

  // ---------------------------------------------------------------------------------------------
  // The order that is booked twice
  // ---------------------------------------------------------------------------------------------

  /** Two chunks of 5, both legs live with 10. */
  function TwiceStart(facts: PositionFacts): Trail {
    TrailOf(map[facts.shortVenue := -10.0, facts.longVenue := 10.0], [], [], [])
  }

  const DUPLICATE: PlaceResult :=
    Failed(SubmitError(RejectedOrder, NoId, NoId, RejectReason(true, false, false, false, false)))

  /** Order 7 fills the retry of the first chunk. */
  const SEVENTH := OrderFill(3.0, 1.0, VenueId(7), NoId, Some(0.0), 0)

  function RetryOf(request: OrderRequest): OrderRequest {
    request.(quantity := 3.0, clientOrderId := RetryId(request.clientOrderId, 1))
  }

  /** In both chunks the client id of the short leg is a duplicate of an order that filled 2, and the retry asks for 3.
      The first retry fills as order 7; the second carries the same client id, is turned down, and order 7 is found. */
  function TwiceNow(facts: PositionFacts): Trail {
    var short1, short2 := LegRequest(facts, ShortLeg, 1, 5.0, 1.0), LegRequest(facts, ShortLeg, 2, 5.0, 1.0);
    var long1, long2 := LegRequest(facts, LongLeg, 1, 5.0, 1.0), LegRequest(facts, LongLeg, 2, 5.0, 1.0);
    var v := facts.shortVenue;
    TrailOf(map[v := -7.0, facts.longVenue := 0.0],
      [Placement(Closing, short1, DUPLICATE, -10.0, 0, 0),
       Placement(Closing, RetryOf(short1), Ack(SEVENTH), -10.0, 1, 1),
       Placement(Closing, long1, Ack(FilledFive()), 10.0, 1, 1),
       Placement(Closing, short2, DUPLICATE, -7.0, 1, 1),
       Placement(Closing, RetryOf(short2), DUPLICATE, -7.0, 2, 2),
       Placement(Closing, long2, Ack(FilledFive()), 5.0, 3, 3)],
      [Reconcile(Closing, v, 5.0, short1.clientOrderId, FoundFill(2.0, 1.0, VenueId(6), NoId), Snapshot(Sell, 10.0),
         -10.0, 1),
       Reconcile(Closing, v, 5.0, short2.clientOrderId, FoundFill(2.0, 1.0, VenueId(9), NoId), Snapshot(Sell, 7.0),
         -7.0, 4),
       Reconcile(Closing, v, 3.0, RetryOf(short2).clientOrderId, FoundFill(3.0, 1.0, VenueId(7), NoId),
         ProbeFailed(false), -7.0, 5)],
      [Look(Closing, v, Snapshot(Sell, 10.0)), Look(Closing, v, Snapshot(Sell, 7.0)),
       Look(Closing, v, ProbeFailed(false))])
  }

  function TwiceShort(facts: PositionFacts): LegView {
    var short1, short2 := LegRequest(facts, ShortLeg, 1, 5.0, 1.0), LegRequest(facts, ShortLeg, 2, 5.0, 1.0);
    LegView(
      [CloseLeg(SEVENTH, short1.clientOrderId),
       CloseLeg(ReconciledFill(RetryOf(short2), TwiceNow(facts).reconciles[2].Result(), 0), short2.clientOrderId)],
      [], false)
  }

  function TwiceLong(facts: PositionFacts): LegView {
    LegView(
      [CloseLeg(FilledFive(), LegRequest(facts, LongLeg, 1, 5.0, 1.0).clientOrderId),
       CloseLeg(FilledFive(), LegRequest(facts, LongLeg, 2, 5.0, 1.0).clientOrderId)], [], false)
  }

  /** What the reconciliations come to. */
  lemma TwiceReconciled(facts: PositionFacts)
    ensures var now := TwiceNow(facts);
            && Superseded(now, 0) && Superseded(now, 1) && !Superseded(now, 2)
            && Asks(now, 0) && Asks(now, 1) && Asks(now, 2)
            && now.reconciles[0].Result().reconciledQty == 2.0 && now.reconciles[1].Result().reconciledQty == 2.0
            && now.reconciles[2].Result().reconciledQty == 3.0 && now.reconciles[2].Result().orderId == VenueId(7)
            && OutcomeOfDuplicate(now.reconciles[2].Result()) == LegFilled
  {
  }

  lemma TwiceSettled(facts: PositionFacts)
    ensures var now := TwiceNow(facts);
            && !Settles(now, 0) && Settles(now, 1) && Settles(now, 2) && !Settles(now, 3) && Settles(now, 4)
            && Settles(now, 5)
    ensures ComesOf(TwiceNow(facts), 4, TwiceShort(facts).legs[1].fill)
  {
    TwiceReconciled(facts);
  }

  lemma TwiceOrders(facts: PositionFacts)
    requires facts.shortVenue != facts.longVenue
    ensures OrdersAccounted(TwiceStart(facts), TwiceNow(facts), facts, TwiceShort(facts), TwiceLong(facts))
  {
    TwiceReconciled(facts);
    var now, short, long := TwiceNow(facts), TwiceShort(facts), TwiceLong(facts);
    assert short.legs[0] in short.legs && short.legs[1] in short.legs && long.legs[0] in long.legs;
    assert Booked(short.legs, SEVENTH) && Booked(long.legs, FilledFive());
    assert IsFound(short.legs[1].fill, now.reconciles[2].Result());
    assert BookedReconciled(short.legs, now.reconciles[2].Result());
  }

  lemma TwiceSums(facts: PositionFacts)
    ensures Sum(TwiceShort(facts).legs, QTY) == 6.0 && Sum(TwiceLong(facts).legs, QTY) == 10.0
  {
    TwiceReconciled(facts);
    var short, long := TwiceShort(facts).legs, TwiceLong(facts).legs;
    OneLegSum(short[..1]);
    OneLegSum(long[..1]);
  }

  lemma TwiceAcked(facts: PositionFacts, v: Venue)
    requires facts.shortVenue != facts.longVenue
    ensures Acked(TwiceNow(facts).placements, v)
            == if v == facts.shortVenue then 3.0 else if v == facts.longVenue then 10.0 else 0.0
  {
    var ps := TwiceNow(facts).placements;
    AckedOneMore(ps, v, 0);
    AckedOneMore(ps, v, 1);
    AckedOneMore(ps, v, 2);
    AckedOneMore(ps, v, 3);
    AckedOneMore(ps, v, 4);
    AckedOneMore(ps, v, 5);
  }

  lemma TwiceFound(facts: PositionFacts, v: Venue)
    ensures Found(TwiceNow(facts).reconciles, v) == if v == facts.shortVenue then 7.0 else 0.0
  {
    TwiceReconciled(facts);
    var rs := TwiceNow(facts).reconciles;
    FoundOneMore(rs, v, 0);
    FoundOneMore(rs, v, 1);
    FoundOneMore(rs, v, 2);
  }

  lemma TwiceIsBacked(facts: PositionFacts)
    requires facts.shortVenue != facts.longVenue
    ensures Conserves(TwiceStart(facts), TwiceNow(facts))
    ensures Backed(TwiceStart(facts), TwiceNow(facts), facts, TwiceShort(facts), TwiceLong(facts))
  {
    TwiceSums(facts);
    forall v
      ensures Acked(TwiceNow(facts).placements, v)
              == if v == facts.shortVenue then 3.0 else if v == facts.longVenue then 10.0 else 0.0
      ensures Found(TwiceNow(facts).reconciles, v) == if v == facts.shortVenue then 7.0 else 0.0
    {
      TwiceAcked(facts, v);
      TwiceFound(facts, v);
    }
  }

  lemma TwiceShortIsAttributed(facts: PositionFacts)
    requires facts.shortVenue != facts.longVenue
    ensures Originate(TwiceStart(facts), TwiceNow(facts), facts, ShortLeg, TwiceShort(facts).legs, [1, 4])
    ensures Attributed(TwiceStart(facts), TwiceNow(facts), facts, ShortLeg, TwiceShort(facts).legs)
  {
    TwiceSettled(facts);
    TwiceReconciled(facts);
    var start, now, short := TwiceStart(facts), TwiceNow(facts), TwiceShort(facts).legs;
    assert HasLeg(short, [1, 4], 1) && HasLeg(short, [1, 4], 4) by { assert [1, 4][0] == 1 && [1, 4][1] == 4; }
    assert Originate(start, now, facts, ShortLeg, short, [1, 4]);
  }

  lemma TwiceLongIsAttributed(facts: PositionFacts)
    requires facts.shortVenue != facts.longVenue
    ensures Attributed(TwiceStart(facts), TwiceNow(facts), facts, LongLeg, TwiceLong(facts).legs)
  {
    TwiceSettled(facts);
    var start, now, long := TwiceStart(facts), TwiceNow(facts), TwiceLong(facts).legs;
    assert HasLeg(long, [2, 5], 2) && HasLeg(long, [2, 5], 5) by { assert [2, 5][0] == 2 && [2, 5][1] == 5; }
    assert Originate(start, now, facts, LongLeg, long, [2, 5]);
  }

  lemma TwiceIsDistinct(facts: PositionFacts)
    ensures Distinct(TwiceStart(facts), TwiceNow(facts))
  {
    TwiceSettled(facts);
    var now := TwiceNow(facts);
    assert OpensLeg(now.placements[3]);
    assert AskedAgain(now, 1, 4);
  }

  lemma TwiceIsAccounted(facts: PositionFacts)
    requires facts.shortVenue != facts.longVenue
    ensures Accounted(TwiceStart(facts), TwiceNow(facts), facts, TwiceShort(facts), TwiceLong(facts), 3)
  {
    TwiceOrders(facts);
    TwiceIsBacked(facts);
    TwiceShortIsAttributed(facts);
    TwiceLongIsAttributed(facts);
    TwiceIsDistinct(facts);
    assert Extends(TwiceStart(facts), TwiceNow(facts));
  }

  lemma TwiceEnds(facts: PositionFacts)
    requires facts.shortVenue != facts.longVenue
    ensures EndsAs(NextChunk, TwiceStart(facts), TwiceNow(facts), {facts.shortVenue, facts.longVenue}, facts, true, 3)
    ensures PlannedOrders(0, TwiceNow(facts), facts, [5.0, 5.0], 2, 1.0, 1.0)
  {
    TwiceReconciled(facts);
    var start, now := TwiceStart(facts), TwiceNow(facts);
    TroubledByLast(start, now, {facts.shortVenue, facts.longVenue}, facts, 3, 5);
    assert Follows(now, 1) && Follows(now, 4);
    var chunks := [5.0, 5.0];
    assert OpensChunk(now.placements[0].request, facts, ChunkNumber(chunks, 0), chunks[0], 1.0, 1.0);
    assert OpensChunk(now.placements[2].request, facts, ChunkNumber(chunks, 0), chunks[0], 1.0, 1.0);
    assert OpensChunk(now.placements[3].request, facts, ChunkNumber(chunks, 1), chunks[1], 1.0, 1.0);
    assert OpensChunk(now.placements[5].request, facts, ChunkNumber(chunks, 1), chunks[1], 1.0, 1.0);
  }

  /** The close goes through both chunks, and all of it is accounted for; order 7 is on two short legs: 6 are on record
      where 3 have gone from the position. */
  lemma OneOrderIsBookedTwice(facts: PositionFacts)
    requires facts.shortVenue != facts.longVenue
    ensures var start, now, short, long := TwiceStart(facts), TwiceNow(facts), TwiceShort(facts), TwiceLong(facts);
            && Accounted(start, now, facts, short, long, 3)
            && EndsAs(NextChunk, start, now, {facts.shortVenue, facts.longVenue}, facts, true, 3)
            && PlannedOrders(0, now, facts, [5.0, 5.0], 2, 1.0, 1.0)
            && OnTwoLegs(start, now, facts, ShortLeg, short.legs)
            && short.legs[0].fill.orderId == short.legs[1].fill.orderId == VenueId(7)
            && Sum(short.legs, QTY) == 6.0
            && Abs(Live(start.book, facts.shortVenue)) - Abs(Live(now.book, facts.shortVenue)) == 3.0
  {
    TwiceIsAccounted(facts);
    TwiceEnds(facts);
    TwiceSums(facts);
    TwiceOnTwoLegs(facts);
  }

  lemma TwiceOnTwoLegs(facts: PositionFacts)
    requires facts.shortVenue != facts.longVenue
    ensures OnTwoLegs(TwiceStart(facts), TwiceNow(facts), facts, ShortLeg, TwiceShort(facts).legs)
    ensures TwiceShort(facts).legs[0].fill.orderId == TwiceShort(facts).legs[1].fill.orderId == VenueId(7)
  {
    TwiceReconciled(facts);
    TwiceShortIsAttributed(facts);
    assert OneOrder(TwiceNow(facts), TwiceShort(facts).legs, [1, 4], 0, 1);
  }
}
