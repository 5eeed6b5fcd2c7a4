/** The account a close keeps of its orders: what must be on record, what the records rest on, and how a step of the
    close changes both. */
module CloseAccount {
  import opened Domain
  import opened Exchange
  import opened CloseAccounting
  import opened CloseEvidence
  import opened CloseRecords
  import opened CloseState
  import opened CloseSubmission
  import opened CloseCompensation
  import opened CloseOrigins

  // ---------------------------------------------------------------------------------------------
  // One order, one reconciliation
  // ---------------------------------------------------------------------------------------------

  /** The record of the leg that trades on the order's venue knows its identity. */
  predicate KnownTo(p: Placement, facts: PositionFacts, short: LegView, long: LegView) {
    || (p.request.venue == facts.shortVenue && IdentityOf(p) in short.identities)
    || (p.request.venue == facts.longVenue && IdentityOf(p) in long.identities)
  }

  predicate BookedFor(p: Placement, facts: PositionFacts, short: LegView, long: LegView)
    requires p.result.Ack?
  {
    || (p.request.venue == facts.shortVenue && Booked(short.legs, p.result.fill))
    || (p.request.venue == facts.longVenue && Booked(long.legs, p.result.fill))
  }

  /** A close buys back the short leg and sells the long leg; a compensation trades against what is live. */
  predicate Towards(p: Placement, facts: PositionFacts) {
    match p.phase
    case Closing => OfLeg(p, facts, ShortLeg) || OfLeg(p, facts, LongLeg)
    case Compensating =>
      (p.request.venue == facts.shortVenue || p.request.venue == facts.longVenue) && Reduces(p.request.side, p.live)
  }

  /** The order only reduces the position, and what became of it is on record. */
  predicate AccountedOrder(p: Placement, facts: PositionFacts, short: LegView, long: LegView) {
    && p.request.reduceOnly && p.request.clientOrderId != NoId && Towards(p, facts)
    && (Uncertain(p) ==> KnownTo(p, facts, short, long))
    && (Reported(p) ==> BookedFor(p, facts, short, long))
  }

  predicate BookedReconciliation(f: Reconcile, facts: PositionFacts, short: LegView, long: LegView) {
    || (f.venue == facts.shortVenue && BookedReconciled(short.legs, f.Result()))
    || (f.venue == facts.longVenue && BookedReconciled(long.legs, f.Result()))
  }

  predicate InDoubtFor(f: Reconcile, facts: PositionFacts, short: LegView, long: LegView) {
    (f.venue == facts.shortVenue && short.inDoubt) || (f.venue == facts.longVenue && long.inDoubt)
  }

  /** It asked about the order before it, and what it found is among the legs; unless, in the close itself, a retry
      under a new client id superseded it, or left its leg in doubt. */
  predicate AccountedReconciliation(now: Trail, k: nat, facts: PositionFacts, short: LegView, long: LegView)
    requires k < |now.reconciles|
  {
    var f := now.reconciles[k];
    Asks(now, k)
    && match f.phase
       case Closing =>
         f.Result().reconciledQty > QTY_EPS ==>
           BookedReconciliation(f, facts, short, long) || Superseded(now, k) || InDoubtFor(f, facts, short, long)
       case Compensating =>
         f.Result().reconciledQty > FLAT_EPS ==> BookedReconciliation(f, facts, short, long)
  }

  // ---------------------------------------------------------------------------------------------
  // The account
  // ---------------------------------------------------------------------------------------------

  /** A leg is in doubt when an order is unresolved, and only because of what happened since `start`. */
  ghost predicate Rests(start: Trail, now: Trail, view: LegView, maxRetries: nat) {
    && (view.identities != [] ==> view.inDoubt)
    && (view.inDoubt && maxRetries >= 1 ==> Doubtful(start, now))
  }

  ghost predicate OrdersAccounted(start: Trail, now: Trail, facts: PositionFacts, short: LegView, long: LegView) {
    && (forall k ::
      |start.placements| <= k < |now.placements| ==> AccountedOrder(now.placements[k], facts, short, long))
    && (forall k :: |start.reconciles| <= k < |now.reconciles| ==> AccountedReconciliation(now, k, facts, short, long))
  }

  /** No quantity is on record without a credit: what is booked for a venue is at most what was acknowledged or
      found there. */
  ghost predicate Backed(start: Trail, now: Trail, facts: PositionFacts, short: LegView, long: LegView) {
    forall v :: OnVenue(facts, v, short, long) <= Credit(now, v) - Credit(start, v)
  }

  /** The legs came of orders since `start`, and legs of one order only of retries that were asked again. */
  ghost predicate Traceable(start: Trail, now: Trail, facts: PositionFacts, short: LegView, long: LegView) {
    && Attributed(start, now, facts, ShortLeg, short.legs) && Attributed(start, now, facts, LongLeg, long.legs)
    && Distinct(start, now)
  }

  /** Since `start` every order placed and every reconciliation is accounted for, and nothing else is on record. */
  ghost predicate Accounted(start: Trail, now: Trail, facts: PositionFacts, short: LegView, long: LegView,
      maxRetries: nat) {
    && Extends(start, now) && Conserves(start, now)
    && OrdersAccounted(start, now, facts, short, long)
    && Backed(start, now, facts, short, long) && Traceable(start, now, facts, short, long)
    && Rests(start, now, short, maxRetries) && Rests(start, now, long, maxRetries)
  }

  /** More entries account for no fewer orders. */
  predicate Grows(view: LegView, view': LegView) {
    view.legs <= view'.legs && view.identities <= view'.identities && (view.inDoubt ==> view'.inDoubt)
  }

  lemma GrownBooks(legs: seq<CloseLeg>, legs': seq<CloseLeg>)
    requires legs <= legs'
    ensures forall fill :: Booked(legs, fill) ==> Booked(legs', fill)
    ensures forall d :: BookedReconciled(legs, d) ==> BookedReconciled(legs', d)
  {
  }

  lemma StillAccounted(start: Trail, mid: Trail, now: Trail, facts: PositionFacts, short: LegView, long: LegView,
      short': LegView, long': LegView)
    requires OrdersAccounted(start, mid, facts, short, long)
    requires Extends(start, mid) && Extends(mid, now) && Grows(short, short') && Grows(long, long')
    ensures forall k ::
        |start.placements| <= k < |mid.placements| ==> AccountedOrder(now.placements[k], facts, short', long')
    ensures forall k ::
        |start.reconciles| <= k < |mid.reconciles| ==> AccountedReconciliation(now, k, facts, short', long')
  {
    GrownBooks(short.legs, short'.legs);
    GrownBooks(long.legs, long'.legs);
    forall k | |start.placements| <= k < |mid.placements|
      ensures AccountedOrder(now.placements[k], facts, short', long')
    {
      assert now.placements[k] == mid.placements[k];
    }
    forall k | |start.reconciles| <= k < |mid.reconciles|
      ensures AccountedReconciliation(now, k, facts, short', long')
    {
      assert now.reconciles[k] == mid.reconciles[k];
      assert AccountedReconciliation(mid, k, facts, short, long);
      SupersededStays(mid, now, k);
      AsksStays(mid, now, k);
    }
  }

  // ---------------------------------------------------------------------------------------------
  // A leg
  // ---------------------------------------------------------------------------------------------

  /** The order that closes one leg of a chunk. */
  function LegRequest(facts: PositionFacts, leg: LegLabel, chunk: nat, quantity: real, price: real): OrderRequest {
    var cid := ClientOrderId(facts.positionId, Exit(leg, chunk));
    if leg == ShortLeg then OrderRequest(facts.shortVenue, Buy, quantity, true, price, cid)
    else OrderRequest(facts.longVenue, Sell, quantity, true, price, cid)
  }

  /** What a submitted leg adds to its record. */
  function AfterLeg(view: LegView, r: LegResult, history: seq<Identity>, cid: Id): LegView {
    var identities := RememberAll(view.identities, history);
    LegView(
      if r.fill.Some? then view.legs + [CloseLeg(r.fill.value, cid)] else view.legs,
      identities,
      view.inDoubt || identities != view.identities || r.outcome == LegUncertain)
  }

  /** What SubmitCloseLegWithRetry promises of a leg. */
  ghost predicate LegSubmitted(mid: Trail, now: Trail, request: OrderRequest, maxRetries: nat, history: seq<Identity>,
      r: LegResult) {
    && Closes(mid, now, request, maxRetries) && Remembers(mid, now, history) && Reports(mid, now, r.fill)
    && Chained(mid, now, request) && Idempotent(mid, now, request) && SettlesLast(mid, now, r.fill)
    && ReconciledKept(mid, now, r, maxRetries)
    && (maxRetries >= 1 ==> FillSound(mid, now, r))
    && (maxRetries == 0 ==> r.outcome == LegUncertain && r.fill == None)
  }

  /** The order closes this leg, under the number of a chunk. */
  predicate IsLegRequest(request: OrderRequest, facts: PositionFacts, leg: LegLabel, chunk: nat) {
    request == LegRequest(facts, leg, chunk, request.quantity, request.price)
  }

  lemma RestsAfterLeg(start: Trail, mid: Trail, now: Trail, request: OrderRequest, history: seq<Identity>, r: LegResult,
      view: LegView, maxRetries: nat)
    requires Extends(start, mid) && Extends(mid, now) && Rests(start, mid, view, maxRetries)
    requires LegSubmitted(mid, now, request, maxRetries, history, r)
    ensures Rests(start, now, AfterLeg(view, r, history, request.clientOrderId), maxRetries)
  {
    DoubtExtends(start, mid, now);
    if history != [] {
      assert history[0] in history;
    }
    assert history == [] ==> RememberAll(view.identities, history) == view.identities;
  }

  lemma OrdersOfLeg(mid: Trail, now: Trail, facts: PositionFacts, leg: LegLabel, chunk: nat, request: OrderRequest,
      history: seq<Identity>, r: LegResult, view: LegView, short: LegView, long: LegView, maxRetries: nat)
    requires LegSubmitted(mid, now, request, maxRetries, history, r) && IsLegRequest(request, facts, leg, chunk)
    requires (if leg == ShortLeg then short else long) == AfterLeg(view, r, history, request.clientOrderId)
    ensures OrdersAccounted(mid, now, facts, short, long)
  {
    var after := if leg == ShortLeg then short else long;
    if r.fill.Some? {
      assert after.legs[|after.legs| - 1] in after.legs && after.legs[|after.legs| - 1].fill == r.fill.value;
    }
    forall k | |mid.placements| <= k < |now.placements|
      ensures AccountedOrder(now.placements[k], facts, short, long)
    {
      assert IdentityOf(now.placements[k]).Known();
    }
    forall k | |mid.reconciles| <= k < |now.reconciles|
      ensures AccountedReconciliation(now, k, facts, short, long)
    {
      var p := now.placements[now.reconciles[k].orders - 1];
      assert p.request.venue == request.venue;
    }
  }

  /** What came of an order on the venue was acknowledged or found there. */
  lemma FillIsCredited(mid: Trail, now: Trail, k: nat, fill: OrderFill)
    requires Extends(mid, now) && |mid.placements| <= k < |now.placements| && ComesOf(now, k, fill)
    requires |mid.reconciles| <= now.placements[k].settled
    requires LookedUp(now, k) ==> Asks(now, now.placements[k].settled)
    requires fill.quantity >= 0.0
    ensures var v := now.placements[k].request.venue; fill.quantity <= Credit(now, v) - Credit(mid, v)
  {
    AckedGrows(mid.placements, now.placements, now.placements[k].request.venue);
    FoundGrows(mid.reconciles, now.reconciles, now.placements[k].request.venue);
  }

  /** What a leg adds was acknowledged or found on its venue. */
  lemma LegIsBacked(mid: Trail, now: Trail, request: OrderRequest, maxRetries: nat, history: seq<Identity>,
      r: LegResult, view: LegView)
    requires LegSubmitted(mid, now, request, maxRetries, history, r)
    ensures Backs(mid, now, request.venue, view, AfterLeg(view, r, history, request.clientOrderId))
  {
    CreditGrows(mid, now);
    if r.fill.Some? {
      var last := |now.placements| - 1;
      assert LookedUp(now, last) ==> Asks(now, now.placements[last].settled);
      FillIsCredited(mid, now, last, r.fill.value);
      SumOneMore(view.legs, CloseLeg(r.fill.value, request.clientOrderId));
    }
  }

  lemma SumOneMore(legs: seq<CloseLeg>, leg: CloseLeg)
    ensures Sum(legs + [leg], QTY) == Sum(legs, QTY) + leg.fill.quantity
  {
    assert (legs + [leg])[..|legs + [leg]| - 1] == legs;
  }

  /** The orders of a leg of a chunk are traced. */
  lemma LegIsTraced(mid: Trail, now: Trail, facts: PositionFacts, leg: LegLabel, chunk: nat, request: OrderRequest,
      maxRetries: nat, history: seq<Identity>, r: LegResult)
    requires LegSubmitted(mid, now, request, maxRetries, history, r) && IsLegRequest(request, facts, leg, chunk)
    ensures LegTraced(mid, now, request, r.fill) && NumberedAt(request, leg, chunk)
    ensures forall k, which :: |mid.placements| <= k < |now.placements| ==>
        (OfLeg(now.placements[k], facts, which) ==> which == leg) && OfLeg(now.placements[k], facts, leg)
  {
    if |mid.placements| < |now.placements| {
      assert LinksAt(mid, now, request, |mid.placements|);
    }
  }

  lemma TraceableAfterLeg(start: Trail, mid: Trail, now: Trail, facts: PositionFacts, leg: LegLabel, chunk: nat,
      request: OrderRequest, history: seq<Identity>, r: LegResult, short: LegView, long: LegView, short': LegView,
      long': LegView, maxRetries: nat)
    requires Extends(start, mid) && Traceable(start, mid, facts, short, long)
    requires Numbered(start, mid, if leg == ShortLeg then chunk else chunk + 1, chunk)
    requires LegSubmitted(mid, now, request, maxRetries, history, r) && IsLegRequest(request, facts, leg, chunk)
    requires short' == if leg == ShortLeg then AfterLeg(short, r, history, request.clientOrderId) else short
    requires long' == if leg == LongLeg then AfterLeg(long, r, history, request.clientOrderId) else long
    ensures Traceable(start, now, facts, short', long')
    ensures Numbered(start, now, chunk + 1, if leg == ShortLeg then chunk else chunk + 1)
  {
    LegIsTraced(mid, now, facts, leg, chunk, request, maxRetries, history, r);
    AttributedAfterLeg(start, mid, now, facts, leg, ShortLeg, request, r.fill, short.legs, request.clientOrderId);
    AttributedAfterLeg(start, mid, now, facts, leg, LongLeg, request, r.fill, long.legs, request.clientOrderId);
    DistinctAfterLeg(start, mid, now, request, r.fill, leg, chunk, if leg == ShortLeg then chunk else chunk + 1, chunk);
    NumberedAfterLeg(start, mid, now, request, r.fill, leg, chunk, if leg == ShortLeg then chunk else chunk + 1, chunk);
  }

  lemma AccountedAfterLeg(start: Trail, mid: Trail, now: Trail, facts: PositionFacts, leg: LegLabel, chunk: nat,
      request: OrderRequest, history: seq<Identity>, r: LegResult, short: LegView, long: LegView, short': LegView,
      long': LegView, maxRetries: nat)
    requires Accounted(start, mid, facts, short, long, maxRetries) && IsLegRequest(request, facts, leg, chunk)
    requires Numbered(start, mid, if leg == ShortLeg then chunk else chunk + 1, chunk)
    requires LegSubmitted(mid, now, request, maxRetries, history, r)
    requires short' == if leg == ShortLeg then AfterLeg(short, r, history, request.clientOrderId) else short
    requires long' == if leg == LongLeg then AfterLeg(long, r, history, request.clientOrderId) else long
    ensures Accounted(start, now, facts, short', long', maxRetries)
    ensures Numbered(start, now, chunk + 1, if leg == ShortLeg then chunk else chunk + 1)
  {
    DoubtExtends(start, mid, now);
    RestsAfterLeg(start, mid, now, request, history, r, if leg == ShortLeg then short else long, maxRetries);
    OrdersOfLeg(mid, now, facts, leg, chunk, request, history, r, if leg == ShortLeg then short else long, short',
      long', maxRetries);
    StillAccounted(start, mid, now, facts, short, long, short', long');
    ConservesCompose(start, mid, now);
    BackedAfterLeg(start, mid, now, facts, leg, chunk, request, history, r, short, long, short', long', maxRetries);
    TraceableAfterLeg(start, mid, now, facts, leg, chunk, request, history, r, short, long, short', long', maxRetries);
  }

  lemma BackedAfterLeg(start: Trail, mid: Trail, now: Trail, facts: PositionFacts, leg: LegLabel, chunk: nat,
      request: OrderRequest, history: seq<Identity>, r: LegResult, short: LegView, long: LegView, short': LegView,
      long': LegView, maxRetries: nat)
    requires Backed(start, mid, facts, short, long) && IsLegRequest(request, facts, leg, chunk)
    requires LegSubmitted(mid, now, request, maxRetries, history, r)
    requires short' == if leg == ShortLeg then AfterLeg(short, r, history, request.clientOrderId) else short
    requires long' == if leg == LongLeg then AfterLeg(long, r, history, request.clientOrderId) else long
    ensures Backed(start, now, facts, short', long')
  {
    CreditGrows(mid, now);
    LegIsBacked(mid, now, request, maxRetries, history, r, if leg == ShortLeg then short else long);
  }

  // ---------------------------------------------------------------------------------------------
  // A compensation
  // ---------------------------------------------------------------------------------------------

  lemma RestsAfterCompensation(start: Trail, mid: Trail, now: Trail, view: LegView, view': LegView, maxRetries: nat)
    requires Extends(start, mid) && Extends(mid, now) && Rests(start, mid, view, maxRetries)
    requires ViewAdds(mid, now, view, view')
    ensures Rests(start, now, view', maxRetries)
  {
    DoubtExtends(start, mid, now);
  }

  lemma OrdersOfCompensation(mid: Trail, now: Trail, facts: PositionFacts, short: LegView, long: LegView)
    requires CompensationSafe(mid, now, facts.shortVenue, facts.longVenue)
    requires Keeps(mid, now, facts.shortVenue, short)
    requires facts.longVenue != facts.shortVenue ==> Keeps(mid, now, facts.longVenue, long)
    ensures OrdersAccounted(mid, now, facts, short, long)
  {
  }

  lemma TraceableAfterCompensation(start: Trail, mid: Trail, now: Trail, adapters: set<Venue>, facts: PositionFacts,
      short: LegView, long: LegView, short': LegView, long': LegView, ok: bool, shortChunk: nat, longChunk: nat)
    requires Extends(start, mid) && Traceable(start, mid, facts, short, long)
    requires Numbered(start, mid, shortChunk, longChunk)
    requires CompensatedFully(mid, now, adapters, facts, short, short', long, long', ok)
    ensures Traceable(start, now, facts, short', long')
  {
    assert CompensationTraced(mid, now);
    AttributedAfterCompensation(start, mid, now, facts, ShortLeg, short.legs, short'.legs);
    AttributedAfterCompensation(start, mid, now, facts, LongLeg, long.legs, long'.legs);
    DistinctAfterCompensation(start, mid, now, shortChunk, longChunk);
  }

  lemma AccountedAfterCompensation(start: Trail, mid: Trail, now: Trail, adapters: set<Venue>, facts: PositionFacts,
      short: LegView, long: LegView, short': LegView, long': LegView, ok: bool, maxRetries: nat, shortChunk: nat,
      longChunk: nat)
    requires Accounted(start, mid, facts, short, long, maxRetries) && Numbered(start, mid, shortChunk, longChunk)
    requires CompensatedFully(mid, now, adapters, facts, short, short', long, long', ok)
    ensures Accounted(start, now, facts, short', long', maxRetries)
  {
    DoubtExtends(start, mid, now);
    RestsAfterCompensation(start, mid, now, short, short', maxRetries);
    RestsAfterCompensation(start, mid, now, long, long', maxRetries);
    OrdersOfCompensation(mid, now, facts, short', long');
    ConservesCompose(start, mid, now);
    StillAccounted(start, mid, now, facts, short, long, short', long');
    TraceableAfterCompensation(start, mid, now, adapters, facts, short, long, short', long', ok, shortChunk,
      longChunk);
  }

  // ---------------------------------------------------------------------------------------------
  // Registration
  // ---------------------------------------------------------------------------------------------

  /** A registered record by which the venue can be asked about the order. */
  predicate Covered(r: Reconciliation, p: Placement) {
    exists record :: record in r.longRecords + r.shortRecords && record.venue == p.request.venue
                     && if IdentityOf(p).orderId != NoId then record.orderId == IdentityOf(p).orderId
                        else record.clientOrderId == IdentityOf(p).clientOrderId
  }

  /** Nothing was left unresolved since `start`. */
  ghost predicate AllResolved(start: Trail, now: Trail) {
    forall k :: |start.placements| <= k < |now.placements| ==> !Uncertain(now.placements[k])
  }

  ghost predicate AllCovered(start: Trail, now: Trail, r: Reconciliation) {
    forall k ::
      |start.placements| <= k < |now.placements| && Uncertain(now.placements[k]) ==> Covered(r, now.placements[k])
  }

  /** All that registration needs of the account: the records know every unresolved order. */
  ghost predicate UnresolvedKnown(start: Trail, now: Trail, facts: PositionFacts, short: LegView, long: LegView) {
    && (forall k :: |start.placements| <= k < |now.placements| && Uncertain(now.placements[k]) ==>
          IdentityOf(now.placements[k]).Known() && KnownTo(now.placements[k], facts, short, long))
    && (short.identities != [] ==> short.inDoubt) && (long.identities != [] ==> long.inDoubt)
  }

  lemma AccountedKnowsUnresolved(start: Trail, now: Trail, facts: PositionFacts, short: LegView, long: LegView,
      maxRetries: nat)
    requires Accounted(start, now, facts, short, long, maxRetries)
    ensures UnresolvedKnown(start, now, facts, short, long)
  {
    forall k | |start.placements| <= k < |now.placements| && Uncertain(now.placements[k])
      ensures IdentityOf(now.placements[k]).Known() && KnownTo(now.placements[k], facts, short, long)
    {
      assert AccountedOrder(now.placements[k], facts, short, long);
    }
  }

  /** Evidence is never lost: a registered reconciliation covers every unresolved order. */
  lemma RegistrationCoversUnresolved(r: Reconciliation, start: Trail, now: Trail, facts: PositionFacts,
      holding: Holding, gaps: seq<Gap>,
      short: LegView, long: LegView, shortCids: seq<Id>, longCids: seq<Id>)
    requires UnresolvedKnown(start, now, facts, short, long)
    requires Describes(r, facts, holding, long.legs, short.legs, gaps, longCids, shortCids, long.identities,
        short.identities)
    ensures AllCovered(start, now, r)
  {
    forall k | |start.placements| <= k < |now.placements| && Uncertain(now.placements[k])
      ensures Covered(r, now.placements[k])
    {
      var p := now.placements[k];
      if p.request.venue == facts.shortVenue && IdentityOf(p) in short.identities {
        AnsweringRecordCovers(r.shortRecords, r, p);
      } else {
        AnsweringRecordCovers(r.longRecords, r, p);
      }
    }
  }

  lemma AnsweringRecordCovers(records: seq<LegRecord>, r: Reconciliation, p: Placement)
    requires records == r.longRecords || records == r.shortRecords
    requires Answers(records, IdentityOf(p))
    requires forall record :: record in records ==> record.venue == p.request.venue
    ensures Covered(r, p)
  {
    var record :| record in records
                  && if IdentityOf(p).orderId != NoId then record.orderId == IdentityOf(p).orderId
                     else record.clientOrderId == IdentityOf(p).clientOrderId;
    assert record in r.longRecords + r.shortRecords;
  }

  /** A registered reconciliation says what the legs closed: its placeholders close nothing. */
  ghost predicate Tells(r: Reconciliation, facts: PositionFacts, short: LegView, long: LegView) {
    && r.positionId == facts.positionId
    && r.longClosed == Sum(long.legs, QTY) && r.shortClosed == Sum(short.legs, QTY)
    && LegRecords(facts.longVenue, long.legs) <= r.longRecords
    && LegRecords(facts.shortVenue, short.legs) <= r.shortRecords
    && RecordedQty(r.longRecords) == RecordedQty(LegRecords(facts.longVenue, long.legs))
    && RecordedQty(r.shortRecords) == RecordedQty(LegRecords(facts.shortVenue, short.legs))
  }

  lemma RegistrationTells(r: Reconciliation, facts: PositionFacts, holding: Holding, gaps: seq<Gap>,
      short: LegView, long: LegView, shortCids: seq<Id>, longCids: seq<Id>)
    requires Describes(r, facts, holding, long.legs, short.legs, gaps, longCids, shortCids, long.identities,
        short.identities)
    ensures Tells(r, facts, short, long)
  {
    var n, m := |LegRecords(facts.longVenue, long.legs)|, |LegRecords(facts.shortVenue, short.legs)|;
    PlaceholdersCloseNothing(r.longRecords, facts.longVenue, n);
    PlaceholdersCloseNothing(r.shortRecords, facts.shortVenue, m);
    assert r.longRecords[..n] == LegRecords(facts.longVenue, long.legs);
    assert r.shortRecords[..m] == LegRecords(facts.shortVenue, short.legs);
  }

  // ---------------------------------------------------------------------------------------------
  // How the chunk loop ends
  // ---------------------------------------------------------------------------------------------

  /** The last order since `start` closed the short leg and was refused; or there is no adapter for it. */
  ghost predicate ShortRefused(start: Trail, now: Trail, adapters: set<Venue>, facts: PositionFacts) {
    if facts.shortVenue !in adapters then now.placements == start.placements
    else
      && |start.placements| < |now.placements|
      && var p := now.placements[|now.placements| - 1];
         OfLeg(p, facts, ShortLeg) && Judge(now, p) == LegRejected
  }

  /** The last order of the close from index n on. */
  predicate LastOfClose(n: nat, now: Trail, m: nat) {
    && n <= m < |now.placements| && now.placements[m].phase == Closing
    && forall k :: m < k < |now.placements| ==> now.placements[k].phase == Compensating
  }

  /** As the last order of the close, this one leaves a leg unsettled: the short leg in doubt, or the long leg in doubt
      or refused; without an adapter for it, the long leg is refused after any short leg that is not. */
  predicate Unsettles(now: Trail, p: Placement, adapters: set<Venue>, facts: PositionFacts) {
    || (OfLeg(p, facts, ShortLeg)
      && (Judge(now, p) == LegUncertain || (facts.longVenue !in adapters && Judge(now, p) != LegRejected)))
    || (OfLeg(p, facts, LongLeg) && !IsDone(Judge(now, p)))
  }

  /** The close needs a compensation: its last order leaves a leg unsettled; without any retries no order is sent. */
  ghost predicate Troubled(start: Trail, now: Trail, adapters: set<Venue>, facts: PositionFacts, maxRetries: nat) {
    || maxRetries == 0
    || exists m: nat ::
      LastOfClose(|start.placements|, now, m) && Unsettles(now, now.placements[m], adapters, facts)
  }

  lemma TroubledByLast(start: Trail, now: Trail, adapters: set<Venue>, facts: PositionFacts, maxRetries: nat, m: nat)
    requires LastOfClose(|start.placements|, now, m) && maxRetries >= 1
    ensures Troubled(start, now, adapters, facts, maxRetries) <==> Unsettles(now, now.placements[m], adapters, facts)
  {
  }

  /** Nothing a compensation does changes what an order of the close means. */
  lemma JudgementKept(mid: Trail, now: Trail, p: Placement)
    requires Extends(mid, now) && LookedFrom(now.looks, |mid.looks|)
    requires forall k :: |mid.reconciles| <= k < |now.reconciles| ==> now.reconciles[k].phase == Compensating
    ensures Judge(mid, p) == Judge(now, p)
  {
    assert SeenFlat(mid.looks, p.looks, p.request.venue) <==> SeenFlat(now.looks, p.looks, p.request.venue) by {
      assert forall k :: 0 <= k < |mid.looks| ==> now.looks[k] == mid.looks[k];
    }
    if p.settled < |mid.reconciles| {
      assert now.reconciles[p.settled] == mid.reconciles[p.settled];
    }
  }

  lemma TroubleStays(start: Trail, mid: Trail, now: Trail, adapters: set<Venue>, facts: PositionFacts, maxRetries: nat)
    requires Extends(start, mid) && CompensationSafe(mid, now, facts.shortVenue, facts.longVenue)
    requires Troubled(start, mid, adapters, facts, maxRetries)
    ensures Troubled(start, now, adapters, facts, maxRetries)
  {
    if maxRetries >= 1 {
      var m: nat :| LastOfClose(|start.placements|, mid, m) && Unsettles(mid, mid.placements[m], adapters, facts);
      assert now.placements[m] == mid.placements[m];
      JudgementKept(mid, now, mid.placements[m]);
      assert forall k :: 0 <= k < |mid.placements| ==> now.placements[k] == mid.placements[k];
      assert LastOfClose(|start.placements|, now, m);
    }
  }

  predicate IsDone(outcome: Outcome) {
    outcome == LegFilled || outcome == TerminalFlat
  }

  /** The leg of the chunk was submitted, from index n on; and if asked for, its last order settled it. */
  predicate LegSent(n: nat, now: Trail, request: OrderRequest, settled: bool) {
    exists j, k ::
      && n <= j <= k < |now.placements| && now.placements[j].request == request
      && now.placements[k].phase == Closing
      && now.placements[k].request.venue == request.venue && now.placements[k].request.side == request.side
      && (settled ==> IsDone(Judge(now, now.placements[k])))
  }

  /** Both legs of the chunk were submitted, where there is an adapter. */
  predicate ChunkSent(adapters: set<Venue>, n: nat, now: Trail, facts: PositionFacts,
      chunk: nat, quantity: real, shortPrice: real, longPrice: real, settled: bool)
  {
    && (facts.shortVenue in adapters ==>
      LegSent(n, now, LegRequest(facts, ShortLeg, chunk, quantity, shortPrice), settled))
    && (facts.longVenue in adapters ==>
      LegSent(n, now, LegRequest(facts, LongLeg, chunk, quantity, longPrice), settled))
  }

  /** The number a chunk carries in its client ids: none when it is the only one. */
  function ChunkNumber(chunks: seq<real>, i: nat): nat {
    if |chunks| > 1 then i + 1 else 0
  }

  /** The order opens a leg of the chunk. */
  predicate OpensChunk(request: OrderRequest, facts: PositionFacts, chunk: nat, quantity: real, shortPrice: real,
      longPrice: real) {
    || request == LegRequest(facts, ShortLeg, chunk, quantity, shortPrice)
    || request == LegRequest(facts, LongLeg, chunk, quantity, longPrice)
  }

  /** Every order of the close from index n on opens a leg of the chunk, or follows from the order before it. */
  predicate ChunkOrders(n: nat, now: Trail, facts: PositionFacts, chunk: nat, quantity: real, shortPrice: real,
      longPrice: real) {
    forall k :: n <= k < |now.placements| && now.placements[k].phase == Closing ==>
      || OpensChunk(now.placements[k].request, facts, chunk, quantity, shortPrice, longPrice)
      || (n < k && Follows(now, k))
  }

  /** The same for the first chunks of a plan. */
  predicate OpensOneOf(request: OrderRequest, facts: PositionFacts, chunks: seq<real>, count: nat, shortPrice: real,
      longPrice: real)
    requires count <= |chunks|
  {
    exists i ::
      0 <= i < count && OpensChunk(request, facts, ChunkNumber(chunks, i), chunks[i], shortPrice, longPrice)
  }

  predicate PlannedOrders(n: nat, now: Trail, facts: PositionFacts, chunks: seq<real>, count: nat, shortPrice: real,
      longPrice: real)
    requires count <= |chunks|
  {
    forall k :: n <= k < |now.placements| && now.placements[k].phase == Closing ==>
      || OpensOneOf(now.placements[k].request, facts, chunks, count, shortPrice, longPrice)
      || (n < k && Follows(now, k))
  }

  lemma OneMorePlanned(n: nat, mid: Trail, now: Trail, facts: PositionFacts, chunks: seq<real>, count: nat,
      shortPrice: real, longPrice: real)
    requires Extends(mid, now) && n <= |mid.placements| && count < |chunks|
    requires PlannedOrders(n, mid, facts, chunks, count, shortPrice, longPrice)
    requires ChunkOrders(|mid.placements|, now, facts, ChunkNumber(chunks, count), chunks[count], shortPrice,
        longPrice)
    ensures PlannedOrders(n, now, facts, chunks, count + 1, shortPrice, longPrice)
  {
    forall k | n <= k < |now.placements| && now.placements[k].phase == Closing
      ensures OpensOneOf(now.placements[k].request, facts, chunks, count + 1, shortPrice, longPrice)
          || (n < k && Follows(now, k))
    {
      if k < |mid.placements| {
        assert now.placements[k] == mid.placements[k];
        if n < k && Follows(mid, k) {
          FollowsStays(mid, now, k);
        }
      }
    }
  }

  lemma ChunkOrdersStay(n: nat, mid: Trail, now: Trail, facts: PositionFacts, chunk: nat, quantity: real,
      shortPrice: real, longPrice: real)
    requires Extends(mid, now) && ChunkOrders(n, mid, facts, chunk, quantity, shortPrice, longPrice)
    requires CompensatesFrom(now.placements, |mid.placements|)
    ensures ChunkOrders(n, now, facts, chunk, quantity, shortPrice, longPrice)
  {
    forall k | n <= k < |now.placements| && now.placements[k].phase == Closing
      ensures OpensChunk(now.placements[k].request, facts, chunk, quantity, shortPrice, longPrice)
          || (n < k && Follows(now, k))
    {
      assert k < |mid.placements| && now.placements[k] == mid.placements[k];
      if n < k && Follows(mid, k) {
        FollowsStays(mid, now, k);
      }
    }
  }

  predicate AllSent(adapters: set<Venue>, n: nat, now: Trail, facts: PositionFacts,
      chunks: seq<real>, count: nat, shortPrice: real, longPrice: real, settled: bool)
    requires count <= |chunks|
  {
    forall i :: 0 <= i < count ==>
      ChunkSent(adapters, n, now, facts, ChunkNumber(chunks, i), chunks[i], shortPrice, longPrice, settled)
  }

  /** What is settled stays settled, and what is not refused stays so. */
  lemma JudgementStays(before: Trail, after: Trail, p: Placement)
    requires Extends(before, after)
    ensures IsDone(Judge(before, p)) ==> IsDone(Judge(after, p))
    ensures Judge(before, p) != LegRejected ==> Judge(after, p) != LegRejected
  {
    if SeenFlat(before.looks, p.looks, p.request.venue) {
      var k :| p.looks <= k < |before.looks| && before.looks[k].phase == Closing
               && before.looks[k].venue == p.request.venue && before.looks[k].probe.Snapshot?
               && Abs(before.looks[k].probe.quantity) <= FLAT_EPS;
      assert after.looks[k] == before.looks[k];
    }
    if p.settled < |before.reconciles| {
      assert after.reconciles[p.settled] == before.reconciles[p.settled];
    }
  }

  lemma LegSentStays(m: nat, n: nat, before: Trail, after: Trail, request: OrderRequest, settled: bool)
    requires m <= n && Extends(before, after) && LegSent(n, before, request, settled)
    ensures LegSent(m, after, request, settled)
  {
    var j, k :|
      && n <= j <= k < |before.placements| && before.placements[j].request == request
      && before.placements[k].phase == Closing
      && before.placements[k].request.venue == request.venue && before.placements[k].request.side == request.side
      && (settled ==> IsDone(Judge(before, before.placements[k])));
    assert after.placements[j] == before.placements[j] && after.placements[k] == before.placements[k];
    JudgementStays(before, after, before.placements[k]);
  }

  lemma OneMoreSent(adapters: set<Venue>, start: Trail, before: Trail, after: Trail, facts: PositionFacts,
      chunks: seq<real>, n: nat,
      shortPrice: real, longPrice: real, settled: bool)
    requires Extends(start, before) && Extends(before, after) && n < |chunks|
    requires AllSent(adapters, |start.placements|, before, facts, chunks, n, shortPrice, longPrice, settled)
    requires ChunkSent(adapters, |before.placements|, after, facts, ChunkNumber(chunks, n), chunks[n], shortPrice,
        longPrice, settled)
    ensures AllSent(adapters, |start.placements|, after, facts, chunks, n + 1, shortPrice, longPrice, settled)
  {
    SelfExtends(after);
    forall i | 0 <= i <= n
      ensures ChunkSent(adapters, |start.placements|, after, facts, ChunkNumber(chunks, i), chunks[i], shortPrice,
          longPrice, settled)
    {
      if i < n {
        ChunkSentStays(adapters, |start.placements|, |start.placements|, before, after, facts,
          ChunkNumber(chunks, i), chunks[i], shortPrice, longPrice, settled);
      } else {
        ChunkSentStays(adapters, |start.placements|, |before.placements|, after, after, facts,
          ChunkNumber(chunks, i), chunks[i], shortPrice, longPrice, settled);
      }
    }
  }

  lemma ChunkSentStays(adapters: set<Venue>, m: nat, n: nat, before: Trail, after: Trail, facts: PositionFacts,
      chunk: nat, quantity: real, shortPrice: real, longPrice: real, settled: bool)
    requires m <= n && Extends(before, after)
    requires ChunkSent(adapters, n, before, facts, chunk, quantity, shortPrice, longPrice, settled)
    ensures ChunkSent(adapters, m, after, facts, chunk, quantity, shortPrice, longPrice, settled)
  {
    if facts.shortVenue in adapters {
      LegSentStays(m, n, before, after, LegRequest(facts, ShortLeg, chunk, quantity, shortPrice), settled);
    }
    if facts.longVenue in adapters {
      LegSentStays(m, n, before, after, LegRequest(facts, LongLeg, chunk, quantity, longPrice), settled);
    }
  }

  lemma SelfExtends(t: Trail)
    ensures Extends(t, t)
  {
  }

  // ---------------------------------------------------------------------------------------------
  // The journal
  // ---------------------------------------------------------------------------------------------

  /** The final bills in the journal. */
  function Bills(events: seq<JournalEvent>): seq<JournalEvent> {
    if events == [] then []
    else
      var last := events[|events| - 1];
      Bills(events[..|events| - 1]) + if last.ExitClosed? then [last] else []
  }

  /** The reconciliations the journal registers. It only ever grows. */
  function Registrations(events: seq<JournalEvent>): seq<Reconciliation> {
    if events == [] then []
    else
      var last := events[|events| - 1];
      Registrations(events[..|events| - 1]) + if last.ReconciliationRegistered? then [last.reconciliation] else []
  }

  datatype JournalBook = JournalBook(bills: seq<JournalEvent>, registered: seq<Reconciliation>)

  /** What the journal says of bills and reconciliations. */
  function BookOf(events: seq<JournalEvent>): JournalBook {
    JournalBook(Bills(events), Registrations(events))
  }

  lemma BookAppend(events: seq<JournalEvent>, event: JournalEvent)
    ensures BookOf(events + [event]) ==
            JournalBook(Bills(events) + (if event.ExitClosed? then [event] else []),
                 Registrations(events) + if event.ReconciliationRegistered? then [event.reconciliation] else [])
  {
    assert (events + [event])[..|events + [event]| - 1] == events;
  }
}
