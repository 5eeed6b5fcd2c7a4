/** Compensation of a failed close: flatten what is live, in two tiers, or fail closed. */
module CloseCompensation {
  import opened Domain
  import opened Exchange
  import opened CloseAccounting
  import opened CloseEvidence
  import opened CloseState

  const MAX_EMERGENCY_FLATTEN_ATTEMPTS := 3

  /** Everything one compensated venue produced. Being flat is about exposure; the identities are about evidence. */
  datatype CompensationOutcome = CompensationOutcome(legs: seq<CloseLeg>, identities: seq<Identity>, flat: bool)

  const NO_OUTCOME := CompensationOutcome([], [], false)

  function Merge(target: CompensationOutcome, more: CompensationOutcome): CompensationOutcome {
    CompensationOutcome(target.legs + more.legs, RememberAll(target.identities, more.identities), target.flat
      || more.flat)
  }

  /** A fill that closed something becomes a leg, an empty one an unresolved submission. */
  function AddFill(outcome: CompensationOutcome, fill: OrderFill, clientOrderId: Id): CompensationOutcome {
    if fill.quantity <= QTY_EPS then
      outcome.(identities := Remember(outcome.identities,
          Identity(fill.orderId, OrElse(fill.clientOrderId, clientOrderId))))
    else
      outcome.(legs := outcome.legs + [CloseLeg(fill, clientOrderId)])
  }

  function AddFailure(outcome: CompensationOutcome, error: SubmitError, clientOrderId: Id): CompensationOutcome {
    if error.acceptedOrderId != NoId || error.kind == UncertainOrder then
      outcome.(identities := Remember(outcome.identities,
                 Identity(error.acceptedOrderId, OrElse(error.acceptedClientOrderId, clientOrderId))))
    else outcome
  }

  function AddResult(outcome: CompensationOutcome, result: PlaceResult, clientOrderId: Id): CompensationOutcome {
    match result
    case Ack(fill) => AddFill(outcome, fill, clientOrderId)
    case Failed(error) => AddFailure(outcome, error, clientOrderId)
  }

  /** A compensation keeps the identity of an order that may have executed, unless the adapter failed outside the
      submit error type and named no accepted order: then nothing of the order is kept. */
  lemma CompensationKeepsExactly(p: Placement)
    requires p.phase == Compensating && MayHaveExecuted(p) && p.request.clientOrderId != NoId
    ensures var forgotten := p.result.Failed? && p.result.error.kind == OtherFailure
        && p.result.error.acceptedOrderId == NoId;
            var outcome := AddResult(NO_OUTCOME, p.result, p.request.clientOrderId);
            && (IdentityOf(p) in outcome.identities <==> !forgotten)
            && (forgotten ==> outcome == NO_OUTCOME)
  {
  }

  /** A timeout that is no submit error: the order for 5 may have executed, and no trace of it is kept. */
  lemma TimeoutIsForgotten(id: string)
    ensures var request := OrderRequest(Okx, Sell, 5.0, true, 0.0, ClientOrderId(id, CompensateAttempt(LongLeg, 1)));
            var timeout := Failed(SubmitError(OtherFailure, NoId, NoId,
                RejectReason(false, false, false, false, false)));
            && MayHaveExecuted(Placement(Compensating, request, timeout, 5.0, 1, 0))
            && AddResult(NO_OUTCOME, timeout, request.clientOrderId) == NO_OUTCOME
  {
  }

  // ---------------------------------------------------------------------------------------------
  // Steps
  // ---------------------------------------------------------------------------------------------

  predicate SentTo(placements: seq<Placement>, n: nat, venue: Venue) {
    forall k :: n <= k < |placements| ==> placements[k].request.venue == venue
  }

  /** The reconciliations from index n on asked about orders of the compensation on the venue. */
  predicate ReconciledOn(now: Trail, n: nat, venue: Venue) {
    forall k :: n <= k < |now.reconciles| ==>
      now.reconciles[k].venue == venue && now.reconciles[k].phase == Compensating && Asks(now, k)
  }

  predicate LookedFrom(looks: seq<Look>, n: nat) {
    forall k :: n <= k < |looks| ==> looks[k].phase == Compensating
  }

  /** What a step that trades on one venue may do: send at most `most` orders against its position, to
      that venue only. */
  ghost predicate Trades(before: Trail, after: Trail, venue: Venue, most: nat) {
    && Extends(before, after) && Conserves(before, after)
    && CompensatesFrom(after.placements, |before.placements|)
    && SentTo(after.placements, |before.placements|, venue)
    && ReconciledOn(after, |before.reconciles|, venue) && LookedFrom(after.looks, |before.looks|)
    && Orders(after.placements, venue) <= Orders(before.placements, venue) + most
    && (forall v :: v != venue ==> Orders(after.placements, v) == Orders(before.placements, v))
  }

  /** A claim of being flat is right, if every reconciliation of the step was made on current evidence. */
  ghost predicate SoundClaim(before: Trail, after: Trail, venue: Venue, flat: bool) {
    FreshFrom(after.reconciles, |before.reconciles|) && flat ==> FlatAt(after.book, venue)
  }

  /** What the steps since `before` did, and what their outcome says about it. */
  ghost predicate Step(before: Trail, after: Trail, venue: Venue, most: nat, outcome: CompensationOutcome) {
    Works(before, after, venue, most, outcome) && Traced(before, after, outcome.legs)
  }

  ghost predicate Works(before: Trail, after: Trail, venue: Venue, most: nat, outcome: CompensationOutcome) {
    && Trades(before, after, venue, most)
    && Evidence(before, after, venue, outcome.legs, outcome.identities)
    && SoundClaim(before, after, venue, outcome.flat)
  }

  lemma ExtendsCompose(a: Trail, b: Trail, c: Trail)
    requires Extends(a, b) && Extends(b, c)
    ensures Extends(a, c)
  {
  }

  lemma SubmittedCompose(a: seq<Placement>, b: seq<Placement>, c: seq<Placement>, venue: Venue)
    requires a <= b <= c
    requires CompensatesFrom(b, |a|) && CompensatesFrom(c, |b|)
    ensures CompensatesFrom(c, |a|)
    ensures SentTo(b, |a|, venue) && SentTo(c, |b|, venue) ==> SentTo(c, |a|, venue)
  {
    assert forall k :: |a| <= k < |b| ==> c[k] == b[k];
  }

  lemma TradesCompose(a: Trail, b: Trail, c: Trail, venue: Venue, m: nat, n: nat)
    requires Trades(a, b, venue, m) && Trades(b, c, venue, n)
    ensures Trades(a, c, venue, m + n)
  {
    ExtendsCompose(a, b, c);
    ConservesCompose(a, b, c);
    SubmittedCompose(a.placements, b.placements, c.placements, venue);
    ReconciledStays(a, b, c, venue);
    assert forall k :: |a.looks| <= k < |b.looks| ==> c.looks[k] == b.looks[k];
  }

  lemma ReconciledStays(a: Trail, b: Trail, c: Trail, venue: Venue)
    requires Extends(a, b) && Extends(b, c)
    requires ReconciledOn(b, |a.reconciles|, venue)
    ensures forall k :: |a.reconciles| <= k < |b.reconciles| ==>
        c.reconciles[k].venue == venue && c.reconciles[k].phase == Compensating && Asks(c, k)
  {
    forall k | |a.reconciles| <= k < |b.reconciles|
      ensures c.reconciles[k] == b.reconciles[k] && Asks(c, k)
    {
      AsksStays(b, c, k);
    }
  }

  /** What was flat stays flat; what is flat at the end is claimed for the whole. */
  lemma ClaimsCompose(a: Trail, b: Trail, c: Trail, venue: Venue)
    requires Extends(a, b) && Extends(b, c)
    ensures forall claim :: SoundClaim(b, c, venue, claim) ==> SoundClaim(a, c, venue, claim)
    ensures forall claim :: SoundClaim(a, b, venue, claim) ==> SoundClaim(a, c, venue, claim)
  {
    assert FreshFrom(c.reconciles, |a.reconciles|) ==> FreshFrom(c.reconciles, |b.reconciles|);
    assert FreshFrom(c.reconciles, |a.reconciles|) ==> FreshFrom(b.reconciles, |a.reconciles|) by {
      assert forall k :: 0 <= k < |b.reconciles| ==> b.reconciles[k] == c.reconciles[k];
    }
    assert Closer(Live(c.book, venue), Live(b.book, venue));
  }

  /** What the outcome of a step keeps when another follows. */
  ghost predicate Joins(first: CompensationOutcome, second: CompensationOutcome, all: CompensationOutcome) {
    && all.legs == first.legs + second.legs
    && (forall i :: (i in first.identities || i in second.identities) && i.Known() ==> i in all.identities)
    && (all.identities != [] ==> first.identities != [] || second.identities != [])
  }

  /** Two steps on a venue are one; whatever the second claims, or the first, may be claimed of both. */
  lemma StepsCompose(a: Trail, b: Trail, c: Trail, venue: Venue, m: nat, n: nat,
      first: CompensationOutcome, second: CompensationOutcome, all: CompensationOutcome)
    requires Step(a, b, venue, m, first) && Step(b, c, venue, n, second)
    requires Joins(first, second, all) && (all.flat ==> first.flat || second.flat)
    ensures Step(a, c, venue, m + n, all)
  {
    WorkComposes(a, b, c, venue, m, n, first, second, all);
    TracedCompose(a, b, c, first.legs, second.legs);
  }

  lemma WorkComposes(a: Trail, b: Trail, c: Trail, venue: Venue, m: nat, n: nat,
      first: CompensationOutcome, second: CompensationOutcome, all: CompensationOutcome)
    requires Works(a, b, venue, m, first) && Works(b, c, venue, n, second)
    requires Joins(first, second, all) && (all.flat ==> first.flat || second.flat)
    ensures Works(a, c, venue, m + n, all)
  {
    TradesCompose(a, b, c, venue, m, n);
    ClaimsCompose(a, b, c, venue);
    IncludesItself(first.legs, second.legs);
    EvidenceCompose(a, b, c, venue, first.legs, first.identities, second.legs, second.identities, all.legs,
        all.identities);
  }

  lemma IncludesItself(legs: seq<CloseLeg>, more: seq<CloseLeg>)
    ensures Includes(legs + more, legs) && Includes(legs + more, more)
    ensures Sum(legs + more, QTY) == Sum(legs, QTY) + Sum(more, QTY)
  {
    SumConcat(legs, more, QTY);
    assert forall leg :: leg in legs || leg in more ==> leg in legs + more;
  }

  /** Nothing was done but probing. */
  ghost predicate Looks(before: Trail, after: Trail) {
    && Extends(before, after) && before.placements == after.placements && before.reconciles == after.reconciles
    && LookedFrom(after.looks, |before.looks|)
  }

  /** Looking at the position sends no order; it may find the venue flat. */
  lemma LookedAt(a: Trail, b: Trail, c: Trail, venue: Venue, most: nat, outcome: CompensationOutcome, flat: bool)
    requires Step(a, b, venue, most, outcome)
    requires Looks(b, c)
    requires flat ==> FlatAt(c.book, venue)
    ensures Step(a, c, venue, most, outcome.(flat := flat))
  {
    var bare, seen := outcome.(flat := false), NO_OUTCOME.(flat := flat);
    assert Step(a, b, venue, most, bare);
    Looking(b, c, venue, flat);
    NothingJoins(bare, seen);
    StepsCompose(a, b, c, venue, most, 0, bare, seen, outcome.(flat := flat));
  }

  lemma Looking(b: Trail, c: Trail, venue: Venue, flat: bool)
    requires Looks(b, c)
    requires flat ==> FlatAt(c.book, venue)
    ensures Step(b, c, venue, 0, NO_OUTCOME.(flat := flat))
  {
    ConservesWithoutOrders(b, c);
    TracedNothing(b, c);
  }

  lemma NothingJoins(outcome: CompensationOutcome, nothing: CompensationOutcome)
    requires nothing.legs == [] && nothing.identities == []
    ensures forall flat ::
        Joins(outcome, nothing, outcome.(flat := flat)) && Joins(nothing, outcome, outcome.(flat := flat))
  {
    assert outcome.legs + [] == outcome.legs && [] + outcome.legs == outcome.legs;
  }

  /** A probe after the step that began at `start`. */
  method VerifyFlat(exchange: Venues, venue: Venue, outcome: CompensationOutcome, ghost start: Trail, ghost most: nat)
    returns (after: CompensationOutcome)
    requires Step(start, exchange.Trail(), venue, most, outcome)
    modifies exchange
    ensures Step(start, exchange.Trail(), venue, most, after)
    ensures after == outcome.(flat := after.flat)
    ensures after.flat ==> FlatAt(exchange.book, venue)
    ensures exchange.placements == old(exchange.placements) && exchange.reconciles == old(exchange.reconciles)
  {
    ghost var before := exchange.Trail();
    var probe := exchange.FetchPosition(venue, Compensating);
    after := outcome.(flat := probe.Flat());
    LookedAt(start, before, exchange.Trail(), venue, most, outcome, after.flat);
  }

  /** An acknowledged fill did execute. */
  predicate Executed(before: Trail, now: Trail, p: Placement) {
    p.result.Ack? && p.result.fill.quantity > 0.0 ==>
      Abs(Live(now.book, p.request.venue)) <= Abs(Live(before.book, p.request.venue)) - p.result.fill.quantity
  }

  /** Nothing was done but sending this order. */
  ghost predicate Places(before: Trail, now: Trail, p: Placement) {
    && Extends(before, now) && now.placements == before.placements + [p]
    && now.reconciles == before.reconciles && now.looks == before.looks
    && Compensates(p) && Executed(before, now, p)
  }

  /** One order is a step. */
  lemma OrderPlaced(before: Trail, now: Trail, p: Placement)
    requires Places(before, now, p)
    ensures Step(before, now, p.request.venue, 1, AddResult(NO_OUTCOME, p.result, p.request.clientOrderId))
  {
    OrderTrades(before, now, p);
    OrderEvidence(before, now, p);
    OrderTraced(before, now, p);
  }

  lemma OrderTraced(before: Trail, now: Trail, p: Placement)
    requires now.placements == before.placements + [p]
    ensures Traced(before, now, AddResult(NO_OUTCOME, p.result, p.request.clientOrderId).legs)
  {
    if Reported(p) {
      assert AddResult(NO_OUTCOME, p.result, p.request.clientOrderId).legs
          == [CloseLeg(p.result.fill, p.request.clientOrderId)];
      assert OriginsOf(before, now, [CloseLeg(p.result.fill, p.request.clientOrderId)], [|before.placements|]);
    } else {
      TracedNothing(before, now);
    }
  }

  lemma OrderTrades(before: Trail, now: Trail, p: Placement)
    requires Places(before, now, p)
    ensures Trades(before, now, p.request.venue, 1)
  {
    assert now.placements[..|now.placements| - 1] == before.placements;
    assert now.placements[|before.placements|] == p;
    ConservesOneOrder(before, now, p);
  }

  lemma OrderEvidence(before: Trail, now: Trail, p: Placement)
    requires Places(before, now, p)
    ensures var outcome := AddResult(NO_OUTCOME, p.result, p.request.clientOrderId);
            Evidence(before, now, p.request.venue, outcome.legs, outcome.identities)
  {
    assert now.placements[..|now.placements| - 1] == before.placements;
    assert now.placements[|before.placements|] == p;
    var outcome := AddResult(NO_OUTCOME, p.result, p.request.clientOrderId);
    OneLegSum(outcome.legs);
    if Reported(p) {
      assert CloseLeg(p.result.fill, p.request.clientOrderId) in outcome.legs;
    }
  }

  lemma OneLegSum(legs: seq<CloseLeg>)
    ensures |legs| == 1 ==> Sum(legs, QTY) == legs[0].fill.quantity
    ensures |legs| == 0 ==> Sum(legs, QTY) == 0.0
  {
    assert |legs| == 1 ==> legs[..0] == [];
  }

  lemma AddResultJoins(outcome: CompensationOutcome, result: PlaceResult, clientOrderId: Id)
    ensures Joins(outcome, AddResult(NO_OUTCOME, result, clientOrderId), AddResult(outcome, result, clientOrderId))
  {
    match result
    case Ack(fill) => AddFillJoins(outcome, fill, clientOrderId);
    case Failed(error) =>
      RememberJoins(outcome, Identity(error.acceptedOrderId, OrElse(error.acceptedClientOrderId, clientOrderId)));
      NothingJoins(outcome, NO_OUTCOME);
      assert outcome == outcome.(flat := outcome.flat);
  }

  lemma OneMoreOrder(start: Trail, before: Trail, now: Trail, p: Placement, most: nat, outcome: CompensationOutcome)
    requires Places(before, now, p) && !outcome.flat
    requires Step(start, before, p.request.venue, most, outcome)
    ensures Step(start, now, p.request.venue, most + 1, AddResult(outcome, p.result, p.request.clientOrderId))
  {
    OrderPlaced(before, now, p);
    AddResultJoins(outcome, p.result, p.request.clientOrderId);
    StepsCompose(start, before, now, p.request.venue, most, 1, outcome,
      AddResult(NO_OUTCOME, p.result, p.request.clientOrderId), AddResult(outcome, p.result, p.request.clientOrderId));
  }

  /** The last thing done was to send this request, and this was its answer. */
  predicate JustAnswered(now: Trail, request: OrderRequest, result: PlaceResult) {
    now.placements != []
    && var p := now.placements[|now.placements| - 1];
       p.phase == Compensating && p.request == request && p.result == result && p.settled == |now.reconciles|
  }

  /** Places one order and keeps what came back of it. */
  method Submit(exchange: Venues, request: OrderRequest, outcome: CompensationOutcome, ghost start: Trail,
      ghost most: nat)
    returns (after: CompensationOutcome, result: PlaceResult)
    requires request.reduceOnly && request.clientOrderId != NoId && !outcome.flat
    requires Reduces(request.side, Live(exchange.book, request.venue))
    requires Step(start, exchange.Trail(), request.venue, most, outcome)
    modifies exchange
    ensures Step(start, exchange.Trail(), request.venue, most + 1, after)
    ensures exchange.reconciles == old(exchange.reconciles)
    ensures AllCloser(exchange.book, old(exchange.book))
    ensures Positive(outcome) ==> Positive(after)
    ensures after == AddResult(outcome, result, request.clientOrderId) && !after.flat
    ensures old(exchange.placements) < exchange.placements
        && |exchange.placements| == |old(exchange.placements)| + 1
    ensures JustAnswered(exchange.Trail(), request, result)
    ensures result.Ack? && result.fill.quantity > 0.0 ==>
              Abs(Live(exchange.book, request.venue)) <= Abs(Live(old(exchange.book),
                  request.venue)) - result.fill.quantity
  {
    ghost var before := exchange.Trail();
    result := exchange.PlaceOrder(request, Compensating);
    after := AddResult(outcome, result, request.clientOrderId);
    OneMoreOrder(start, before, exchange.Trail(), exchange.placements[|before.placements|], most, outcome);
  }

  /** At most one more order, under this client id. */
  predicate OneMoreUnder(before: seq<Placement>, now: seq<Placement>, cid: Id) {
    before <= now && |now| <= |before| + 1 && (|before| < |now| ==> now[|before|].request.clientOrderId == cid)
  }

  /** The rest of the duplicate branch, once the ledger asks for a retry. */
  method RetryUnderNewId(exchange: Venues, request: OrderRequest, outcome: CompensationOutcome, ghost start: Trail,
      ghost most: nat)
    returns (after: CompensationOutcome)
    requires request.reduceOnly && request.clientOrderId != NoId && !outcome.flat
    requires Reduces(request.side, Live(exchange.book, request.venue))
    requires Step(start, exchange.Trail(), request.venue, most, outcome)
    modifies exchange
    ensures Step(start, exchange.Trail(), request.venue, most + 1, after.(flat := false))
    ensures OneMoreUnder(old(exchange.placements), exchange.placements, request.clientOrderId)
    ensures exchange.reconciles == old(exchange.reconciles)
    ensures Positive(outcome) ==> Positive(after)
    ensures Abs(Live(old(exchange.book), request.venue)) <= request.quantity && after.flat ==>
        FlatAt(exchange.book, request.venue)
  {
    var retry;
    after, retry := Submit(exchange, request, outcome, start, most);
    if retry.Ack? {
      if retry.fill.quantity >= request.quantity - FLAT_EPS {
        after := after.(flat := true);
      } else {
        after := VerifyFlat(exchange, request.venue, after, start, most + 1);
        Unclaimed(start, exchange.Trail(), request.venue, most + 1, after);
      }
    }
  }

  /** A step need not be claimed to end flat. */
  lemma Unclaimed(a: Trail, b: Trail, venue: Venue, most: nat, outcome: CompensationOutcome)
    requires Step(a, b, venue, most, outcome)
    ensures Step(a, b, venue, most, outcome.(flat := false))
  {
  }

  /** What the reconciliation of a duplicate client id found is kept like a fill, or like an unresolved order. */
  function AddDuplicate(outcome: CompensationOutcome, duplicate: DuplicateResult, clientOrderId: Id,
      at: int): CompensationOutcome {
    if duplicate.reconciledQty > FLAT_EPS then
      AddFill(outcome,
          OrderFill(duplicate.reconciledQty, duplicate.averagePrice, duplicate.orderId, clientOrderId, None,
            at), clientOrderId)
    else if duplicate.orderId != NoId then
      outcome.(identities := Remember(outcome.identities, Identity(duplicate.orderId, clientOrderId)))
    else outcome
  }

  /** Nothing was done but reconciling the last order. */
  ghost predicate Reconciles(before: Trail, now: Trail, fact: Reconcile) {
    && Extends(before, now) && now.placements == before.placements && now.reconciles == before.reconciles + [fact]
    && LookedFrom(now.looks, |before.looks|)
    && fact.phase == Compensating && fact.orders == |now.placements| && Asks(now, |before.reconciles|)
  }

  lemma ReconciledTrades(before: Trail, now: Trail, fact: Reconcile)
    requires Reconciles(before, now, fact)
    ensures Trades(before, now, fact.venue, 0)
  {
    assert now.reconciles[|before.reconciles|] == fact;
    ConservesWithoutOrders(before, now);
  }

  lemma ReconciledCredit(before: Trail, now: Trail, fact: Reconcile)
    requires now.placements == before.placements && now.reconciles == before.reconciles + [fact]
    ensures 0.0 <= fact.Result().reconciledQty == Credit(now, fact.venue) - Credit(before, fact.venue)
  {
    assert now.reconciles[..|now.reconciles| - 1] == before.reconciles;
  }

  lemma ReconciledBooks(before: seq<Reconcile>, now: seq<Reconcile>, fact: Reconcile, legs: seq<CloseLeg>)
    requires now == before + [fact]
    requires fact.Result().reconciledQty > FLAT_EPS ==> BookedReconciled(legs, fact.Result())
    ensures BookedReconcilesFrom(now, |before|, fact.venue, legs)
  {
    forall k | |before| <= k < |now|
      ensures now[k] == fact
    {
    }
  }

  lemma ReconciledEvidence(before: Trail, now: Trail, fact: Reconcile, cid: Id, at: int)
    requires Reconciles(before, now, fact)
    ensures var outcome := AddDuplicate(NO_OUTCOME, fact.Result(), cid, at);
            Evidence(before, now, fact.venue, outcome.legs, outcome.identities)
  {
    var d := fact.Result();
    DuplicateAlone(d, cid, at);
    ReconciledCredit(before, now, fact);
    ReconciledBooks(before.reconciles, now.reconciles, fact, AddDuplicate(NO_OUTCOME, d, cid, at).legs);
  }

  /** What a found duplicate adds by itself. */
  lemma DuplicateAlone(d: DuplicateResult, cid: Id, at: int)
    ensures var legs := AddDuplicate(NO_OUTCOME, d, cid, at).legs;
            && (d.reconciledQty > FLAT_EPS ==> BookedReconciled(legs, d) && Sum(legs, QTY) == d.reconciledQty)
            && (d.reconciledQty <= FLAT_EPS ==> Sum(legs, QTY) == 0.0)
  {
    var legs := AddDuplicate(NO_OUTCOME, d, cid, at).legs;
    OneLegSum(legs);
    if d.reconciledQty > FLAT_EPS {
      assert legs[0] in legs && IsFound(legs[0].fill, d);
    }
  }

  lemma ReconciledAlone(before: Trail, now: Trail, fact: Reconcile, cid: Id, at: int)
    requires Reconciles(before, now, fact)
    ensures Works(before, now, fact.venue, 0, AddDuplicate(NO_OUTCOME, fact.Result(), cid, at))
  {
    ReconciledTrades(before, now, fact);
    ReconciledEvidence(before, now, fact, cid, at);
  }

  lemma AddFillJoins(outcome: CompensationOutcome, fill: OrderFill, clientOrderId: Id)
    ensures Joins(outcome, AddFill(NO_OUTCOME, fill, clientOrderId), AddFill(outcome, fill, clientOrderId))
  {
    assert outcome.legs + [] == outcome.legs;
  }

  lemma RememberJoins(outcome: CompensationOutcome, identity: Identity)
    ensures Joins(outcome, NO_OUTCOME.(identities := Remember([], identity)),
        outcome.(identities := Remember(outcome.identities, identity)))
  {
    assert outcome.legs + [] == outcome.legs;
  }

  lemma AddDuplicateJoins(outcome: CompensationOutcome, duplicate: DuplicateResult, cid: Id, at: int)
    ensures Joins(outcome, AddDuplicate(NO_OUTCOME, duplicate, cid, at), AddDuplicate(outcome, duplicate, cid, at))
  {
    if duplicate.reconciledQty > FLAT_EPS {
      AddFillJoins(outcome,
          OrderFill(duplicate.reconciledQty, duplicate.averagePrice, duplicate.orderId, cid, None, at), cid);
    } else if duplicate.orderId != NoId {
      RememberJoins(outcome, Identity(duplicate.orderId, cid));
    } else {
      NothingJoins(outcome, NO_OUTCOME);
      assert outcome == outcome.(flat := outcome.flat);
    }
  }

  /** The reconciliation of the last order, which nothing came of so far, is a step that sends no order; what it finds
      came of that order. */
  lemma Reconciled(start: Trail, before: Trail, now: Trail, most: nat, outcome: CompensationOutcome,
      fact: Reconcile, request: OrderRequest, result: PlaceResult, cid: Id, at: int)
    requires Step(start, before, fact.venue, most, outcome) && !outcome.flat && outcome.legs == []
    requires Reconciles(before, now, fact) && |start.placements| < |now.placements|
    requires JustAnswered(before, request, result) && result.Failed?
    ensures Step(start, now, fact.venue, most, AddDuplicate(outcome, fact.Result(), cid, at))
    ensures FreshFrom(now.reconciles, |start.reconciles|) ==> fact.Fresh()
  {
    ReconciledWorks(start, before, now, most, outcome, fact, cid, at);
    ReconciledTraced(start, before, now, outcome, fact, request, result, cid, at);
  }

  lemma ReconciledWorks(start: Trail, before: Trail, now: Trail, most: nat, outcome: CompensationOutcome,
      fact: Reconcile, cid: Id, at: int)
    requires Works(start, before, fact.venue, most, outcome) && !outcome.flat && Reconciles(before, now, fact)
    ensures Works(start, now, fact.venue, most, AddDuplicate(outcome, fact.Result(), cid, at))
    ensures FreshFrom(now.reconciles, |start.reconciles|) ==> fact.Fresh()
  {
    assert now.reconciles[|before.reconciles|] == fact;
    ReconciledAlone(before, now, fact, cid, at);
    AddDuplicateJoins(outcome, fact.Result(), cid, at);
    WorkComposes(start, before, now, fact.venue, most, 0, outcome, AddDuplicate(NO_OUTCOME, fact.Result(), cid, at),
        AddDuplicate(outcome, fact.Result(), cid, at));
  }

  lemma ReconciledTraced(start: Trail, before: Trail, now: Trail, outcome: CompensationOutcome, fact: Reconcile,
      request: OrderRequest, result: PlaceResult, cid: Id, at: int)
    requires outcome.legs == [] && |start.placements| < |now.placements|
    requires Reconciles(before, now, fact) && JustAnswered(before, request, result) && result.Failed?
    ensures Traced(start, now, AddDuplicate(outcome, fact.Result(), cid, at).legs)
  {
    var legs := AddDuplicate(outcome, fact.Result(), cid, at).legs;
    if legs == [] {
      TracedNothing(start, now);
    } else {
      assert now.reconciles[|before.reconciles|] == fact;
      assert ComesOf(now, |now.placements| - 1, legs[0].fill);
      assert OriginsOf(start, now, legs, [|now.placements| - 1]);
    }
  }

  /** The client id was used before: learn what became of that order, and ask for the rest under a new id.
      Flat is claimed when the ledger clears the id, when the retry fills, or when a probe says so. */
  method SettleDuplicate(exchange: Venues, request: OrderRequest, retryCid: Id, outcome: CompensationOutcome,
      ghost start: Trail, ghost result: PlaceResult)
    returns (after: CompensationOutcome)
    requires request.reduceOnly && retryCid != NoId && !outcome.flat && outcome.legs == []
    requires Abs(Live(exchange.book, request.venue)) <= request.quantity
    requires Reduces(request.side, Live(exchange.book, request.venue))
    requires Step(start, exchange.Trail(), request.venue, 1, outcome)
    requires |start.placements| < |exchange.placements| && JustAnswered(exchange.Trail(), request, result)
        && result.Failed?
    modifies exchange
    ensures Step(start, exchange.Trail(), request.venue, 2, after)
    ensures Positive(outcome) ==> Positive(after)
    ensures OneMoreUnder(old(exchange.placements), exchange.placements, retryCid)
  {
    var duplicate;
    after, duplicate := AdoptDuplicate(exchange, request, outcome, start, result);
    if duplicate.ClearState() {
      after := after.(flat := true);
    } else if duplicate.ShouldRetry() {
      StillCovered(exchange.book, old(exchange.book), request.venue);
      after := RetryUnderNewId(exchange, request.(quantity := duplicate.retryQty, clientOrderId := retryCid), after,
          start, 1);
    }
  }

  /** Asks the ledger about the order just sent, and keeps what it found. On current evidence, clear means flat, and
      the retry quantity covers the position. */
  method AdoptDuplicate(exchange: Venues, request: OrderRequest, outcome: CompensationOutcome, ghost start: Trail,
      ghost result: PlaceResult)
    returns (after: CompensationOutcome, duplicate: DuplicateResult)
    requires !outcome.flat && outcome.legs == []
    requires Abs(Live(exchange.book, request.venue)) <= request.quantity
    requires Step(start, exchange.Trail(), request.venue, 1, outcome)
    requires |start.placements| < |exchange.placements| && JustAnswered(exchange.Trail(), request, result)
        && result.Failed?
    modifies exchange
    ensures Step(start, exchange.Trail(), request.venue, 1, after) && !after.flat
    ensures Positive(outcome) ==> Positive(after)
    ensures exchange.placements == old(exchange.placements) && AllCloser(exchange.book, old(exchange.book))
    ensures |exchange.reconciles| == |old(exchange.reconciles)| + 1
    ensures var fact := exchange.reconciles[|old(exchange.reconciles)|];
            duplicate == fact.Result() && fact.target == request.quantity && fact.clientOrderId == request.clientOrderId
    ensures FreshFrom(exchange.reconciles, |start.reconciles|) ==>
              && (duplicate.ClearState() ==> FlatAt(exchange.book, request.venue))
              && (duplicate.ShouldRetry() ==> Abs(Live(exchange.book, request.venue)) <= duplicate.retryQty)
  {
    ghost var before := exchange.Trail();
    duplicate := exchange.ReconcileDuplicate(request.venue, request.clientOrderId, request.quantity, Compensating);
    ghost var mid := exchange.Trail();
    ghost var fact := mid.reconciles[|old(exchange.reconciles)|];
    assert mid.reconciles == before.reconciles + [fact];
    var duplicateCid := OrElse(duplicate.clientOrderId, request.clientOrderId);
    var at: int := *; // the clock
    after := AddDuplicate(outcome, duplicate, duplicateCid, at);
    Reconciled(start, before, mid, 1, outcome, fact, request, result, duplicateCid, at);
    if fact.Fresh() {
      FreshDecides(fact);
    }
  }

  /** On current evidence the decision is right for the position that was probed. */
  lemma FreshDecides(fact: Reconcile)
    requires Truthful(fact.probe, fact.live) && fact.Fresh()
    ensures fact.Result().ClearState() ==> Abs(fact.live) <= FLAT_EPS
    ensures fact.Result().ShouldRetry() ==> Abs(fact.live) <= fact.Result().retryQty
  {
    FreshExactly(fact);
  }

  // --- client ids ---

  /** The order of the stages in which a leg is flattened. */
  function Rank(stage: Stage): nat {
    match stage
    case CompensateAttempt(_, attempt) => 2 * attempt
    case CompensateHardStop(_) => 2 * MAX_EMERGENCY_FLATTEN_ATTEMPTS + 2
    case DuplicateRetry(of) => Rank(of) + 1
    case _ => 0
  }

  predicate Flattens(stage: Stage, leg: LegLabel) {
    match stage
    case CompensateAttempt(l, _) => l == leg
    case CompensateHardStop(l) => l == leg
    case DuplicateRetry(of) => Flattens(of, leg)
    case _ => false
  }

  /** The order carries a client id of a stage that flattens the leg, of a rank from lo below hi. */
  predicate RankedIn(p: Placement, positionId: string, leg: LegLabel, lo: nat, hi: nat) {
    var id := p.request.clientOrderId;
    id.ClientOrderId? && id.positionId == positionId && Flattens(id.stage, leg) && lo <= Rank(id.stage) < hi
  }

  function RankOf(p: Placement): int {
    if p.request.clientOrderId.ClientOrderId? then Rank(p.request.clientOrderId.stage) else -1
  }

  /** So do all orders from index n on, each of a higher rank than the one before: no id is used twice. */
  predicate Ranked(placements: seq<Placement>, n: nat, positionId: string, leg: LegLabel, lo: nat, hi: nat) {
    && (forall k :: n <= k < |placements| ==> RankedIn(placements[k], positionId, leg, lo, hi))
    && (forall j, k :: n <= j < k < |placements| ==> RankOf(placements[j]) < RankOf(placements[k]))
  }

  lemma RanksCompose(a: seq<Placement>, b: seq<Placement>, c: seq<Placement>, positionId: string, leg: LegLabel,
      lo: nat, mid: nat, hi: nat)
    requires a <= b <= c && lo <= mid <= hi
    requires Ranked(b, |a|, positionId, leg, lo, mid) && Ranked(c, |b|, positionId, leg, mid, hi)
    ensures Ranked(c, |a|, positionId, leg, lo, hi)
  {
    assert forall k :: 0 <= k < |b| ==> c[k] == b[k];
  }

  lemma RanksOfTwo(before: seq<Placement>, now: seq<Placement>, positionId: string, stage: Stage, leg: LegLabel)
    requires |before| < |now| <= |before| + 2 && Flattens(stage, leg)
    requires now[|before|].request.clientOrderId == ClientOrderId(positionId, stage)
    requires |now| == |before| + 2 ==>
               now[|before| + 1].request.clientOrderId == ClientOrderId(positionId, DuplicateRetry(stage))
    ensures Ranked(now, |before|, positionId, leg, Rank(stage), Rank(stage) + 2)
  {
  }

  /** _compensate_close_leg_exposure: one reduce-only order, or two when its client id was used before. */
  method CompensateCloseLegExposure(exchange: Venues, venue: Venue, quantity: real, side: Side, positionId: string,
      stage: Stage, ghost leg: LegLabel)
    returns (outcome: CompensationOutcome)
    requires Abs(Live(exchange.book, venue)) <= quantity && Reduces(side, Live(exchange.book, venue))
    requires Flattens(stage, leg)
    modifies exchange
    ensures Step(old(exchange.Trail()), exchange.Trail(), venue, 2, outcome)
    ensures Positive(outcome)
    ensures venue in exchange.adapters ==>
              Sends(old(exchange.placements), exchange.placements,
                  OrderRequest(venue, side, quantity, true, 0.0, ClientOrderId(positionId, stage)))
    ensures Ranked(exchange.placements, |old(exchange.placements)|, positionId, leg, Rank(stage), Rank(stage) + 2)
  {
    if venue in exchange.adapters {
      var request := OrderRequest(venue, side, quantity, true, 0.0, ClientOrderId(positionId, stage));
      ghost var before := exchange.placements;
      outcome := SubmitAndFollowUp(exchange, request, ClientOrderId(positionId, DuplicateRetry(stage)));
      RanksOfTwo(before, exchange.placements, positionId, stage, leg);
    } else {
      outcome := NO_OUTCOME;
      SelfStep(exchange.Trail(), venue);
    }
  }

  lemma SelfStep(t: Trail, venue: Venue)
    ensures Step(t, t, venue, 2, NO_OUTCOME)
  {
    Looking(t, t, venue, false);
    MoreIsAllowed(t, t, venue, 0, 2, NO_OUTCOME);
  }

  /** The order, and what follows when it does not fill. */
  method SubmitAndFollowUp(exchange: Venues, request: OrderRequest, retryCid: Id) returns (outcome: CompensationOutcome)
    requires request.reduceOnly && request.clientOrderId != NoId && retryCid != NoId
    requires Abs(Live(exchange.book, request.venue)) <= request.quantity
        && Reduces(request.side, Live(exchange.book, request.venue))
    modifies exchange
    ensures Step(old(exchange.Trail()), exchange.Trail(), request.venue, 2, outcome) && Positive(outcome)
    ensures Sends(old(exchange.placements), exchange.placements, request)
    ensures |exchange.placements| <= |old(exchange.placements)| + 2
    ensures |exchange.placements| == |old(exchange.placements)| + 2 ==>
        exchange.placements[|old(exchange.placements)| + 1].request.clientOrderId == retryCid
  {
    var result;
    ghost var start := exchange.Trail();
    Looking(start, start, request.venue, false);
    outcome, result := Submit(exchange, request, NO_OUTCOME, start, 0);
    if result.Ack? && result.fill.quantity >= request.quantity - FLAT_EPS {
      outcome := outcome.(flat := true);
      MoreIsAllowed(start, exchange.Trail(), request.venue, 1, 2, outcome);
    } else {
      StillCovered(exchange.book, start.book, request.venue);
      outcome := FollowUp(exchange, request, retryCid, result, outcome, start);
    }
  }

  /** A position that only moves towards zero stays covered, and stays on its side. */
  lemma StillCovered(now: Book, before: Book, venue: Venue)
    requires AllCloser(now, before)
    ensures Abs(Live(now, venue)) <= Abs(Live(before, venue))
    ensures forall side :: Reduces(side, Live(before, venue)) ==> Reduces(side, Live(now, venue))
  {
    assert Closer(Live(now, venue), Live(before, venue));
  }

  /** After an order that did not fill: settle a duplicate client id, and look at the position. */
  method FollowUp(exchange: Venues, request: OrderRequest, retryCid: Id, result: PlaceResult,
      outcome: CompensationOutcome, ghost start: Trail)
    returns (after: CompensationOutcome)
    requires request.reduceOnly && retryCid != NoId && !outcome.flat && Positive(outcome)
    requires Abs(Live(exchange.book, request.venue)) <= request.quantity
    requires Reduces(request.side, Live(exchange.book, request.venue))
    requires Step(start, exchange.Trail(), request.venue, 1, outcome)
    requires |start.placements| < |exchange.placements| && JustAnswered(exchange.Trail(), request, result)
    requires result.Failed? ==> outcome.legs == []
    modifies exchange
    ensures Step(start, exchange.Trail(), request.venue, 2, after) && Positive(after)
    ensures OneMoreUnder(old(exchange.placements), exchange.placements, retryCid)
  {
    if result.Failed? && result.error.reason.duplicate {
      after := SettleDuplicate(exchange, request, retryCid, outcome, start, result);
    } else {
      after := outcome;
      MoreIsAllowed(start, exchange.Trail(), request.venue, 1, 2, outcome);
    }
    if !after.flat {
      after := VerifyFlat(exchange, request.venue, after, start, 2);
    }
  }

  // ---------------------------------------------------------------------------------------------
  // Two tiers
  // ---------------------------------------------------------------------------------------------

  /** Every leg a compensation produces closed something. */
  predicate Positive(outcome: CompensationOutcome) {
    forall leg :: leg in outcome.legs ==> leg.fill.quantity > 0.0
  }

  /** Merging loses nothing of either outcome. */
  lemma MergeJoins(target: CompensationOutcome, more: CompensationOutcome)
    ensures Joins(target, more, Merge(target, more))
  {
    IncludesItself(target.legs, more.legs);
    assert forall i ::
      i in RememberAll(target.identities, more.identities) ==> i in target.identities || i in more.identities;
    if Merge(target, more).identities != [] {
      assert RememberAll(target.identities, more.identities)[0] in RememberAll(target.identities, more.identities);
    }
  }

  lemma StepsMerge(a: Trail, b: Trail, c: Trail, venue: Venue, m: nat, n: nat, first: CompensationOutcome,
      second: CompensationOutcome)
    requires Step(a, b, venue, m, first) && Step(b, c, venue, n, second)
    ensures Step(a, c, venue, m + n, Merge(first, second))
    ensures Positive(first) && Positive(second) ==> Positive(Merge(first, second))
  {
    MergeJoins(first, second);
    StepsCompose(a, b, c, venue, m, n, first, second, Merge(first, second));
  }

  /** One order, merged into what the earlier ones produced. */
  method AttemptFlatten(exchange: Venues, venue: Venue, quantity: real, side: Side, positionId: string, stage: Stage,
      outcome: CompensationOutcome, ghost start: Trail, ghost most: nat, ghost leg: LegLabel)
    returns (after: CompensationOutcome)
    requires Abs(Live(exchange.book, venue)) <= quantity && Reduces(side, Live(exchange.book, venue))
    requires Step(start, exchange.Trail(), venue, most, outcome) && Positive(outcome)
    requires venue in exchange.adapters && Flattens(stage, leg) && Rank(stage) >= 2
    requires Ranked(exchange.placements, |start.placements|, positionId, leg, 2, Rank(stage))
    modifies exchange
    ensures Step(start, exchange.Trail(), venue, most + 2, after) && Positive(after)
    ensures Ranked(exchange.placements, |start.placements|, positionId, leg, 2, Rank(stage) + 2)
    ensures old(exchange.placements) <= exchange.placements && AllCloser(exchange.book, old(exchange.book))
    ensures Sends(old(exchange.placements), exchange.placements,
        OrderRequest(venue, side, quantity, true, 0.0, ClientOrderId(positionId, stage)))
  {
    ghost var before := exchange.Trail();
    var attempted := CompensateCloseLegExposure(exchange, venue, quantity, side, positionId, stage, leg);
    after := Merge(outcome, attempted);
    StepsMerge(start, before, exchange.Trail(), venue, most, 2, outcome, attempted);
    RanksCompose(start.placements, before.placements, exchange.placements, positionId, leg, 2, Rank(stage),
      Rank(stage) + 2);
  }

  /** What the next attempt is to close. A failed probe keeps the old quantity, which still covers the position. */
  method Reprobe(exchange: Venues, venue: Venue, quantity: real, side: Side, outcome: CompensationOutcome,
      ghost start: Trail, ghost most: nat)
    returns (after: CompensationOutcome, retryQuantity: real, retrySide: Side)
    requires Abs(Live(exchange.book, venue)) <= quantity && Reduces(side, Live(exchange.book, venue))
    requires Step(start, exchange.Trail(), venue, most, outcome) && !outcome.flat
    modifies exchange
    ensures Step(start, exchange.Trail(), venue, most, after) && after == outcome.(flat := after.flat)
    ensures Abs(Live(exchange.book, venue)) <= retryQuantity && Reduces(retrySide, Live(exchange.book, venue))
    ensures exchange.placements == old(exchange.placements)
  {
    ghost var before := exchange.Trail();
    retryQuantity, retrySide := quantity, side;
    var probe := exchange.FetchPosition(venue, Compensating);
    after := outcome.(flat := probe.Flat());
    LookedAt(start, before, exchange.Trail(), venue, most, outcome, after.flat);
    if probe.Snapshot? {
      retryQuantity, retrySide := Abs(probe.quantity), probe.side.Opposite();
    }
  }

  /** One turn of the loop: an order, and a new probe unless it was the last. */
  method FlattenOnce(exchange: Venues, venue: Venue, quantity: real, side: Side, positionId: string, leg: LegLabel,
      outcome: CompensationOutcome, ghost start: Trail, attempt: nat)
    returns (after: CompensationOutcome, retryQuantity: real, retrySide: Side)
    requires Abs(Live(exchange.book, venue)) <= quantity && Reduces(side, Live(exchange.book, venue))
    requires Step(start, exchange.Trail(), venue, 2 * attempt, outcome) && Positive(outcome) && !outcome.flat
    requires venue in exchange.adapters
    requires Ranked(exchange.placements, |start.placements|, positionId, leg, 2, 2 * attempt + 2)
    modifies exchange
    ensures Step(start, exchange.Trail(), venue, 2 * attempt + 2, after) && Positive(after)
    ensures Ranked(exchange.placements, |start.placements|, positionId, leg, 2, 2 * attempt + 4)
    ensures Abs(Live(exchange.book, venue)) <= retryQuantity && Reduces(retrySide, Live(exchange.book, venue))
    ensures old(exchange.placements) <= exchange.placements
    ensures Sends(old(exchange.placements), exchange.placements,
              OrderRequest(venue, side, quantity, true, 0.0,
                  ClientOrderId(positionId, CompensateAttempt(leg, attempt + 1))))
  {
    ghost var before := exchange.book;
    after := AttemptFlatten(exchange, venue, quantity, side, positionId, CompensateAttempt(leg, attempt + 1), outcome,
        start, 2 * attempt, leg);
    retryQuantity, retrySide := quantity, side;
    StillCovered(exchange.book, before, venue);
    if !after.flat && attempt + 1 < MAX_EMERGENCY_FLATTEN_ATTEMPTS {
      after, retryQuantity, retrySide := Reprobe(exchange, venue, quantity, side, after, start, 2 * attempt + 2);
    }
  }

  function FirstFlatten(venue: Venue, quantity: real, side: Side, positionId: string, leg: LegLabel): OrderRequest {
    OrderRequest(venue, side, quantity, true, 0.0, ClientOrderId(positionId, CompensateAttempt(leg, 1)))
  }

  /** First tier: nothing without an adapter. */
  method FlattenCloseLegWithRetries(exchange: Venues, venue: Venue, quantity: real, side: Side, positionId: string,
      leg: LegLabel)
    returns (outcome: CompensationOutcome)
    requires Abs(Live(exchange.book, venue)) <= quantity && Reduces(side, Live(exchange.book, venue))
    modifies exchange
    ensures Step(old(exchange.Trail()), exchange.Trail(), venue, 6, outcome)
    ensures Positive(outcome)
    ensures Ranked(exchange.placements, |old(exchange.placements)|, positionId, leg, 2, 8)
    ensures venue in exchange.adapters ==>
              && Sends(old(exchange.placements), exchange.placements,
                  FirstFlatten(venue, quantity, side, positionId, leg))
              && (!outcome.flat ==>
                |exchange.placements| >= |old(exchange.placements)| + MAX_EMERGENCY_FLATTEN_ATTEMPTS)
  {
    if venue in exchange.adapters {
      outcome := FlattenLoop(exchange, venue, quantity, side, positionId, leg);
    } else {
      outcome := NO_OUTCOME;
      SelfStep(exchange.Trail(), venue);
      MoreIsAllowed(exchange.Trail(), exchange.Trail(), venue, 2, 6, outcome);
    }
  }

  /** Up to three orders, each for what the last successful probe saw. It gives up only after three. */
  method FlattenLoop(exchange: Venues, venue: Venue, quantity: real, side: Side, positionId: string, leg: LegLabel)
    returns (outcome: CompensationOutcome)
    requires Abs(Live(exchange.book, venue)) <= quantity && Reduces(side, Live(exchange.book, venue))
    requires venue in exchange.adapters
    modifies exchange
    ensures Step(old(exchange.Trail()), exchange.Trail(), venue, 6, outcome)
    ensures Positive(outcome)
    ensures Ranked(exchange.placements, |old(exchange.placements)|, positionId, leg, 2, 8)
    ensures Sends(old(exchange.placements), exchange.placements, FirstFlatten(venue, quantity, side, positionId, leg))
    ensures !outcome.flat ==> |exchange.placements| >= |old(exchange.placements)| + MAX_EMERGENCY_FLATTEN_ATTEMPTS
  {
    outcome := NO_OUTCOME;
    ghost var start := exchange.Trail();
    Looking(start, start, venue, false);
    var retryQuantity, retrySide, attempt := quantity, side, 0;
    while attempt < MAX_EMERGENCY_FLATTEN_ATTEMPTS && !outcome.flat
      invariant 0 <= attempt <= MAX_EMERGENCY_FLATTEN_ATTEMPTS
      invariant Step(start, exchange.Trail(), venue, 2 * attempt, outcome) && Positive(outcome)
      invariant Ranked(exchange.placements, |start.placements|, positionId, leg, 2, 2 * attempt + 2)
      invariant Abs(Live(exchange.book, venue)) <= retryQuantity && Reduces(retrySide, Live(exchange.book, venue))
      invariant FlattenedSoFar(start.placements, exchange.placements, attempt, outcome.flat, retryQuantity == quantity
          && retrySide == side,
                  FirstFlatten(venue, quantity, side, positionId, leg))
    {
      outcome, retryQuantity, retrySide := FlattenOnce(exchange, venue, retryQuantity, retrySide, positionId, leg,
          outcome, start, attempt);
      attempt := attempt + 1;
    }
    MoreIsAllowed(start, exchange.Trail(), venue, 2 * attempt, 6, outcome);
  }

  /** The loop has sent an order per turn, the first for all that was live. */
  predicate FlattenedSoFar(before: seq<Placement>, now: seq<Placement>, attempt: nat, flat: bool, asGiven: bool,
      first: OrderRequest) {
    if attempt == 0 then before == now && asGiven && !flat
    else Sends(before, now, first) && before <= now && |now| >= |before| + attempt
  }

  lemma MoreIsAllowed(a: Trail, b: Trail, venue: Venue, m: nat, n: nat, outcome: CompensationOutcome)
    requires Step(a, b, venue, m, outcome) && m <= n
    ensures Step(a, b, venue, n, outcome)
  {
  }

  /** Second tier: probe again, and one last order for what is left. */
  method HardStopCloseLeg(exchange: Venues, venue: Venue, positionId: string, leg: LegLabel)
    returns (outcome: CompensationOutcome)
    modifies exchange
    ensures Step(old(exchange.Trail()), exchange.Trail(), venue, 2, outcome)
    ensures Positive(outcome)
    ensures Ranked(exchange.placements, |old(exchange.placements)|, positionId, leg, 8, 10)
    ensures venue in exchange.adapters ==>
              && LooksAt(old(exchange.looks), exchange.looks, venue)
              && var probe := exchange.looks[|old(exchange.looks)|].probe;
                 && (probe.Flat() ==> outcome.flat)
                 && (probe.Snapshot? && !probe.Flat() ==>
                       Sends(old(exchange.placements), exchange.placements,
                         OrderRequest(venue, probe.side.Opposite(), Abs(probe.quantity), true, 0.0,
                           ClientOrderId(positionId, CompensateHardStop(leg)))))
  {
    outcome := NO_OUTCOME;
    ghost var start := exchange.Trail();
    if venue !in exchange.adapters {
      SelfStep(start, venue);
    } else {
      var probe := exchange.FetchPosition(venue, Compensating);
      ghost var mid := exchange.Trail();
      assert exchange.looks[|start.looks|] == Look(Compensating, venue, probe);
      if probe.Flat() || !probe.Snapshot? {
        outcome := outcome.(flat := probe.Flat());
        Looking(start, mid, venue, probe.Flat());
        MoreIsAllowed(start, mid, venue, 0, 2, outcome);
      } else {
        outcome := CompensateCloseLegExposure(exchange, venue, Abs(probe.quantity), probe.side.Opposite(), positionId,
            CompensateHardStop(leg), leg);
        StartedBefore(start, mid, exchange.Trail(), venue, 2, outcome);
      }
    }
  }

  /** The first probe since `before` is of the venue. */
  predicate LooksAt(before: seq<Look>, after: seq<Look>, venue: Venue) {
    before <= after && |before| < |after| && after[|before|].venue == venue
  }

  /** A probe before a step belongs to it. */
  lemma StartedBefore(a: Trail, b: Trail, c: Trail, venue: Venue, most: nat, outcome: CompensationOutcome)
    requires Looks(a, b) && Step(b, c, venue, most, outcome)
    ensures Step(a, c, venue, most, outcome)
  {
    Looking(a, b, venue, false);
    NothingJoins(outcome, NO_OUTCOME);
    assert outcome == outcome.(flat := outcome.flat);
    StepsCompose(a, b, c, venue, 0, most, NO_OUTCOME, outcome, outcome);
  }

  // ---------------------------------------------------------------------------------------------
  // One venue, then both
  // ---------------------------------------------------------------------------------------------

  datatype LegKey = LegKey(orderId: Id, clientOrderId: Id, quantity: real, filledAt: int)

  function KeyOf(leg: CloseLeg): LegKey {
    LegKey(leg.fill.orderId, leg.RecordedClientOrderId(), leg.fill.quantity, leg.fill.filledAt)
  }

  function Keys(legs: seq<CloseLeg>): set<LegKey> {
    set leg | leg in legs :: KeyOf(leg)
  }

  lemma AddedKey(legs: seq<CloseLeg>, leg: CloseLeg)
    ensures Keys(legs + [leg]) == Keys(legs) + {KeyOf(leg)}
  {
    assert forall l :: l in legs + [leg] <==> l in legs || l == leg;
  }

  /** Appends the legs whose key is new. */
  function RetainLegs(legs: seq<CloseLeg>, more: seq<CloseLeg>): seq<CloseLeg> {
    if more == [] then legs
    else
      var last := more[|more| - 1];
      var r := RetainLegs(legs, more[..|more| - 1]);
      if KeyOf(last) in Keys(r) then r else r + [last]
  }

  /** No leg and no key is lost, and every key is appended at most once. */
  lemma {:induction false} RetainedOncePerKey(legs: seq<CloseLeg>, more: seq<CloseLeg>)
    ensures var r := RetainLegs(legs, more);
            && legs <= r && Keys(r) == Keys(legs) + Keys(more)
            && (forall k :: |legs| <= k < |r| ==> r[k] in more)
            && (forall j, k :: 0 <= j < k < |r| && |legs| <= k ==> KeyOf(r[j]) != KeyOf(r[k]))
  {
    if more != [] {
      var init, last := more[..|more| - 1], more[|more| - 1];
      RetainedOncePerKey(legs, init);
      assert more == init + [last];
      AddedKey(init, last);
      AddedKey(RetainLegs(legs, init), last);
      assert forall j ::
        0 <= j < |RetainLegs(legs, init)| ==> KeyOf(RetainLegs(legs, init)[j]) in Keys(RetainLegs(legs, init));
    }
  }

  /** Retaining adds at most the quantity of the legs it is given. */
  lemma {:induction false} RetainedAtMostOnce(legs: seq<CloseLeg>, more: seq<CloseLeg>)
    requires NonNegative(more)
    ensures Sum(RetainLegs(legs, more), QTY) <= Sum(legs, QTY) + Sum(more, QTY)
  {
    if more != [] {
      var init, last := more[..|more| - 1], more[|more| - 1];
      assert last in more;
      assert forall leg :: leg in init ==> leg in more;
      RetainedAtMostOnce(legs, init);
      var r := RetainLegs(legs, init);
      assert (r + [last])[..|r + [last]| - 1] == r;
    }
  }

  /** What is retained came of orders like all of it. */
  lemma {:induction false} RetainedOrigins(before: Trail, after: Trail, legs: seq<CloseLeg>, more: seq<CloseLeg>,
      origins: seq<nat>) returns (kept: seq<nat>)
    requires OriginsOf(before, after, more, origins)
    ensures legs <= RetainLegs(legs, more)
    ensures OriginsOf(before, after, RetainLegs(legs, more)[|legs|..], kept)
    ensures kept != [] ==> more != [] && kept[|kept| - 1] <= origins[|more| - 1]
    decreases |more|
  {
    kept := [];
    if more != [] {
      var init, last := more[..|more| - 1], more[|more| - 1];
      var r := RetainLegs(legs, init);
      kept := RetainedOrigins(before, after, legs, init, origins[..|more| - 1]);
      if KeyOf(last) !in Keys(r) {
        kept := kept + [origins[|more| - 1]];
        assert (r + [last])[|legs|..] == r[|legs|..] + [last];
      }
    }
  }

  lemma RetainedTraced(before: Trail, after: Trail, legs: seq<CloseLeg>, more: seq<CloseLeg>)
    requires Traced(before, after, more)
    ensures legs <= RetainLegs(legs, more) && Traced(before, after, RetainLegs(legs, more)[|legs|..])
  {
    var origins :| OriginsOf(before, after, more, origins);
    var kept := RetainedOrigins(before, after, legs, more, origins);
  }

  /** The quantity added to the record of a leg was acknowledged or found on the venue meanwhile. */
  ghost predicate Backs(before: Trail, after: Trail, venue: Venue, view: LegView, view': LegView) {
    Sum(view'.legs, QTY) - Sum(view.legs, QTY) <= Credit(after, venue) - Credit(before, venue)
  }

  /** What is on record for the legs that trade on the venue. */
  function OnVenue(facts: PositionFacts, v: Venue, short: LegView, long: LegView): real {
    (if v == facts.shortVenue then Sum(short.legs, QTY) else 0.0) + (if v == facts.longVenue then Sum(long.legs, QTY)
    else 0.0)
  }

  /** The record of a leg only grows, by what happened since `before`, and by no negative fill; new identities put it
      in doubt. */
  ghost predicate ViewAdds(before: Trail, after: Trail, view: LegView, view': LegView) {
    && Adds(before, after, view.legs, view'.legs, view.identities, view'.identities)
    && (forall k :: |view.legs| <= k < |view'.legs| ==> view'.legs[k].fill.quantity >= 0.0)
    && (view'.inDoubt <==> view.inDoubt || view'.identities != [])
  }

  /** The record has every fill the venue reported, and every unresolved order sent to it, since `start`. */
  ghost predicate Keeps(start: Trail, now: Trail, venue: Venue, view: LegView) {
    && KeptFrom(now.placements, |start.placements|, venue, view.identities)
    && BookedFrom(now.placements, |start.placements|, venue, view.legs)
    && BookedReconcilesFrom(now.reconciles, |start.reconciles|, venue, view.legs)
  }

  /** The record gained all that the venue reported since `start`, and only that. */
  ghost predicate Gains(start: Trail, now: Trail, venue: Venue, view: LegView, view': LegView) {
    Keeps(start, now, venue, view') && ViewAdds(start, now, view, view') && Backs(start, now, venue, view, view')
  }

  lemma RetainedKeys(all: seq<CloseLeg>, some: seq<CloseLeg>)
    requires Keys(some) <= Keys(all)
    ensures Includes(all, some)
  {
    forall leg | leg in some
      ensures Booked(all, leg.fill)
    {
      assert KeyOf(leg) in Keys(all);
    }
  }

  /** The record of a leg once it retained an outcome. */
  function Retaining(view: LegView, outcome: CompensationOutcome): LegView {
    var identities := RememberAll(view.identities, outcome.identities);
    LegView(RetainLegs(view.legs, outcome.legs), identities, view.inDoubt || identities != [])
  }

  lemma RetainedGains(start: Trail, now: Trail, venue: Venue, most: nat, view: LegView, outcome: CompensationOutcome)
    requires Positive(outcome) && Step(start, now, venue, most, outcome)
    ensures Gains(start, now, venue, view, Retaining(view, outcome))
    ensures Keys(Retaining(view, outcome).legs) == Keys(view.legs) + Keys(outcome.legs)
  {
    RetainedAtMostOnce(view.legs, outcome.legs);
    RetainedOncePerKey(view.legs, outcome.legs);
    RetainedTraced(start, now, view.legs, outcome.legs);
    RetainedKeeps(start, now, venue, view, outcome);
  }

  lemma RetainedKeeps(start: Trail, now: Trail, venue: Venue, view: LegView, outcome: CompensationOutcome)
    requires Evidence(start, now, venue, outcome.legs, outcome.identities)
    requires CompensatesFrom(now.placements, |start.placements|)
    ensures Keeps(start, now, venue, Retaining(view, outcome))
  {
    var all := RetainLegs(view.legs, outcome.legs);
    RetainedOncePerKey(view.legs, outcome.legs);
    RetainedKeys(all, outcome.legs);
    BookedInMore(all, outcome.legs);
    KnownByClientId(now.placements, |start.placements|);
  }

  method RetainOutcome(ledger: LegLedger, outcome: CompensationOutcome, ghost start: Trail, ghost now: Trail,
      ghost venue: Venue, ghost most: nat)
    requires Positive(outcome) && Step(start, now, venue, most, outcome)
    modifies ledger`legs, ledger`identities
    ensures Gains(start, now, venue, old(ledger.View()), ledger.View())
    ensures Keys(ledger.legs) == old(Keys(ledger.legs)) + Keys(outcome.legs)
  {
    RetainedGains(start, now, venue, most, ledger.View(), outcome);
    ledger.legs := RetainLegs(ledger.legs, outcome.legs);
    ledger.identities := RememberAll(ledger.identities, outcome.identities);
  }

  function Objects(state: EngineState?): set<EngineState> {
    if state == null then {} else {state}
  }

  /** Flattens what is live on one venue. Not ok means exposure is or may be left: the engine fails closed.
      With the position known, it gives up only after three orders, the first for all that was live. */
  method CompensateVenue(exchange: Venues, state: EngineState?, journal: Journal, positionId: string,
      venue: Venue, leg: LegLabel, ledger: LegLedger)
    returns (ok: bool)
    modifies exchange, journal, ledger`legs, ledger`identities, Objects(state)`failClosed
    ensures Trades(old(exchange.Trail()), exchange.Trail(), venue, 8)
    ensures Gains(old(exchange.Trail()), exchange.Trail(), venue, old(ledger.View()), ledger.View())
    ensures ok && venue in exchange.adapters ==> SoundClaim(old(exchange.Trail()), exchange.Trail(), venue, true)
    ensures CompensatedAsSeen(old(exchange.Trail()), exchange.Trail(), exchange.adapters, venue, positionId, leg, ok)
    ensures ok ==>
        journal.events == old(journal.events) && (state != null ==> state.failClosed == old(state.failClosed))
    ensures !ok ==>
        journal.events == old(journal.events) + [CompensationFailed(venue)] && (state != null ==> state.failClosed)
  {
    ghost var start := exchange.Trail();
    if venue !in exchange.adapters {
      GainsNothing(start, start, venue, ledger.View());
      return true;
    }
    ok := CompensateReachable(exchange, positionId, venue, leg, ledger);
    if !ok {
      FailClosed(state, journal, venue);
    }
  }

  /** The same for a venue with an adapter, but for failing closed. */
  method CompensateReachable(exchange: Venues, positionId: string, venue: Venue, leg: LegLabel, ledger: LegLedger)
    returns (ok: bool)
    requires venue in exchange.adapters
    modifies exchange, ledger`legs, ledger`identities
    ensures Trades(old(exchange.Trail()), exchange.Trail(), venue, 8)
    ensures Gains(old(exchange.Trail()), exchange.Trail(), venue, old(ledger.View()), ledger.View())
    ensures ok ==> SoundClaim(old(exchange.Trail()), exchange.Trail(), venue, true)
    ensures CompensatedAsSeen(old(exchange.Trail()), exchange.Trail(), exchange.adapters, venue, positionId, leg, ok)
  {
    ghost var start := exchange.Trail();
    var probe := exchange.FetchPosition(venue, Compensating);
    assert exchange.looks[|start.looks|] == Look(Compensating, venue, probe);
    ok := probe.Flat();
    if probe.Snapshot? && !ok {
      ok := FlattenExposure(exchange, positionId, venue, leg, ledger, Abs(probe.quantity), probe.side.Opposite(),
          start);
    } else {
      GainsNothing(start, exchange.Trail(), venue, ledger.View());
    }
  }

  lemma GainsNothing(start: Trail, now: Trail, venue: Venue, view: LegView)
    requires Looks(start, now) && (view.identities != [] ==> view.inDoubt)
    ensures Trades(start, now, venue, 8) && Gains(start, now, venue, view, view)
  {
    NothingAdded(start, now, view);
    ConservesWithoutOrders(start, now);
  }

  /** What the first probe of a compensation obliges it to: nothing to do when flat, fail when the position is not
      known; else an order for all that is live, and to give up only after three. No client id is used twice. */
  predicate CompensatedAsSeen(before: Trail, now: Trail, adapters: set<Venue>, venue: Venue, positionId: string,
      leg: LegLabel, ok: bool) {
    && Ranked(now.placements, |before.placements|, positionId, leg, 2, 10)
    && if venue !in adapters then ok && now.placements == before.placements
    else
      && LooksAt(before.looks, now.looks, venue)
      && var probe := now.looks[|before.looks|].probe;
         && (probe.Flat() ==> ok && now.placements == before.placements)
         && (probe.ProbeFailed? ==> !ok && now.placements == before.placements)
         && (probe.Snapshot? && !probe.Flat() ==>
               && Sends(before.placements, now.placements,
                   FirstFlatten(venue, Abs(probe.quantity), probe.side.Opposite(), positionId, leg))
               && (!ok ==> |now.placements| >= |before.placements| + MAX_EMERGENCY_FLATTEN_ATTEMPTS))
  }

  /** A compensation of the venue gave up for a reason: a probe failed, or three orders did not flatten it. */
  predicate GaveUpOn(before: Trail, now: Trail, venue: Venue) {
    || (exists k :: |before.looks| <= k < |now.looks| && now.looks[k].venue == venue && now.looks[k].probe.ProbeFailed?)
    || Orders(now.placements, venue) >= Orders(before.placements, venue) + MAX_EMERGENCY_FLATTEN_ATTEMPTS
  }

  lemma {:induction false} OrdersToOneVenue(before: seq<Placement>, now: seq<Placement>, venue: Venue)
    requires before <= now && SentTo(now, |before|, venue)
    ensures Orders(now, venue) == Orders(before, venue) + |now| - |before|
    decreases |now|
  {
    if |now| == |before| {
      assert now == before;
    } else {
      OrdersToOneVenue(before, now[..|now| - 1], venue);
    }
  }

  lemma FailedForAReason(before: Trail, now: Trail, adapters: set<Venue>, venue: Venue, positionId: string,
      leg: LegLabel, most: nat)
    requires Trades(before, now, venue, most) && CompensatedAsSeen(before, now, adapters, venue, positionId, leg, false)
    ensures venue in adapters && GaveUpOn(before, now, venue)
  {
    OrdersToOneVenue(before.placements, now.placements, venue);
    assert now.looks[|before.looks|].venue == venue;
  }

  /** Flattens a position that was just seen, and keeps what that produced. */
  method FlattenExposure(exchange: Venues, positionId: string, venue: Venue, leg: LegLabel, ledger: LegLedger,
      quantity: real, side: Side, ghost start: Trail)
    returns (ok: bool)
    requires venue in exchange.adapters
    requires Abs(Live(exchange.book, venue)) <= quantity && Reduces(side, Live(exchange.book, venue))
    requires Looks(start, exchange.Trail())
    modifies exchange, ledger`legs, ledger`identities
    ensures Trades(start, exchange.Trail(), venue, 8)
    ensures Gains(start, exchange.Trail(), venue, old(ledger.View()), ledger.View())
    ensures Ranked(exchange.placements, |start.placements|, positionId, leg, 2, 10)
    ensures ok ==> SoundClaim(start, exchange.Trail(), venue, true)
    ensures old(exchange.looks) <= exchange.looks
    ensures Sends(old(exchange.placements), exchange.placements, FirstFlatten(venue, quantity, side, positionId, leg))
    ensures !ok ==> |exchange.placements| >= |old(exchange.placements)| + MAX_EMERGENCY_FLATTEN_ATTEMPTS
  {
    ghost var probed := exchange.Trail();
    var outcome := FlattenInTwoTiers(exchange, venue, quantity, side, positionId, leg);
    StartedBefore(start, probed, exchange.Trail(), venue, 8, outcome);
    RetainOutcome(ledger, outcome, start, exchange.Trail(), venue, 8);
    ok := outcome.flat;
  }

  /** Both tiers: the second only if the first leaves exposure. */
  method FlattenInTwoTiers(exchange: Venues, venue: Venue, quantity: real, side: Side, positionId: string,
      leg: LegLabel)
    returns (outcome: CompensationOutcome)
    requires Abs(Live(exchange.book, venue)) <= quantity && Reduces(side, Live(exchange.book, venue))
        && venue in exchange.adapters
    modifies exchange
    ensures Step(old(exchange.Trail()), exchange.Trail(), venue, 8, outcome) && Positive(outcome)
    ensures Ranked(exchange.placements, |old(exchange.placements)|, positionId, leg, 2, 10)
    ensures Sends(old(exchange.placements), exchange.placements, FirstFlatten(venue, quantity, side, positionId, leg))
    ensures !outcome.flat ==> |exchange.placements| >= |old(exchange.placements)| + MAX_EMERGENCY_FLATTEN_ATTEMPTS
  {
    ghost var start := exchange.Trail();
    outcome := FlattenCloseLegWithRetries(exchange, venue, quantity, side, positionId, leg);
    if outcome.flat {
      MoreIsAllowed(start, exchange.Trail(), venue, 6, 8, outcome);
    } else {
      ghost var mid := exchange.placements;
      outcome := SecondTier(exchange, venue, positionId, leg, outcome, start);
      RanksCompose(start.placements, mid, exchange.placements, positionId, leg, 2, 8, 10);
    }
  }

  method FailClosed(state: EngineState?, journal: Journal, venue: Venue)
    modifies journal, Objects(state)`failClosed
    ensures journal.events == old(journal.events) + [CompensationFailed(venue)]
    ensures state != null ==> state.failClosed
  {
    if state != null {
      state.failClosed := true;
    }
    journal.Append(CompensationFailed(venue));
  }

  /** The hard stop, and a last probe before exposure is declared residual. */
  method SecondTier(exchange: Venues, venue: Venue, positionId: string, leg: LegLabel, outcome: CompensationOutcome,
      ghost start: Trail)
    returns (after: CompensationOutcome)
    requires Step(start, exchange.Trail(), venue, 6, outcome) && Positive(outcome)
    modifies exchange
    ensures Step(start, exchange.Trail(), venue, 8, after) && Positive(after)
    ensures old(exchange.placements) <= exchange.placements
    ensures Ranked(exchange.placements, |old(exchange.placements)|, positionId, leg, 8, 10)
  {
    ghost var before := exchange.Trail();
    var hardStop := HardStopCloseLeg(exchange, venue, positionId, leg);
    after := Merge(outcome, hardStop);
    StepsMerge(start, before, exchange.Trail(), venue, 6, 2, outcome, hardStop);
    if !after.flat {
      after := VerifyFlat(exchange, venue, after, start, 8);
    }
  }

  /** Everything a compensation guarantees, whatever the venues answer. */
  ghost predicate CompensationSafe(before: Trail, after: Trail, shortVenue: Venue, longVenue: Venue) {
    && Extends(before, after) && Conserves(before, after)
    && CompensatesFrom(after.placements, |before.placements|)
    && (forall k :: |before.placements| <= k < |after.placements| ==>
          after.placements[k].request.venue == shortVenue || after.placements[k].request.venue == longVenue)
    && (forall k :: |before.reconciles| <= k < |after.reconciles| ==>
          && after.reconciles[k].phase == Compensating && Asks(after, k)
          && (after.reconciles[k].venue == shortVenue || after.reconciles[k].venue == longVenue))
    && LookedFrom(after.looks, |before.looks|)
    && (forall v ::
      Orders(after.placements, v) <= Orders(before.placements, v) + OrdersAllowed(v, shortVenue, longVenue))
  }

  /** At most eight orders per compensated leg. */
  function OrdersAllowed(v: Venue, shortVenue: Venue, longVenue: Venue): nat {
    (if v == shortVenue then 8 else 0) + (if v == longVenue then 8 else 0)
  }

  /** What a compensation comes to. Ok means every reachable venue is flat, on current evidence; not ok, that it
      gave up on one for a reason. */
  ghost predicate CompensatedFully(before: Trail, after: Trail, adapters: set<Venue>, facts: PositionFacts,
      short: LegView, short': LegView, long: LegView, long': LegView, ok: bool)
  {
    && CompensationSafe(before, after, facts.shortVenue, facts.longVenue)
    && Keeps(before, after, facts.shortVenue, short')
    && (facts.longVenue != facts.shortVenue ==> Keeps(before, after, facts.longVenue, long'))
    && ViewAdds(before, after, short, short') && ViewAdds(before, after, long, long')
    && (forall v ::
      OnVenue(facts, v, short', long') - OnVenue(facts, v, short, long) <= Credit(after, v) - Credit(before, v))
    && (ok && FreshFrom(after.reconciles, |before.reconciles|) ==>
          forall v :: v in adapters && v in {facts.shortVenue, facts.longVenue} ==> FlatAt(after.book, v))
    && (!ok ==> exists v :: v in adapters && v in {facts.shortVenue, facts.longVenue} && GaveUpOn(before, after, v))
    && NamedOnce(after.placements, |before.placements|)
  }

  /** The orders from index n on carry client ids of a compensation, and no two the same. */
  predicate NamedOnce(placements: seq<Placement>, n: nat) {
    && (forall k :: n <= k < |placements| ==> OfCompensation(placements[k].request.clientOrderId))
    && (forall j, k :: n <= j < k < |placements| ==>
          placements[j].request.clientOrderId != placements[k].request.clientOrderId)
  }

  predicate OfCompensation(id: Id) {
    id.ClientOrderId? && (Flattens(id.stage, ShortLeg) || Flattens(id.stage, LongLeg))
  }

  lemma {:induction false} FlattensOneLeg(stage: Stage)
    ensures !(Flattens(stage, ShortLeg) && Flattens(stage, LongLeg))
  {
    match stage
    case DuplicateRetry(of) => FlattensOneLeg(of);
    case _ =>
  }

  lemma NamedOncePerLeg(a: seq<Placement>, b: seq<Placement>, c: seq<Placement>, positionId: string)
    requires a <= b <= c
    requires Ranked(b, |a|, positionId, ShortLeg, 2, 10) && Ranked(c, |b|, positionId, LongLeg, 2, 10)
    ensures NamedOnce(c, |a|)
  {
    assert forall k :: 0 <= k < |b| ==> c[k] == b[k];
    forall j, k | |a| <= j < k < |c|
      ensures c[j].request.clientOrderId != c[k].request.clientOrderId
    {
      if j < |b| <= k {
        FlattensOneLeg(c[j].request.clientOrderId.stage);
      }
    }
  }

  /** compensate_failed_full_close: the short venue, then the long venue. */
  method CompensateFailedFullClose(exchange: Venues, state: EngineState?, journal: Journal, facts: PositionFacts,
      shortLedger: LegLedger, longLedger: LegLedger)
    returns (ok: bool)
    requires shortLedger != longLedger
    modifies exchange, journal, shortLedger`legs, shortLedger`identities, longLedger`legs, longLedger`identities,
      Objects(state)`failClosed
    ensures CompensatedFully(old(exchange.Trail()), exchange.Trail(), exchange.adapters, facts,
              old(shortLedger.View()), shortLedger.View(), old(longLedger.View()), longLedger.View(), ok)
    ensures ok ==>
        journal.events == old(journal.events) && (state != null ==> state.failClosed == old(state.failClosed))
    ensures !ok && state != null ==> state.failClosed
    ensures !ok ==> (journal.events == old(journal.events) + [CompensationFailed(facts.shortVenue)]
                     || journal.events == old(journal.events) + [CompensationFailed(facts.longVenue)])
  {
    ghost var t0 := exchange.Trail();
    ok := CompensateVenue(exchange, state, journal, facts.positionId, facts.shortVenue, ShortLeg, shortLedger);
    ghost var t1 := exchange.Trail();
    if !ok {
      FirstVenueFailed(t0, t1, exchange.adapters, facts, old(shortLedger.View()), shortLedger.View(),
          longLedger.View());
      return;
    }
    ok := CompensateSecond(exchange, state, journal, facts, shortLedger, longLedger, t0, old(shortLedger.View()));
  }

  /** The long venue, once the short venue is done. */
  method CompensateSecond(exchange: Venues, state: EngineState?, journal: Journal, facts: PositionFacts,
      shortLedger: LegLedger, longLedger: LegLedger, ghost t0: Trail, ghost short0: LegView)
    returns (ok: bool)
    requires shortLedger != longLedger
    requires Trades(t0, exchange.Trail(), facts.shortVenue, 8)
    requires Gains(t0, exchange.Trail(), facts.shortVenue, short0, shortLedger.View())
    requires Ranked(exchange.placements, |t0.placements|, facts.positionId, ShortLeg, 2, 10)
    requires facts.shortVenue in exchange.adapters ==> SoundClaim(t0, exchange.Trail(), facts.shortVenue, true)
    modifies exchange, journal, shortLedger`legs, shortLedger`identities, longLedger`legs, longLedger`identities,
      Objects(state)`failClosed
    ensures CompensatedFully(t0, exchange.Trail(), exchange.adapters, facts,
              short0, shortLedger.View(), old(longLedger.View()), longLedger.View(), ok)
    ensures ok ==>
        journal.events == old(journal.events) && (state != null ==> state.failClosed == old(state.failClosed))
    ensures !ok ==>
        journal.events == old(journal.events) + [CompensationFailed(facts.longVenue)]
          && (state != null ==> state.failClosed)
  {
    ghost var t1, short, long := exchange.Trail(), shortLedger.View(), longLedger.View();
    var second := if facts.longVenue == facts.shortVenue then shortLedger else longLedger;
    ok := CompensateVenue(exchange, state, journal, facts.positionId, facts.longVenue, LongLeg, second);
    BothVenuesDone(t0, t1, exchange.Trail(), exchange.adapters, facts, short0, short, shortLedger.View(),
      long, long, longLedger.View(), ok);
  }

  lemma NothingAdded(before: Trail, after: Trail, view: LegView)
    requires view.identities != [] ==> view.inDoubt
    ensures ViewAdds(before, after, view, view)
  {
    TracedNothing(before, after);
    assert view.legs[|view.legs|..] == [];
  }

  /** The first venue was given up: the second was not touched. */
  lemma FirstVenueFailed(t0: Trail, t1: Trail, adapters: set<Venue>, facts: PositionFacts, short: LegView,
      short': LegView, long: LegView)
    requires Trades(t0, t1, facts.shortVenue, 8) && Gains(t0, t1, facts.shortVenue, short, short')
    requires CompensatedAsSeen(t0, t1, adapters, facts.shortVenue, facts.positionId, ShortLeg, false)
    requires long.identities != [] ==> long.inDoubt
    ensures CompensatedFully(t0, t1, adapters, facts, short, short', long, long, false)
  {
    CreditGrows(t0, t1);
    FailedForAReason(t0, t1, adapters, facts.shortVenue, facts.positionId, ShortLeg, 8);
    NothingAdded(t0, t1, long);
    NamedOncePerLeg(t0.placements, t1.placements, t1.placements, facts.positionId);
  }

  lemma BothVenuesDone(t0: Trail, t1: Trail, t2: Trail, adapters: set<Venue>, facts: PositionFacts,
      short0: LegView, short1: LegView, short2: LegView, long0: LegView, long1: LegView, long2: LegView, ok: bool)
    requires Trades(t0, t1, facts.shortVenue, 8) && Trades(t1, t2, facts.longVenue, 8)
    requires Gains(t0, t1, facts.shortVenue, short0, short1)
    requires Ranked(t1.placements, |t0.placements|, facts.positionId, ShortLeg, 2, 10)
    requires long1 == long0 && (long0.identities != [] ==> long0.inDoubt)
    requires facts.shortVenue in adapters ==> SoundClaim(t0, t1, facts.shortVenue, true)
    requires CompensatedAsSeen(t1, t2, adapters, facts.longVenue, facts.positionId, LongLeg, ok)
    requires ok && facts.longVenue in adapters ==> SoundClaim(t1, t2, facts.longVenue, true)
    requires if facts.longVenue == facts.shortVenue
             then Gains(t1, t2, facts.longVenue, short1, short2) && long2 == long1
             else Gains(t1, t2, facts.longVenue, long1, long2) && short2 == short1
    ensures CompensatedFully(t0, t2, adapters, facts, short0, short2, long0, long2, ok)
  {
    NamedOncePerLeg(t0.placements, t1.placements, t2.placements, facts.positionId);
    BothBacked(t0, t1, t2, facts, short0, short1, short2, long1, long2);
    SecondVenueStep(t0, t1, t2, facts, short1, if facts.longVenue == facts.shortVenue then short2 else long2);
    NothingAdded(t0, t1, long0);
    NothingAdded(t1, t2, short1);
    NothingAdded(t1, t2, long1);
    ViewAddsCompose(t0, t1, t2, short0, short1, short2);
    ViewAddsCompose(t0, t1, t2, long0, long1, long2);
    if !ok {
      FailedForAReason(t1, t2, adapters, facts.longVenue, facts.positionId, LongLeg, 8);
      GaveUpEarlier(t0, t1, t2, facts.longVenue);
    }
  }

  lemma BothBacked(t0: Trail, t1: Trail, t2: Trail, facts: PositionFacts,
      short0: LegView, short1: LegView, short2: LegView, long1: LegView, long2: LegView)
    requires Extends(t0, t1) && Extends(t1, t2) && Backs(t0, t1, facts.shortVenue, short0, short1)
    requires if facts.longVenue == facts.shortVenue
             then long2 == long1 && Backs(t1, t2, facts.longVenue, short1, short2)
             else short2 == short1 && Backs(t1, t2, facts.longVenue, long1, long2)
    ensures forall v ::
        OnVenue(facts, v, short2, long2) - OnVenue(facts, v, short0, long1) <= Credit(t2, v) - Credit(t0, v)
  {
    CreditGrows(t0, t1);
    CreditGrows(t1, t2);
  }

  lemma ViewAddsCompose(a: Trail, b: Trail, c: Trail, view0: LegView, view1: LegView, view2: LegView)
    requires Extends(a, b) && Extends(b, c) && ViewAdds(a, b, view0, view1) && ViewAdds(b, c, view1, view2)
    ensures ViewAdds(a, c, view0, view2)
  {
    AddsCompose(a, b, c, view0.legs, view1.legs, view2.legs, view0.identities, view1.identities, view2.identities);
  }

  lemma GaveUpEarlier(a: Trail, b: Trail, c: Trail, venue: Venue)
    requires Extends(a, b) && Extends(b, c) && GaveUpOn(b, c, venue)
    ensures GaveUpOn(a, c, venue)
  {
    OrdersGrow(a.placements, b.placements, venue);
  }

  lemma {:induction false} OrdersGrow(before: seq<Placement>, now: seq<Placement>, venue: Venue)
    requires before <= now
    ensures Orders(before, venue) <= Orders(now, venue)
    decreases |now|
  {
    if |now| == |before| {
      assert now == before;
    } else {
      OrdersGrow(before, now[..|now| - 1], venue);
    }
  }

  /** Work on the second venue undoes nothing on the first. */
  lemma SecondVenueStep(t0: Trail, t1: Trail, t2: Trail, facts: PositionFacts, first: LegView, second: LegView)
    requires Trades(t0, t1, facts.shortVenue, 8) && Trades(t1, t2, facts.longVenue, 8)
    requires Keeps(t0, t1, facts.shortVenue, first) && Keeps(t1, t2, facts.longVenue, second)
    requires facts.longVenue == facts.shortVenue ==> first.identities <= second.identities && first.legs <= second.legs
    ensures CompensationSafe(t0, t2, facts.shortVenue, facts.longVenue)
    ensures facts.longVenue != facts.shortVenue ==>
              Keeps(t0, t2, facts.shortVenue, first) && Keeps(t0, t2, facts.longVenue, second)
    ensures facts.longVenue == facts.shortVenue ==> Keeps(t0, t2, facts.shortVenue, second)
    ensures SoundClaim(t0, t1, facts.shortVenue, true) ==> SoundClaim(t0, t2, facts.shortVenue, true)
    ensures SoundClaim(t1, t2, facts.longVenue, true) ==> SoundClaim(t0, t2, facts.longVenue, true)
  {
    ClaimsCompose(t0, t1, t2, facts.shortVenue);
    ClaimsCompose(t0, t1, t2, facts.longVenue);
    BothSafe(t0, t1, t2, facts);
    if facts.longVenue == facts.shortVenue {
      KeepsBoth(t0, t1, t2, facts.shortVenue, first, second);
    } else {
      KeepsFirst(t0, t1, t2, facts, first, second);
    }
  }

  lemma BothSafe(t0: Trail, t1: Trail, t2: Trail, facts: PositionFacts)
    requires Trades(t0, t1, facts.shortVenue, 8) && Trades(t1, t2, facts.longVenue, 8)
    ensures CompensationSafe(t0, t2, facts.shortVenue, facts.longVenue)
  {
    ExtendsCompose(t0, t1, t2);
    ConservesCompose(t0, t1, t2);
    SubmittedCompose(t0.placements, t1.placements, t2.placements, facts.longVenue);
    ReconciledStays(t0, t1, t2, facts.shortVenue);
    assert forall k :: 0 <= k < |t1.placements| ==> t1.placements[k] == t2.placements[k];
    assert forall k :: 0 <= k < |t1.looks| ==> t1.looks[k] == t2.looks[k];
  }

  lemma KeepsFirst(t0: Trail, t1: Trail, t2: Trail, facts: PositionFacts, first: LegView, second: LegView)
    requires Trades(t0, t1, facts.shortVenue, 8) && Trades(t1, t2, facts.longVenue, 8)
    requires Keeps(t0, t1, facts.shortVenue, first) && Keeps(t1, t2, facts.longVenue, second)
    requires facts.longVenue != facts.shortVenue
    ensures Keeps(t0, t2, facts.shortVenue, first) && Keeps(t0, t2, facts.longVenue, second)
  {
    assert forall k :: 0 <= k < |t1.placements| ==> t1.placements[k] == t2.placements[k];
    assert forall k :: 0 <= k < |t1.reconciles| ==> t1.reconciles[k] == t2.reconciles[k];
  }

  lemma KeepsBoth(t0: Trail, t1: Trail, t2: Trail, venue: Venue, first: LegView, second: LegView)
    requires Extends(t0, t1) && Extends(t1, t2) && Keeps(t0, t1, venue, first) && Keeps(t1, t2, venue, second)
    requires first.identities <= second.identities && first.legs <= second.legs
    ensures Keeps(t0, t2, venue, second)
  {
    assert forall k :: 0 <= k < |t1.placements| ==> t1.placements[k] == t2.placements[k];
    assert forall k :: 0 <= k < |t1.reconciles| ==> t1.reconciles[k] == t2.reconciles[k];
    assert Includes(second.legs, first.legs);
    BookedInMore(second.legs, first.legs);
  }
}
