/** The trading venues as the engine sees them, and the reconciliation of a rejected duplicate client id.
    Every call to a venue may answer anything its contract allows, so a theorem about a caller
    holds for every behaviour of the venues. */
module Exchange {
  import opened Domain

  datatype SubmitKind = RejectedOrder | UncertainOrder | OtherFailure

  /** What the text of a rejection says, as the string classifiers of the engine report it. */
  datatype RejectReason = RejectReason(
    duplicate: bool,
    emptyPosition: bool,
    orderNotFound: bool,
    pendingConflict: bool,
    terminalReduceOnly: bool)

  datatype SubmitError = SubmitError(
    kind: SubmitKind,
    acceptedOrderId: Id,
    acceptedClientOrderId: Id,
    reason: RejectReason)

  datatype PlaceResult = Ack(fill: OrderFill) | Failed(error: SubmitError)

  /** The answer of a position probe. A failure is an exception, whose text may be empty. */
  datatype Probe = NoPosition | Snapshot(side: Side, quantity: real) | ProbeFailed(hasText: bool)
  {
    predicate Flat() {
      NoPosition? || (Snapshot? && Abs(quantity) <= FLAT_EPS)
    }
  }

  /** Who submits an order: the close itself, or the compensation of a failed close. */
  datatype Phase = Closing | Compensating

  /** An order and its answer; when it was sent: the position the venue held, and how many probes and
      reconciliations there had been. */
  datatype Placement = Placement(phase: Phase, request: OrderRequest, result: PlaceResult, live: real, looks: nat,
      settled: nat)

  /** A probe, who made it, and its answer. */
  datatype Look = Look(phase: Phase, venue: Venue, probe: Probe)

  // ---------------------------------------------------------------------------------------------
  // Live positions
  // ---------------------------------------------------------------------------------------------

  type Book = map<Venue, real>

  /** The signed position a venue holds: positive is long. */
  function Live(book: Book, venue: Venue): real {
    if venue in book then book[venue] else 0.0
  }

  /** a lies between zero and b: no growth, no change of sign. */
  predicate Closer(a: real, b: real) {
    if b >= 0.0 then 0.0 <= a <= b else b <= a <= 0.0
  }

  predicate AllCloser(now: Book, before: Book) {
    forall v: Venue :: Closer(Live(now, v), Live(before, v))
  }

  /** An order on this side brings the position towards zero. */
  predicate Reduces(side: Side, live: real) {
    (live > 0.0 ==> side == Sell) && (live < 0.0 ==> side == Buy)
  }

  predicate FlatAt(book: Book, venue: Venue) {
    Abs(Live(book, venue)) <= FLAT_EPS
  }

  /** What a probe may answer when the venue holds the given position. */
  predicate Truthful(probe: Probe, live: real) {
    match probe
    case NoPosition => Abs(live) <= FLAT_EPS
    case Snapshot(side, quantity) =>
      quantity == Abs(live) && (live > 0.0 ==> side == Buy) && (live < 0.0 ==> side == Sell)
    case ProbeFailed(_) => true
  }

  // ---------------------------------------------------------------------------------------------
  // Duplicate client ids
  // ---------------------------------------------------------------------------------------------

  /** What the venue knows about the order behind a duplicate client id. */
  datatype FillLookup =
    | FoundFill(quantity: real, price: real, orderId: Id, clientOrderId: Id)
    | NoFill
    | LookupFailed

  datatype Classification = Full | StaleFullLiveNonzero | Partial | NoneFilled | UnknownTransient

  datatype Decision = ClearLiveFlat | RetryNewClientOrderId | BackoffRecheck

  datatype DuplicateResult = DuplicateResult(
    classification: Classification,
    decision: Decision,
    reconciledQty: real,
    liveQty: real,
    remainingQty: real,
    retryQty: real,
    orderId: Id,
    clientOrderId: Id,
    averagePrice: real)
  {
    predicate ClearState() {
      decision == ClearLiveFlat
    }

    predicate ShouldRetry() {
      decision == RetryNewClientOrderId && retryQty > FLAT_EPS
    }
  }

  function Filled(lookup: FillLookup): real {
    if lookup.FoundFill? then Max(lookup.quantity, 0.0) else 0.0
  }

  /** resolve_duplicate_conflict of the order truth ledger. The failure of a probe is known to it only
      through its text: an empty text reads as "no failure". */
  function ResolveDuplicate(target: real, clientOrderId: Id, lookup: FillLookup, probe: Probe): DuplicateResult {
    var reconciled := Filled(lookup);
    var goal := Max(target, 0.0);
    var remaining := Max(goal - reconciled, 0.0);
    var probeError := probe.ProbeFailed? && probe.hasText;
    var live := if probe.Snapshot? then Max(probe.quantity, 0.0) else 0.0;
    var full := reconciled >= Max(goal - FLAT_EPS, 0.0) && reconciled > 0.0;
    var (classification, decision, left) :=
      if full && probeError then (UnknownTransient, BackoffRecheck, remaining)
      else if full && live > FLAT_EPS then (StaleFullLiveNonzero, RetryNewClientOrderId, live)
      else if full then (Full, ClearLiveFlat, remaining)
      else if !probeError && live <= FLAT_EPS then
        ((if reconciled <= FLAT_EPS then NoneFilled else Partial), ClearLiveFlat, remaining)
      else if reconciled > FLAT_EPS then (Partial, RetryNewClientOrderId, remaining)
      else if lookup.LookupFailed? || probeError then (UnknownTransient, BackoffRecheck, remaining)
      else (NoneFilled, BackoffRecheck, remaining);
    var retry := if decision == RetryNewClientOrderId && live > FLAT_EPS then Min(left, live) else left;
    DuplicateResult(classification, decision, reconciled, live, left, retry,
      if lookup.FoundFill? then lookup.orderId else NoId,
      if lookup.FoundFill? then OrElse(lookup.clientOrderId, clientOrderId) else clientOrderId,
      if lookup.FoundFill? then Max(lookup.price, 0.0) else 0.0)
  }

  /** The exact meaning of "clear": the probe answered flat, or it failed without a text. */
  lemma ClearMeansSeenFlat(target: real, cid: Id, lookup: FillLookup, probe: Probe)
    requires probe.Snapshot? ==> probe.quantity >= 0.0
    ensures ResolveDuplicate(target, cid, lookup, probe).ClearState()
            <==> probe.Flat() || probe == ProbeFailed(false)
  {
  }

  /** So "clear" is sound for every truthful probe exactly when the probe is not a failure without a text:
      such a failure clears whatever the venue holds. */
  lemma ClearIsSoundExactly(target: real, cid: Id, lookup: FillLookup, probe: Probe)
    requires probe.Snapshot? ==> probe.quantity >= 0.0
    ensures (ResolveDuplicate(target, cid, lookup, probe).ClearState()
             ==> forall live: real :: Truthful(probe, live) ==> Abs(live) <= FLAT_EPS)
            <==> probe != ProbeFailed(false)
  {
    ClearMeansSeenFlat(target, cid, lookup, probe);
    if probe == ProbeFailed(false) {
      assert Truthful(probe, 1.0);
    }
  }

  /** A position of 5 is cleared as flat when the probe fails with an empty text. */
  lemma SilentProbeFailureClearsLivePosition()
    ensures Truthful(ProbeFailed(false), 5.0)
    ensures ResolveDuplicate(5.0, VenueId(1), NoFill, ProbeFailed(false)).ClearState()
  {
  }

  /** One reconciliation of a duplicate client id; the position the venue held when it was probed, and how many
      orders there had been. */
  datatype Reconcile = Reconcile(phase: Phase, venue: Venue, target: real, clientOrderId: Id, lookup: FillLookup,
      probe: Probe,
                                 live: real, orders: nat)
  {
    function Result(): DuplicateResult {
      ResolveDuplicate(target, clientOrderId, lookup, probe)
    }

    /** The evidence is current: a failed probe names its failure, and when a partly filled order is to be
        retried, a probe saw no more live than is left of the target. */
    predicate Fresh() {
      probe != ProbeFailed(false)
      && (Result().classification == Partial && Result().decision == RetryNewClientOrderId
          ==> probe.Snapshot? && probe.quantity <= Max(target, 0.0) - Result().reconciledQty)
    }
  }

  /** Every reconciliation of a compensation from index n on was made on current evidence. */
  predicate FreshFrom(reconciles: seq<Reconcile>, n: nat) {
    forall k :: n <= k < |reconciles| && reconciles[k].phase == Compensating ==> reconciles[k].Fresh()
  }

  /** Exactly the evidence on which the decision is right for every position a truthful probe allows: clear
      means flat, and the retry asks for all that is live. */
  lemma FreshExactly(r: Reconcile)
    requires r.probe.Snapshot? ==> r.probe.quantity >= 0.0
    ensures r.Fresh() <==>
            forall live: real :: Truthful(r.probe, live) ==>
              && (r.Result().ClearState() ==> Abs(live) <= FLAT_EPS)
              && (r.Result().ShouldRetry() ==> Abs(live) <= r.Result().retryQty)
  {
    ClearMeansSeenFlat(r.target, r.clientOrderId, r.lookup, r.probe);
    if r.probe == ProbeFailed(false) {
      assert Truthful(r.probe, 1.0);
    }
    if r.probe == ProbeFailed(true) {
      assert Truthful(r.probe, r.Result().retryQty + 1.0);
    }
    if r.probe.Snapshot? {
      var live := if r.probe.side == Buy then r.probe.quantity else -r.probe.quantity;
      assert Truthful(r.probe, live);
    }
  }

  /** A probe that fails with a text: 4 of the target 10 are found, 6 are asked for, and the position may be 10. */
  lemma BlindRetryLeavesExposure()
    ensures var r := Reconcile(Compensating, Bybit, 10.0, VenueId(1), FoundFill(4.0, 1.0, VenueId(2), VenueId(1)),
        ProbeFailed(true), 10.0, 0);
            Truthful(r.probe, r.live) && r.Result().ShouldRetry() && Abs(r.live) - r.Result().retryQty == 4.0
              && !r.Fresh()
  {
  }

  /** Filling the retry quantity flattens the position exactly when it was covered by what the retry asks for:
      always after a full fill, and after a partial one iff the position does not exceed target
      minus reconciled (up to the flat tolerance). */
  lemma RetryFlattensExactly(r: Reconcile)
    requires Truthful(r.probe, r.live)
    requires r.Result().ShouldRetry()
    ensures Abs(r.live) - r.Result().retryQty <= FLAT_EPS
            <==> r.Result().classification == StaleFullLiveNonzero
                 || Abs(r.live) <= Max(r.target, 0.0) - r.Result().reconciledQty + FLAT_EPS
  {
  }

  /** An order for 10 whose client id was used before for 4: the retry asks for 6, and 4 stay open. */
  lemma StalePartialRetryLeavesExposure()
    ensures var r := Reconcile(Compensating, Bybit, 10.0, VenueId(1), FoundFill(4.0, 1.0, VenueId(2), VenueId(1)),
        Snapshot(Buy, 10.0), 10.0, 0);
            Truthful(r.probe, r.live) && r.Result().ShouldRetry() && r.Result().retryQty == 6.0
            && Abs(r.live) - r.Result().retryQty > FLAT_EPS && !r.Fresh()
  {
  }

  // ---------------------------------------------------------------------------------------------
  // Submissions whose outcome is not known
  // ---------------------------------------------------------------------------------------------

  /** The venue may hold an execution of this order that the answer does not report. */
  predicate MayHaveExecuted(p: Placement) {
    match p.result
    case Ack(fill) => fill.quantity <= 0.0
    case Failed(error) => error.kind != RejectedOrder
  }

  /** What the engine treats as unresolved. A close keeps every failure that is not a rejection; a
      compensation keeps a failure that is uncertain or names an accepted order, and every empty fill. */
  predicate Uncertain(p: Placement) {
    match p.result
    case Ack(fill) => fill.quantity <= if p.phase == Closing then 0.0 else QTY_EPS
    case Failed(error) =>
      if p.phase == Closing then error.kind != RejectedOrder
      else error.acceptedOrderId != NoId || error.kind == UncertainOrder
  }

  /** The key under which the venue can be asked about the order. */
  function IdentityOf(p: Placement): Identity {
    match p.result
    case Ack(fill) => Identity(fill.orderId, OrElse(fill.clientOrderId, p.request.clientOrderId))
    case Failed(error) =>
      if p.phase == Closing && error.kind == OtherFailure then Identity(NoId, p.request.clientOrderId)
      else Identity(error.acceptedOrderId, OrElse(error.acceptedClientOrderId, p.request.clientOrderId))
  }

  /** The submissions that may have executed and are not kept: exactly the compensation orders whose
      adapter failed outside the submit error type and named no accepted order. */
  lemma ForgottenExactly(p: Placement)
    requires MayHaveExecuted(p)
    ensures Uncertain(p)
            <==> !(p.phase == Compensating && p.result.Failed? && p.result.error.kind == OtherFailure
                   && p.result.error.acceptedOrderId == NoId)
  {
  }

  /** Every unresolved order sent to the venue from index n on is known by its identity. */
  predicate KeptFrom(placements: seq<Placement>, n: nat, venue: Venue, identities: seq<Identity>) {
    forall k :: n <= k < |placements| && placements[k].request.venue == venue && Uncertain(placements[k]) ==>
      IdentityOf(placements[k]) in identities
  }

  /** A compensation order: reduce-only, with a client id, against the position held when it was sent. */
  predicate Compensates(p: Placement) {
    p.phase == Compensating && p.request.reduceOnly && p.request.clientOrderId != NoId
      && Reduces(p.request.side, p.live)
  }

  predicate CompensatesFrom(placements: seq<Placement>, n: nat) {
    forall k :: n <= k < |placements| ==> Compensates(placements[k])
  }

  // ---------------------------------------------------------------------------------------------
  // The venues
  // ---------------------------------------------------------------------------------------------

  /** How many of the orders went to the venue. */
  function Orders(placements: seq<Placement>, venue: Venue): nat {
    if placements == [] then 0
    else
      var last := placements[|placements| - 1];
      Orders(placements[..|placements| - 1], venue) + if last.request.venue == venue then 1 else 0
  }

  /** Everything that has happened at the venues. */
  datatype Trail = TrailOf(book: Book, placements: seq<Placement>, reconciles: seq<Reconcile>, looks: seq<Look>)

  /** The reconciliation looks up the order sent right before it, under its client id, for its whole quantity. */
  predicate Asks(t: Trail, k: nat)
    requires k < |t.reconciles|
  {
    var f := t.reconciles[k];
    && 0 < f.orders <= |t.placements|
    && var p := t.placements[f.orders - 1];
       && p.settled == k && p.phase == f.phase && p.request.venue == f.venue
       && p.request.clientOrderId == f.clientOrderId && p.request.quantity == f.target
  }

  /** The order was looked up right after it was sent. */
  predicate LookedUp(t: Trail, k: nat)
    requires k < |t.placements|
  {
    var p := t.placements[k];
    p.settled < |t.reconciles| && t.reconciles[p.settled].orders == k + 1 && t.reconciles[p.settled].phase == p.phase
  }

  /** Nothing is forgotten, and no position grew or changed its sign. */
  ghost predicate Extends(before: Trail, after: Trail) {
    && before.placements <= after.placements
    && before.reconciles <= after.reconciles
    && before.looks <= after.looks
    && AllCloser(after.book, before.book)
  }

  lemma AsksStays(before: Trail, after: Trail, k: nat)
    requires Extends(before, after) && k < |before.reconciles| && Asks(before, k)
    ensures Asks(after, k)
  {
    assert after.reconciles[k] == before.reconciles[k];
    assert after.placements[after.reconciles[k].orders - 1] == before.placements[before.reconciles[k].orders - 1];
  }

  /** Venues with an adapter, their live positions, and a record of everything asked of them.
      Reduce-only orders only reduce: between two observations a live position may move towards zero by
      any amount (an order reported as failed may have executed, late or in part), never away from it.
      A reported fill did execute. */
  class Venues {
    const adapters: set<Venue>
    var book: Book
    ghost var placements: seq<Placement>
    ghost var reconciles: seq<Reconcile>
    ghost var looks: seq<Look>

    constructor (adapters: set<Venue>, book: Book)
      ensures this.adapters == adapters && this.book == book
      ensures placements == [] && reconciles == [] && looks == []
    {
      this.adapters := adapters;
      this.book := book;
      placements, reconciles, looks := [], [], [];
    }

    method PlaceOrder(request: OrderRequest, ghost phase: Phase) returns (result: PlaceResult)
      modifies this
      ensures placements == old(placements) + [Placement(phase, request, result, Live(old(book), request.venue),
          |looks|, |reconciles|)]
      ensures reconciles == old(reconciles) && looks == old(looks)
      ensures request.reduceOnly ==> AllCloser(book, old(book))
      ensures request.reduceOnly && result.Ack? && result.fill.quantity > 0.0
              ==> Abs(Live(book, request.venue)) <= Abs(Live(old(book), request.venue)) - result.fill.quantity
    {
      var answer: PlaceResult := *;
      result := answer;
      var held := Live(book, request.venue);
      if request.reduceOnly && result.Ack? && result.fill.quantity > Abs(held) {
        result := Ack(result.fill.(quantity := Abs(held)));
      }
      placements := placements + [Placement(phase, request, result, held, |looks|, |reconciles|)];
      var after: Book := *;
      if request.reduceOnly {
        var executed := if result.Ack? then Max(result.fill.quantity, 0.0) else 0.0;
        if !AllCloser(after, book) || Abs(Live(after, request.venue)) > Abs(held) - executed {
          after := book[request.venue := if held >= 0.0 then held - executed else held + executed];
        }
      }
      book := after;
    }

    method FetchPosition(venue: Venue, ghost phase: Phase) returns (probe: Probe)
      modifies this
      ensures placements == old(placements) && reconciles == old(reconciles)
      ensures looks == old(looks) + [Look(phase, venue, probe)]
      ensures AllCloser(book, old(book))
      ensures Truthful(probe, Live(book, venue))
    {
      var after: Book := *;
      if AllCloser(after, book) {
        book := after;
      }
      var answer: Probe := *;
      probe := answer;
      var held := Live(book, venue);
      if !Truthful(probe, held) {
        probe := Snapshot(if held >= 0.0 then Buy else Sell, Abs(held));
      }
      looks := looks + [Look(phase, venue, probe)];
    }

    ghost function Trail(): Trail
      reads this
    {
      TrailOf(book, placements, reconciles, looks)
    }

    /** reconcile_duplicate_client_order: the fill lookup, then the position probe, then the ledger. */
    method ReconcileDuplicate(venue: Venue, clientOrderId: Id, target: real,
        ghost phase: Phase) returns (r: DuplicateResult)
      modifies this
      ensures placements == old(placements)
      ensures AllCloser(book, old(book))
      ensures |reconciles| == |old(reconciles)| + 1 && old(reconciles) <= reconciles
      ensures var fact := reconciles[|old(reconciles)|];
              fact == Reconcile(phase, venue, target, clientOrderId, fact.lookup, fact.probe, Live(book, venue),
                  |placements|)
              && looks == old(looks) + [Look(phase, venue, fact.probe)]
              && Truthful(fact.probe, fact.live) && r == fact.Result()
    {
      var lookup: FillLookup := *;
      var probe := FetchPosition(venue, phase);
      r := ResolveDuplicate(target, clientOrderId, lookup, probe);
      reconciles := reconciles + [Reconcile(phase, venue, target, clientOrderId, lookup, probe, Live(book, venue),
          |placements|)];
    }
  }
}
