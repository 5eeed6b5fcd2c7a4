/** Submission of one leg of a close, with retries. */
module CloseSubmission {
  import opened Domain
  import opened Exchange
  import opened CloseEvidence

  datatype Outcome = LegFilled | TerminalFlat | LegUncertain | LegRejected

  /** What submitting a leg came to. A filled leg has a fill. */
  datatype LegResult = LegResult(outcome: Outcome, fill: Option<OrderFill>, orderId: Id, clientOrderId: Id,
      reason: RejectReason)

  const NO_REASON := RejectReason(false, false, false, false, false)

  /** The fill recorded when the venue says there is nothing left to close. */
  const TERMINAL_FLAT_FILL := OrderFill(0.0, 0.0, NoId, NoId, None, 0)

  /** _is_terminal_reduce_only. */
  predicate IsTerminal(reason: RejectReason) {
    reason.emptyPosition || (!reason.pendingConflict && reason.terminalReduceOnly)
  }

  // ---------------------------------------------------------------------------------------------
  // What an answer means
  // ---------------------------------------------------------------------------------------------

  /** A probe of the close from index n on found a position on the venue, and found it flat. */
  predicate SeenFlat(looks: seq<Look>, n: nat, venue: Venue) {
    exists k ::
      n <= k < |looks| && looks[k].phase == Closing && looks[k].venue == venue && looks[k].probe.Snapshot?
        && Abs(looks[k].probe.quantity) <= FLAT_EPS
  }

  /** A rejection that counts as closed: the venue says so, or was seen flat. */
  predicate SettledFlat(reason: RejectReason, seenFlat: bool) {
    reason.emptyPosition || reason.orderNotFound || (IsTerminal(reason) && seenFlat)
  }

  /** What a duplicate client id comes to when it is not retried. */
  function OutcomeOfDuplicate(d: DuplicateResult): Outcome {
    if d.ClearState() then
      if d.reconciledQty <= QTY_EPS then TerminalFlat else LegFilled
    else if d.classification == Partial && d.reconciledQty > QTY_EPS then LegFilled
    else LegUncertain
  }

  /** What the answer to the last order of a leg means, given what was learnt since. */
  function Judge(now: Trail, p: Placement): Outcome {
    match p.result
    case Ack(fill) => if fill.quantity > 0.0 then LegFilled else LegUncertain
    case Failed(error) =>
      if error.kind != RejectedOrder then LegUncertain
      else if error.reason.duplicate then
        if p.settled < |now.reconciles| && now.reconciles[p.settled].phase == Closing then
          OutcomeOfDuplicate(now.reconciles[p.settled].Result())
        else LegUncertain
      else if SettledFlat(error.reason, SeenFlat(now.looks, p.looks, p.request.venue)) then LegFilled
      else LegRejected
  }

  /** A leg is judged by its last order; without an adapter it is rejected. */
  ghost predicate Judged(now: Trail, adapters: set<Venue>, venue: Venue, outcome: Outcome) {
    if venue in adapters then now.placements != [] && outcome == Judge(now, now.placements[|now.placements| - 1])
    else outcome == LegRejected
  }

  // ---------------------------------------------------------------------------------------------
  // What a submission promises
  // ---------------------------------------------------------------------------------------------

  /** At most `most` orders of the close: the first request, or the same with another quantity or client id. */
  ghost predicate Closes(before: Trail, after: Trail, first: OrderRequest, most: nat) {
    && Extends(before, after) && Conserves(before, after)
    && |after.placements| <= |before.placements| + most
    && forall k :: |before.placements| <= k < |after.placements| ==>
         var p := after.placements[k];
         p.phase == Closing && p.request.clientOrderId != NoId && |before.reconciles| <= p.settled
         && p.request == first.(quantity := p.request.quantity, clientOrderId := p.request.clientOrderId)
  }

  /** The identities are exactly those of the unresolved orders placed since `before`. */
  ghost predicate Remembers(before: Trail, after: Trail, identities: seq<Identity>) {
    && (forall k :: |before.placements| <= k < |after.placements| && Uncertain(after.placements[k]) ==>
          IdentityOf(after.placements[k]) in identities)
    && (forall i :: i in identities ==>
          exists k ::
            |before.placements| <= k < |after.placements| && Uncertain(after.placements[k])
              && IdentityOf(after.placements[k]) == i)
  }

  predicate Fills(result: PlaceResult) {
    result.Ack? && result.fill.quantity > 0.0
  }

  /** Any positive fill the venue acknowledged since `before` is this one. */
  ghost predicate Reports(before: Trail, after: Trail, fill: Option<OrderFill>) {
    forall k :: |before.placements| <= k < |after.placements| && Fills(after.placements[k].result) ==>
      fill == Some(after.placements[k].result.fill)
  }

  /** A leg is filled exactly when it has a fill, and in doubt only because of what happened since `before`. */
  ghost predicate FillSound(before: Trail, after: Trail, r: LegResult) {
    (r.outcome == LegFilled <==> r.fill.Some?)
    && (r.fill.Some? ==> r.fill.value.quantity >= 0.0)
    && (r.outcome == LegUncertain ==> Doubtful(before, after))
  }

  lemma ClosesCompose(a: Trail, b: Trail, c: Trail, first: OrderRequest, m: nat, n: nat)
    requires Closes(a, b, first, m) && Closes(b, c, first, n)
    ensures Closes(a, c, first, m + n)
  {
    assert forall k :: 0 <= k < |b.placements| ==> c.placements[k] == b.placements[k];
  }

  /** A step that places no order changes nothing that is remembered. */
  lemma RemembersWithoutOrders(a: Trail, b: Trail, c: Trail, identities: seq<Identity>)
    requires Remembers(a, b, identities) && b.placements == c.placements
    ensures Remembers(a, c, identities)
  {
  }

  lemma FillSoundExtends(a: Trail, b: Trail, c: Trail, r: LegResult)
    requires FillSound(b, c, r) && Extends(a, b) && Extends(b, c)
    ensures FillSound(a, c, r)
  {
    DoubtExtends(a, b, c);
  }

  // --- retries after a reconciliation ---

  predicate IsDuplicateId(id: Id) {
    id.ClientOrderId? && id.stage.ExitDuplicate?
  }

  predicate IsExitId(id: Id, positionId: string, leg: LegLabel) {
    id.ClientOrderId? && id.positionId == positionId && id.stage.Exit? && id.stage.leg == leg
  }

  /** The client id of the retry after so many attempts. It does not name the chunk. */
  function RetryId(first: Id, attempts: nat): Id {
    if first.ClientOrderId? && first.stage.Exit? then
      ClientOrderId(first.positionId, ExitDuplicate(first.stage.leg, attempts + 1))
    else NoId
  }

  /** What a retry asks for: what remains, but no more than was seen live. */
  function RetryQuantity(d: DuplicateResult): real {
    if d.liveQty > FLAT_EPS then Min(d.remainingQty, d.liveQty) else d.remainingQty
  }

  /** The next request asks for the rest of this one, under a new client id. */
  predicate Retries(request: OrderRequest, next: OrderRequest, d: DuplicateResult) {
    next == request.(quantity := RetryQuantity(d), clientOrderId := next.clientOrderId)
    && IsDuplicateId(next.clientOrderId)
  }

  /** The order that went out next after a reconciliation asks for the rest under a new client id. */
  predicate Superseded(now: Trail, k: nat)
    requires k < |now.reconciles|
  {
    var n := now.reconciles[k].orders;
    && Asks(now, k)
    && n < |now.placements| && now.placements[n].phase == Closing && now.placements[n].settled == k + 1
    && Retries(now.placements[n - 1].request, now.placements[n].request, now.reconciles[k].Result())
  }

  /** The order repeats the one before it, or asks for the rest of it once its client id was reconciled. */
  predicate Follows(now: Trail, k: nat)
    requires 0 < k < |now.placements|
  {
    var last, p := now.placements[k - 1], now.placements[k];
    last.phase == Closing
    && if p.settled == last.settled then p.request == last.request
    else
      && p.settled == last.settled + 1 <= |now.reconciles|
      && now.reconciles[last.settled].orders == k && Superseded(now, last.settled)
  }

  /** An order of the leg is the first request, or follows from the one before it, under a client id that counts the
      attempts. */
  predicate LinksAt(start: Trail, now: Trail, first: OrderRequest, k: nat)
    requires |start.placements| <= k < |now.placements|
  {
    if k == |start.placements| then now.placements[k].request == first
    else
      && Follows(now, k)
      && (now.placements[k].settled != now.placements[k - 1].settled ==>
            now.placements[k].request.clientOrderId == RetryId(first.clientOrderId, k - |start.placements|))
  }

  ghost predicate Chained(start: Trail, now: Trail, first: OrderRequest) {
    forall k :: |start.placements| <= k < |now.placements| ==> LinksAt(start, now, first, k)
  }

  /** So does the next request. */
  ghost predicate NextFollows(start: Trail, now: Trail, first: OrderRequest, next: OrderRequest)
    requires Extends(start, now)
  {
    if |now.placements| == |start.placements| then next == first
    else
      var last := now.placements[|now.placements| - 1];
      last.phase == Closing
      && if last.settled == |now.reconciles| then next == last.request
      else
        && last.settled == |now.reconciles| - 1 && Asks(now, last.settled)
        && now.reconciles[last.settled].orders == |now.placements|
        && Retries(last.request, next, now.reconciles[last.settled].Result())
        && next.clientOrderId == RetryId(first.clientOrderId, |now.placements| - |start.placements|)
  }

  lemma FollowsStays(before: Trail, after: Trail, k: nat)
    requires Extends(before, after) && 0 < k < |before.placements| && Follows(before, k)
    ensures Follows(after, k)
  {
    var last, p := before.placements[k - 1], before.placements[k];
    assert after.placements[k - 1] == last && after.placements[k] == p;
    if p.settled != last.settled {
      SupersededStays(before, after, last.settled);
    }
  }

  lemma ChainedStays(start: Trail, before: Trail, after: Trail, first: OrderRequest)
    requires Extends(before, after) && Chained(start, before, first)
    ensures forall k :: |start.placements| <= k < |before.placements| ==> LinksAt(start, after, first, k)
  {
    forall k | |start.placements| <= k < |before.placements|
      ensures LinksAt(start, after, first, k)
    {
      assert LinksAt(start, before, first, k);
      assert after.placements[k] == before.placements[k];
      if k > |start.placements| {
        assert after.placements[k - 1] == before.placements[k - 1];
        FollowsStays(before, after, k);
      }
    }
  }

  /** Retries are idempotent: until a duplicate client id was reconciled, every order is the very first request
      again, with its client id, so a venue executes it once. */
  ghost predicate Idempotent(start: Trail, now: Trail, first: OrderRequest) {
    forall k :: |start.placements| <= k < |now.placements| ==>
      || now.placements[k].request == first
      || (|start.reconciles| < now.placements[k].settled && IsDuplicateId(now.placements[k].request.clientOrderId))
  }

  lemma {:induction false} ChainIsIdempotent(start: Trail, now: Trail, first: OrderRequest, n: nat)
    requires Chained(start, now, first) && |start.placements| <= n <= |now.placements|
    requires forall k :: |start.placements| <= k < |now.placements| ==> |start.reconciles| <= now.placements[k].settled
    ensures forall k :: |start.placements| <= k < n ==>
        || now.placements[k].request == first
        || (|start.reconciles| < now.placements[k].settled && IsDuplicateId(now.placements[k].request.clientOrderId))
    decreases n
  {
    if n > |start.placements| {
      ChainIsIdempotent(start, now, first, n - 1);
      assert LinksAt(start, now, first, n - 1);
    }
  }

  // --- what settles a leg ---

  predicate RejectedDuplicate(p: Placement) {
    p.result.Failed? && p.result.error.kind == RejectedOrder && p.result.error.reason.duplicate
  }

  /** The order of the close settled a leg with a quantity: it was acknowledged with one, or turned down as a
      duplicate whose reconciliation settled the leg. */
  predicate Settles(now: Trail, k: nat)
    requires k < |now.placements|
  {
    var p := now.placements[k];
    p.phase == Closing
    && (Fills(p.result)
        || (RejectedDuplicate(p) && LookedUp(now, k) && !Superseded(now, p.settled)
            && OutcomeOfDuplicate(now.reconciles[p.settled].Result()) == LegFilled))
  }

  ghost predicate NoneSettles(start: Trail, now: Trail, n: nat)
    requires n <= |now.placements|
  {
    forall k :: |start.placements| <= k < n ==> !Settles(now, k)
  }

  /** Of the orders since `start` only the last may settle the leg, exactly when the leg has a positive fill; and the
      fill came of it. */
  ghost predicate SettlesLast(start: Trail, now: Trail, fill: Option<OrderFill>) {
    if |now.placements| <= |start.placements| then fill == None
    else
      var last := |now.placements| - 1;
      && NoneSettles(start, now, last)
      && (Settles(now, last) <==> fill.Some? && fill.value.quantity > 0.0)
      && (fill.Some? ==> ComesOf(now, last, fill.value))
  }

  /** When every reconciliation was superseded, only an acknowledged quantity settles. */
  lemma SupersededSettlesNothing(start: Trail, now: Trail, first: OrderRequest, most: nat)
    requires Closes(start, now, first, most) && AllSuperseded(start, now)
    ensures forall k :: |start.placements| <= k < |now.placements| ==>
        (Settles(now, k) <==> Fills(now.placements[k].result))
  {
  }

  // --- reconciliations ---

  /** The fill is the quantity that was reconciled. */
  predicate FillsReconciled(fill: Option<OrderFill>, d: DuplicateResult) {
    fill.Some? && IsFound(fill.value, d)
  }

  /** What becomes of the reconciliations of a leg: each asked about the order before it, and is superseded exactly
      when the ledger wants a retry and an attempt is left; otherwise the leg ended with it, and its quantity is the
      fill or the leg is in doubt. */
  ghost predicate ReconciledKept(start: Trail, now: Trail, r: LegResult, maxRetries: nat) {
    forall k :: |start.reconciles| <= k < |now.reconciles| ==>
      var f := now.reconciles[k];
      && f.phase == Closing && Asks(now, k) && |start.placements| < f.orders
      && (Superseded(now, k) <==> f.Result().ShouldRetry() && f.orders - |start.placements| < maxRetries)
      && (!Superseded(now, k) ==> f.orders == |now.placements|)
      && (!Superseded(now, k) && f.Result().reconciledQty > QTY_EPS ==>
            r.outcome == LegUncertain || FillsReconciled(r.fill, f.Result()))
  }

  /** Between attempts: every reconciliation is superseded, or is about to be by the next request. */
  ghost predicate Superseding(start: Trail, now: Trail, maxRetries: nat) {
    forall k :: |start.reconciles| <= k < |now.reconciles| ==>
      var f := now.reconciles[k];
      && f.phase == Closing && Asks(now, k) && |start.placements| < f.orders && f.Result().ShouldRetry()
      && f.orders - |start.placements| < maxRetries
      && (Superseded(now, k) || (k == |now.reconciles| - 1 && f.orders == |now.placements|))
  }

  ghost predicate AllSuperseded(start: Trail, now: Trail) {
    forall k :: |start.reconciles| <= k < |now.reconciles| ==> Superseded(now, k)
  }

  lemma KeptWhenAllSuperseded(start: Trail, now: Trail, r: LegResult, maxRetries: nat)
    requires Superseding(start, now, maxRetries) && AllSuperseded(start, now)
    ensures ReconciledKept(start, now, r, maxRetries)
  {
  }

  /** What was superseded stays so, whatever follows. */
  lemma SupersedingStays(start: Trail, before: Trail, after: Trail, maxRetries: nat)
    requires Extends(start, before) && Extends(before, after) && Superseding(start, before, maxRetries)
    ensures forall k :: |start.reconciles| <= k < |before.reconciles| ==>
        var f := after.reconciles[k];
        && f == before.reconciles[k] && f.phase == Closing && Asks(after, k) && |start.placements| < f.orders
        && f.Result().ShouldRetry() && f.orders - |start.placements| < maxRetries
        && (Superseded(before, k) ==> Superseded(after, k))
  {
    forall k | |start.reconciles| <= k < |before.reconciles|
      ensures after.reconciles[k] == before.reconciles[k] && Asks(after, k)
      ensures Superseded(before, k) ==> Superseded(after, k)
    {
      AsksStays(before, after, k);
      SupersededStays(before, after, k);
    }
  }

  /** A probe changes nothing about what is superseded. */
  lemma LooksSupersede(start: Trail, mid: Trail, now: Trail, maxRetries: nat)
    requires Extends(start, mid) && Extends(mid, now) && now.placements == mid.placements
        && now.reconciles == mid.reconciles
    requires Superseding(start, mid, maxRetries) && AllSuperseded(start, mid)
    ensures Superseding(start, now, maxRetries) && AllSuperseded(start, now)
  {
    SupersedingStays(start, mid, now, maxRetries);
  }

  /** A reconciliation right after the last order: it ends the leg, or the next request supersedes it. */
  lemma LastReconciliation(start: Trail, mid: Trail, now: Trail, r: LegResult, maxRetries: nat)
    requires Extends(start, mid) && Extends(mid, now) && now.placements == mid.placements
        && |now.reconciles| == |mid.reconciles| + 1 && |start.placements| < |now.placements|
    requires Superseding(start, mid, maxRetries) && AllSuperseded(start, mid)
    requires var f := now.reconciles[|mid.reconciles|];
             f.phase == Closing && f.orders == |now.placements| && Asks(now, |mid.reconciles|)
    ensures var d := now.reconciles[|mid.reconciles|].Result();
            var attempt := |now.placements| - |start.placements|;
            && (!(d.ShouldRetry() && attempt < maxRetries)
                && (d.reconciledQty > QTY_EPS ==> r.outcome == LegUncertain || FillsReconciled(r.fill, d)) ==>
                  ReconciledKept(start, now, r, maxRetries))
            && (d.ShouldRetry() && attempt < maxRetries ==> Superseding(start, now, maxRetries))
  {
    SupersedingStays(start, mid, now, maxRetries);
  }

  lemma SupersededStays(before: Trail, after: Trail, k: nat)
    requires Extends(before, after) && k < |before.reconciles|
    ensures Superseded(before, k) ==> Superseded(after, k)
  {
    if Superseded(before, k) {
      var n := before.reconciles[k].orders;
      assert after.reconciles[k] == before.reconciles[k] && after.placements[n] == before.placements[n];
      AsksStays(before, after, k);
    }
  }

  // ---------------------------------------------------------------------------------------------
  // One order
  // ---------------------------------------------------------------------------------------------

  /** What one order comes to: its positive fill, its identity when it is unresolved, or its rejection. Without an
      adapter nothing is sent. */
  ghost predicate Answered(before: Trail, now: Trail, adapters: set<Venue>, request: OrderRequest, r: LegResult) {
    if request.venue !in adapters then r == LegResult(LegRejected, None, NoId, NoId, NO_REASON) && now == before
    else
      && |now.placements| == |before.placements| + 1
      && now.reconciles == before.reconciles && now.looks == before.looks
      && var p := now.placements[|before.placements|];
         && p.phase == Closing && p.request == request && p.looks == |now.looks| && p.settled == |now.reconciles|
         && (r.outcome == LegRejected <==> p.result.Failed? && p.result.error.kind == RejectedOrder)
         && (r.outcome == LegRejected ==> r == LegResult(LegRejected, None, NoId, NoId, p.result.error.reason))
         && (r.outcome != LegRejected ==> r.outcome == Judge(now, p) && r.clientOrderId != NoId)
         && (if Fills(p.result) then r.fill == Some(p.result.fill) else r.fill == None)
  }

  /** _submit_close_leg. */
  method SubmitCloseLeg(exchange: Venues, request: OrderRequest) returns (r: LegResult)
    requires request.reduceOnly && request.clientOrderId != NoId
    modifies exchange
    ensures Closes(old(exchange.Trail()), exchange.Trail(), request, 1)
    ensures Answered(old(exchange.Trail()), exchange.Trail(), exchange.adapters, request, r)
    ensures FillSound(old(exchange.Trail()), exchange.Trail(), r) && r.outcome != TerminalFlat
    ensures Remembers(old(exchange.Trail()), exchange.Trail(),
              if r.outcome == LegUncertain then [Identity(r.orderId, r.clientOrderId)] else [])
  {
    if request.venue !in exchange.adapters {
      return LegResult(LegRejected, None, NoId, NoId, NO_REASON);
    }
    ghost var n := |exchange.placements|;
    var result := exchange.PlaceOrder(request, Closing);
    match result {
      case Ack(fill) =>
        if fill.quantity > 0.0 {
          r := LegResult(LegFilled, Some(fill), fill.orderId, OrElse(fill.clientOrderId, request.clientOrderId),
              NO_REASON);
        } else {
          r := LegResult(LegUncertain, None, fill.orderId, OrElse(fill.clientOrderId, request.clientOrderId),
              NO_REASON);
        }
      case Failed(error) =>
        if error.kind == RejectedOrder {
          r := LegResult(LegRejected, None, NoId, NoId, error.reason);
        } else if error.kind == UncertainOrder {
          r := LegResult(LegUncertain, None, error.acceptedOrderId,
            OrElse(error.acceptedClientOrderId, request.clientOrderId), NO_REASON);
        } else {
          r := LegResult(LegUncertain, None, NoId, request.clientOrderId, NO_REASON);
        }
    }
    assert exchange.placements[n].request == request && exchange.placements[n].result == result;
    ConservesOneOrder(old(exchange.Trail()), exchange.Trail(), exchange.placements[n]);
  }

  // ---------------------------------------------------------------------------------------------
  // Rejections
  // ---------------------------------------------------------------------------------------------

  /** Either the leg is settled, or it is to be submitted again as `request`. */
  datatype Verdict = Settled(result: LegResult) | SubmitAgain(request: OrderRequest)

  function ReconciledFill(request: OrderRequest, duplicate: DuplicateResult, now: int): OrderFill {
    OrderFill(duplicate.reconciledQty, if duplicate.averagePrice != 0.0 then duplicate.averagePrice else request.price,
      duplicate.orderId, OrElse(duplicate.clientOrderId, request.clientOrderId), None, now)
  }

  /** The client id was used before. The retry submits only what the ledger says remains; what was reconciled by
      then is kept only when the ledger clears the id, or when the retries are spent. */
  method ResolveDuplicateRejection(exchange: Venues, request: OrderRequest, positionId: string, leg: LegLabel,
      attempt: nat, maxRetries: nat, now: int)
    returns (verdict: Verdict)
    requires request.reduceOnly
    modifies exchange
    ensures Extends(old(exchange.Trail()), exchange.Trail()) && exchange.placements == old(exchange.placements)
    ensures verdict.Settled? ==> FillSound(old(exchange.Trail()), exchange.Trail(), verdict.result)
    ensures verdict.SubmitAgain? ==>
              verdict.request.clientOrderId == ClientOrderId(positionId, ExitDuplicate(leg, attempt + 1))
    ensures |exchange.reconciles| == |old(exchange.reconciles)| + 1 && old(exchange.reconciles) <= exchange.reconciles
    ensures var d := exchange.reconciles[|old(exchange.reconciles)|];
            && d.phase == Closing && d.orders == |exchange.placements|
            && d.target == request.quantity && d.venue == request.venue && d.clientOrderId == request.clientOrderId
            && (verdict.SubmitAgain? <==> d.Result().ShouldRetry() && attempt < maxRetries)
            && (verdict.SubmitAgain? ==> Retries(request, verdict.request, d.Result()))
            && (verdict.Settled? ==>
                  && verdict.result.outcome == OutcomeOfDuplicate(d.Result())
                  && verdict.result.fill == if verdict.result.outcome == LegFilled
                                            then Some(ReconciledFill(request, d.Result(), now)) else None)
  {
    var duplicate := exchange.ReconcileDuplicate(request.venue, request.clientOrderId, request.quantity, Closing);
    if duplicate.ClearState() {
      if duplicate.reconciledQty <= QTY_EPS {
        return Settled(LegResult(TerminalFlat, None, duplicate.orderId, NoId, NO_REASON));
      }
      return Settled(LegResult(LegFilled, Some(ReconciledFill(request, duplicate, now)), duplicate.orderId, NoId,
          NO_REASON));
    }
    if duplicate.classification == Partial && duplicate.reconciledQty > QTY_EPS && attempt >= maxRetries {
      return Settled(LegResult(LegFilled, Some(ReconciledFill(request, duplicate, now)), duplicate.orderId, NoId,
          NO_REASON));
    }
    if duplicate.ShouldRetry() && attempt < maxRetries {
      var quantity := duplicate.remainingQty;
      if duplicate.liveQty > FLAT_EPS {
        quantity := Min(quantity, duplicate.liveQty);
      }
      return SubmitAgain(request.(quantity := quantity,
          clientOrderId := ClientOrderId(positionId, ExitDuplicate(leg, attempt + 1))));
    }
    return Settled(LegResult(LegUncertain, None, NoId, request.clientOrderId, NO_REASON));
  }

  /** Any other rejection: the venue may already be flat, or a pending order may be in the way. */
  method ResolveRejection(exchange: Venues, request: OrderRequest, rejected: LegResult, attempt: nat, maxRetries: nat)
    returns (verdict: Verdict)
    requires rejected.outcome == LegRejected && rejected.fill == None
    modifies exchange
    ensures Extends(old(exchange.Trail()), exchange.Trail())
    ensures exchange.placements == old(exchange.placements) && exchange.reconciles == old(exchange.reconciles)
    ensures verdict.Settled? ==> FillSound(old(exchange.Trail()), exchange.Trail(), verdict.result)
    ensures var flat := SettledFlat(rejected.reason, SeenFlat(exchange.looks, |old(exchange.looks)|, request.venue));
            && (flat <==> verdict == Settled(LegResult(LegFilled, Some(TERMINAL_FLAT_FILL), NoId, NoId, NO_REASON)))
            && (!flat && rejected.reason.pendingConflict && attempt < maxRetries <==> verdict == SubmitAgain(request))
            && (flat || verdict == SubmitAgain(request) || verdict == Settled(rejected))
    ensures verdict.Settled? && verdict.result.outcome == LegFilled ==>
              FlatAt(exchange.book, request.venue) || rejected.reason.emptyPosition || rejected.reason.orderNotFound
  {
    var reason := rejected.reason;
    if IsTerminal(reason) || reason.orderNotFound {
      var flat := false;
      if request.venue in exchange.adapters {
        var probe := exchange.FetchPosition(request.venue, Closing);
        flat := probe.Snapshot? && Abs(probe.quantity) <= FLAT_EPS;
        assert exchange.looks[|old(exchange.looks)|] == Look(Closing, request.venue, probe);
      }
      if flat || reason.emptyPosition || reason.orderNotFound {
        return Settled(LegResult(LegFilled, Some(TERMINAL_FLAT_FILL), NoId, NoId, NO_REASON));
      }
    }
    if reason.pendingConflict && attempt < maxRetries {
      return SubmitAgain(request);
    }
    return Settled(rejected);
  }

  // ---------------------------------------------------------------------------------------------
  // With retries
  // ---------------------------------------------------------------------------------------------

  /** _submit_close_leg_with_retry. `history` holds the identity of every attempt whose outcome was
      uncertain, also of those a later attempt superseded. The leg is judged by its last order. */
  method SubmitCloseLegWithRetry(exchange: Venues, first: OrderRequest, positionId: string, leg: LegLabel,
      maxRetries: nat, now: int)
    returns (r: LegResult, history: seq<Identity>)
    requires first.reduceOnly && IsExitId(first.clientOrderId, positionId, leg)
    modifies exchange
    ensures Closes(old(exchange.Trail()), exchange.Trail(), first, maxRetries)
    ensures first.venue in exchange.adapters && maxRetries >= 1 ==>
        Sends(old(exchange.placements), exchange.placements, first)
    ensures Remembers(old(exchange.Trail()), exchange.Trail(), history)
    ensures Reports(old(exchange.Trail()), exchange.Trail(), r.fill)
    ensures Chained(old(exchange.Trail()), exchange.Trail(), first)
    ensures Idempotent(old(exchange.Trail()), exchange.Trail(), first)
    ensures SettlesLast(old(exchange.Trail()), exchange.Trail(), r.fill)
    ensures maxRetries >= 1 ==>
              && FillSound(old(exchange.Trail()), exchange.Trail(), r)
              && Judged(exchange.Trail(), exchange.adapters, first.venue, r.outcome)
    ensures ReconciledKept(old(exchange.Trail()), exchange.Trail(), r, maxRetries)
    ensures maxRetries == 0 ==> r.outcome == LegUncertain && r.fill == None
    ensures maxRetries == 0 || first.venue !in exchange.adapters ==> exchange.placements == old(exchange.placements)
  {
    ghost var start := exchange.Trail();
    r, history := SubmitUntilSettled(exchange, first, positionId, leg, maxRetries, now);
    ChainIsIdempotent(start, exchange.Trail(), first, |exchange.placements|);
  }

  /** Its loop. */
  method SubmitUntilSettled(exchange: Venues, first: OrderRequest, positionId: string, leg: LegLabel,
      maxRetries: nat, now: int)
    returns (r: LegResult, history: seq<Identity>)
    requires first.reduceOnly && IsExitId(first.clientOrderId, positionId, leg)
    modifies exchange
    ensures maxRetries == 0 ==>
        r.outcome == LegUncertain && r.fill == None && history == [] && exchange.Trail() == old(exchange.Trail())
    ensures maxRetries >= 1 ==>
        Ended(old(exchange.Trail()), exchange.Trail(), exchange.adapters, first, maxRetries, maxRetries, history, r)
    ensures first.venue in exchange.adapters && maxRetries >= 1 ==>
        Sends(old(exchange.placements), exchange.placements, first)
    ensures first.venue !in exchange.adapters ==> exchange.placements == old(exchange.placements)
  {
    ghost var start := exchange.Trail();
    history := [];
    var request := first;
    for attempt := 1 to maxRetries + 1
      invariant Attempted(start, exchange.Trail(), exchange.adapters, first, attempt - 1, maxRetries, history, request)
      invariant attempt == 1 ==> history == [] && exchange.Trail() == start
      invariant attempt > 1 ==> first.venue in exchange.adapters && Sends(start.placements, exchange.placements, first)
      invariant attempt == maxRetries + 1 && maxRetries >= 1 ==>
                  GoesOn(start, exchange.Trail(), exchange.adapters, first, maxRetries, maxRetries, history, request)
    {
      var again;
      r, history, request, again := SubmitAndJudge(exchange, request, positionId, leg, attempt, maxRetries, now,
          history, first, start);
      if !again {
        return;
      }
    }
    r := LegResult(LegUncertain, None, NoId, request.clientOrderId, NO_REASON);
    if maxRetries >= 1 {
      LeftInDoubt(start, exchange.Trail(), exchange.adapters, first, maxRetries, history, request, r);
    }
  }

  /** The attempts so far: like the first request, none of them filled, the unresolved ones remembered, and what
      was reconciled superseded; and the next request. */
  ghost predicate Attempted(start: Trail, now: Trail, adapters: set<Venue>, first: OrderRequest, most: nat,
      maxRetries: nat, history: seq<Identity>, next: OrderRequest)
  {
    && Closes(start, now, first, most) && Remembers(start, now, history) && Reports(start, now, None)
    && Chained(start, now, first) && NextFollows(start, now, first, next)
    && |now.placements| == |start.placements| + (if first.venue in adapters then most else 0)
    && Superseding(start, now, maxRetries)
    && (first.venue !in adapters ==> now.reconciles == start.reconciles)
    && next == first.(quantity := next.quantity, clientOrderId := next.clientOrderId) && next.clientOrderId != NoId
  }

  /** The leg ended with this result. */
  ghost predicate Ended(start: Trail, now: Trail, adapters: set<Venue>, first: OrderRequest, most: nat, maxRetries: nat,
      history: seq<Identity>, r: LegResult)
  {
    && Closes(start, now, first, most) && Remembers(start, now, history) && Reports(start, now, r.fill)
    && Chained(start, now, first) && SettlesLast(start, now, r.fill) && FillSound(start, now, r)
    && Judged(now, adapters, first.venue, r.outcome) && ReconciledKept(start, now, r, maxRetries)
  }

  /** Another attempt is due. When there is none left, the last answer leaves the leg in doubt. */
  ghost predicate GoesOn(start: Trail, now: Trail, adapters: set<Venue>, first: OrderRequest, attempt: nat,
      maxRetries: nat, history: seq<Identity>, next: OrderRequest)
  {
    && first.venue in adapters
    && Attempted(start, now, adapters, first, attempt, maxRetries, history, next)
    && (attempt == maxRetries ==>
          Doubtful(start, now) && Judged(now, adapters, first.venue, LegUncertain) && AllSuperseded(start, now))
  }

  lemma LeftInDoubt(start: Trail, now: Trail, adapters: set<Venue>, first: OrderRequest, maxRetries: nat,
      history: seq<Identity>, next: OrderRequest, r: LegResult)
    requires GoesOn(start, now, adapters, first, maxRetries, maxRetries, history, next)
    requires r.outcome == LegUncertain && r.fill == None
    ensures Ended(start, now, adapters, first, maxRetries, maxRetries, history, r)
  {
    SupersededSettlesNothing(start, now, first, maxRetries);
    KeptWhenAllSuperseded(start, now, r, maxRetries);
  }

  /** One turn of the loop: an attempt, and what its answer means. */
  method SubmitAndJudge(exchange: Venues, request: OrderRequest, positionId: string, leg: LegLabel, attempt: nat,
      maxRetries: nat, now: int, history: seq<Identity>, ghost first: OrderRequest, ghost start: Trail)
    returns (r: LegResult, after: seq<Identity>, next: OrderRequest, again: bool)
    requires 1 <= attempt <= maxRetries && first.reduceOnly && IsExitId(first.clientOrderId, positionId, leg)
    requires Attempted(start, exchange.Trail(), exchange.adapters, first, attempt - 1, maxRetries, history, request)
    modifies exchange
    ensures old(exchange.placements) <= exchange.placements
    ensures first.venue in exchange.adapters ==> Sends(old(exchange.placements), exchange.placements, request)
    ensures if again then GoesOn(start, exchange.Trail(), exchange.adapters, first, attempt, maxRetries, after, next)
            else Ended(start, exchange.Trail(), exchange.adapters, first, attempt, maxRetries, after, r)
    ensures first.venue !in exchange.adapters ==> exchange.placements == old(exchange.placements)
  {
    r, after := SubmitOnce(exchange, request, history, first, start, attempt, maxRetries);
    if r.outcome == LegRejected {
      r, next, again := JudgeRejection(exchange, request, positionId, leg, attempt, maxRetries, now, r, after, first,
          start);
    } else {
      next, again := request, r.outcome == LegUncertain;
    }
  }

  /** The last answer was a rejection, and nothing was learnt since. */
  ghost predicate AnswerRejected(start: Trail, now: Trail, adapters: set<Venue>, first: OrderRequest, attempt: nat,
      maxRetries: nat, history: seq<Identity>, request: OrderRequest, reason: RejectReason)
  {
    && 1 <= attempt <= maxRetries && first.reduceOnly
    && Attempted(start, now, adapters, first, attempt, maxRetries, history, request)
    && AllSuperseded(start, now)
    && if first.venue in adapters then RejectedLast(now, request, reason) else reason == NO_REASON
  }

  /** The last order, just sent, was rejected for this reason. */
  predicate RejectedLast(now: Trail, request: OrderRequest, reason: RejectReason) {
    now.placements != []
    && var p := now.placements[|now.placements| - 1];
       && p.phase == Closing && p.looks == |now.looks| && p.settled == |now.reconciles| && p.request == request
       && p.result.Failed? && p.result.error.kind == RejectedOrder && p.result.error.reason == reason
  }

  /** The answer was a rejection: the leg ends, or is submitted again. */
  method JudgeRejection(exchange: Venues, request: OrderRequest, positionId: string, leg: LegLabel, attempt: nat,
      maxRetries: nat, now: int, rejected: LegResult, ghost history: seq<Identity>, ghost first: OrderRequest,
      ghost start: Trail)
    returns (r: LegResult, next: OrderRequest, again: bool)
    requires IsExitId(first.clientOrderId, positionId, leg)
    requires rejected == LegResult(LegRejected, None, NoId, NoId, rejected.reason)
    requires AnswerRejected(start, exchange.Trail(), exchange.adapters, first, attempt, maxRetries, history, request,
        rejected.reason)
    modifies exchange
    ensures exchange.placements == old(exchange.placements)
    ensures if again then GoesOn(start, exchange.Trail(), exchange.adapters, first, attempt, maxRetries, history, next)
            else Ended(start, exchange.Trail(), exchange.adapters, first, attempt, maxRetries, history, r)
  {
    ghost var mid := exchange.Trail();
    r, next, again := rejected, request, false;
    var verdict;
    if rejected.reason.duplicate {
      verdict := ResolveDuplicateRejection(exchange, request, positionId, leg, attempt, maxRetries, now);
      DuplicateJudged(start, mid, exchange.Trail(), exchange.adapters, first, attempt, maxRetries, history, request,
          rejected, verdict, positionId, leg, now);
    } else {
      verdict := ResolveRejection(exchange, request, rejected, attempt, maxRetries);
      RejectionJudged(start, mid, exchange.Trail(), exchange.adapters, first, attempt, maxRetries, history, request,
          rejected, verdict);
    }
    match verdict {
      case SubmitAgain(same) =>
        next, again := same, true;
      case Settled(result) =>
        r := result;
    }
  }

  /** What a verdict means for the leg. */
  ghost predicate VerdictHolds(start: Trail, now: Trail, adapters: set<Venue>, first: OrderRequest, attempt: nat,
      maxRetries: nat, history: seq<Identity>, verdict: Verdict)
  {
    match verdict
    case SubmitAgain(next) => GoesOn(start, now, adapters, first, attempt, maxRetries, history, next)
    case Settled(result) => Ended(start, now, adapters, first, attempt, maxRetries, history, result)
  }

  lemma DuplicateJudged(start: Trail, mid: Trail, now: Trail, adapters: set<Venue>, first: OrderRequest, attempt: nat,
      maxRetries: nat, history: seq<Identity>, request: OrderRequest, rejected: LegResult, verdict: Verdict,
      positionId: string, leg: LegLabel, at: int)
    requires rejected == LegResult(LegRejected, None, NoId, NoId, rejected.reason) && rejected.reason.duplicate
    requires AnswerRejected(start, mid, adapters, first, attempt, maxRetries, history, request, rejected.reason)
    requires Extends(mid, now) && now.placements == mid.placements && IsExitId(first.clientOrderId, positionId, leg)
    requires |now.reconciles| == |mid.reconciles| + 1
    requires verdict.Settled? ==> FillSound(mid, now, verdict.result)
    requires var d := now.reconciles[|mid.reconciles|];
             && d.phase == Closing && d.orders == |now.placements|
             && d.target == request.quantity && d.venue == request.venue && d.clientOrderId == request.clientOrderId
             && (verdict.SubmitAgain? <==> d.Result().ShouldRetry() && attempt < maxRetries)
             && (verdict.SubmitAgain? ==>
                   && Retries(request, verdict.request, d.Result())
                   && verdict.request.clientOrderId == ClientOrderId(positionId, ExitDuplicate(leg, attempt + 1)))
             && (verdict.Settled? ==>
                   && verdict.result.outcome == OutcomeOfDuplicate(d.Result())
                   && verdict.result.fill == if verdict.result.outcome == LegFilled
                                             then Some(ReconciledFill(request, d.Result(), at)) else None)
    ensures VerdictHolds(start, now, adapters, first, attempt, maxRetries, history, verdict)
  {
    assert Asks(now, |mid.reconciles|);
    LastReconciliation(start, mid, now, if verdict.Settled? then verdict.result else rejected, maxRetries);
    StepWithoutOrders(start, mid, now, first, attempt, history);
    if verdict.Settled? {
      FillSoundExtends(start, mid, now, verdict.result);
      DuplicateSettles(start, mid, now, first, attempt, request, verdict.result.fill, at);
    }
  }

  /** A duplicate that is not retried settles the leg with what was reconciled, or with nothing. */
  lemma DuplicateSettles(start: Trail, mid: Trail, now: Trail, first: OrderRequest, attempt: nat,
      request: OrderRequest, fill: Option<OrderFill>, at: int)
    requires Closes(start, mid, first, attempt) && AllSuperseded(start, mid) && Reports(start, mid, None)
    requires Extends(mid, now) && now.placements == mid.placements && |start.placements| < |now.placements|
    requires |now.reconciles| == |mid.reconciles| + 1
    requires var p, d := now.placements[|now.placements| - 1], now.reconciles[|mid.reconciles|];
             && RejectedDuplicate(p) && p.settled == |mid.reconciles| && p.phase == d.phase == Closing
             && d.orders == |now.placements|
             && fill == if OutcomeOfDuplicate(d.Result()) == LegFilled then Some(ReconciledFill(request, d.Result(),
                 at)) else None
    ensures SettlesLast(start, now, fill)
  {
    forall k | |start.placements| <= k < |now.placements| - 1
      ensures !Settles(now, k)
    {
      var s := now.placements[k].settled;
      if s < |mid.reconciles| {
        SupersededStays(mid, now, s);
      }
    }
  }

  lemma RejectionJudged(start: Trail, mid: Trail, now: Trail, adapters: set<Venue>, first: OrderRequest, attempt: nat,
      maxRetries: nat, history: seq<Identity>, request: OrderRequest, rejected: LegResult, verdict: Verdict)
    requires rejected == LegResult(LegRejected, None, NoId, NoId, rejected.reason) && !rejected.reason.duplicate
    requires AnswerRejected(start, mid, adapters, first, attempt, maxRetries, history, request, rejected.reason)
    requires Extends(mid, now) && now.placements == mid.placements && now.reconciles == mid.reconciles
    requires verdict.Settled? ==> FillSound(mid, now, verdict.result)
    requires var flat := SettledFlat(rejected.reason, SeenFlat(now.looks, |mid.looks|, request.venue));
             && (flat <==> verdict == Settled(LegResult(LegFilled, Some(TERMINAL_FLAT_FILL), NoId, NoId, NO_REASON)))
             && (!flat && rejected.reason.pendingConflict && attempt < maxRetries <==> verdict == SubmitAgain(request))
             && (flat || verdict == SubmitAgain(request) || verdict == Settled(rejected))
    ensures VerdictHolds(start, now, adapters, first, attempt, maxRetries, history, verdict)
  {
    LooksSupersede(start, mid, now, maxRetries);
    KeptWhenAllSuperseded(start, now, if verdict.Settled? then verdict.result else rejected, maxRetries);
    StepWithoutOrders(start, mid, now, first, attempt, history);
    if verdict.Settled? {
      FillSoundExtends(start, mid, now, verdict.result);
      SupersededSettlesNothing(start, now, first, attempt);
    }
  }

  lemma StepWithoutOrders(start: Trail, mid: Trail, now: Trail, first: OrderRequest, attempt: nat,
      history: seq<Identity>)
    requires Closes(start, mid, first, attempt) && Remembers(start, mid, history) && Reports(start, mid, None)
        && Chained(start, mid, first)
    requires Extends(mid, now) && now.placements == mid.placements
    ensures Closes(start, now, first, attempt) && Remembers(start, now, history) && Chained(start, now, first)
    ensures forall fill :: Reports(start, now, fill)
  {
    ConservesWithoutOrders(mid, now);
    ClosesCompose(start, mid, now, first, attempt, 0);
    RemembersWithoutOrders(start, mid, now, history);
    ChainedStays(start, mid, now, first);
  }

  /** A rejection is still to be judged; a fill ends the leg; else another attempt is due. */
  ghost predicate AttemptMeans(start: Trail, now: Trail, adapters: set<Venue>, first: OrderRequest, attempt: nat,
      maxRetries: nat, history: seq<Identity>, request: OrderRequest, r: LegResult)
  {
    match r.outcome
    case LegRejected =>
      && r == LegResult(LegRejected, None, NoId, NoId, r.reason)
      && AnswerRejected(start, now, adapters, first, attempt, maxRetries, history, request, r.reason)
    case LegUncertain => GoesOn(start, now, adapters, first, attempt, maxRetries, history, request)
    case _ => Ended(start, now, adapters, first, attempt, maxRetries, history, r)
  }

  /** One attempt, and its identity when it is uncertain. */
  method SubmitOnce(exchange: Venues, request: OrderRequest, history: seq<Identity>, ghost first: OrderRequest,
      ghost start: Trail, ghost attempt: nat, ghost maxRetries: nat)
    returns (r: LegResult, after: seq<Identity>)
    requires first.reduceOnly && 1 <= attempt <= maxRetries
    requires Attempted(start, exchange.Trail(), exchange.adapters, first, attempt - 1, maxRetries, history, request)
    modifies exchange
    ensures old(exchange.placements) <= exchange.placements
    ensures first.venue in exchange.adapters ==> Sends(old(exchange.placements), exchange.placements, request)
    ensures first.venue !in exchange.adapters ==>
              && r == LegResult(LegRejected, None, NoId, NoId, NO_REASON)
              && exchange.placements == old(exchange.placements)
    ensures AttemptMeans(start, exchange.Trail(), exchange.adapters, first, attempt, maxRetries, after, request, r)
  {
    ghost var before := exchange.Trail();
    r := SubmitCloseLeg(exchange, request);
    after := if r.outcome == LegUncertain then Remember(history, Identity(r.orderId, r.clientOrderId)) else history;
    AttemptAnswered(start, before, exchange.Trail(), exchange.adapters, first, attempt, maxRetries, history, after,
      request, r);
  }

  lemma AttemptAnswered(start: Trail, before: Trail, now: Trail, adapters: set<Venue>, first: OrderRequest,
      attempt: nat, maxRetries: nat, history: seq<Identity>, after: seq<Identity>, request: OrderRequest, r: LegResult)
    requires first.reduceOnly && 1 <= attempt <= maxRetries
    requires Attempted(start, before, adapters, first, attempt - 1, maxRetries, history, request)
    requires Closes(before, now, request, 1) && Answered(before, now, adapters, request, r)
    requires FillSound(before, now, r) && r.outcome != TerminalFlat
    requires Remembers(before, now, if r.outcome == LegUncertain then [Identity(r.orderId, r.clientOrderId)] else [])
    requires after == if r.outcome == LegUncertain then Remember(history, Identity(r.orderId, r.clientOrderId))
                      else history
    ensures AttemptMeans(start, now, adapters, first, attempt, maxRetries, after, request, r)
  {
    AttemptKept(start, before, now, first, attempt, history, after, request, r);
    if first.venue in adapters {
      assert now.placements == before.placements + [now.placements[|before.placements|]];
      OneMoreAttempt(start, before, now, first, request, attempt, maxRetries, now.placements[|before.placements|],
        r.fill);
      KeptWhenAllSuperseded(start, now, r, maxRetries);
    }
  }

  lemma AttemptKept(start: Trail, before: Trail, now: Trail, first: OrderRequest, attempt: nat,
      history: seq<Identity>, after: seq<Identity>, request: OrderRequest, r: LegResult)
    requires attempt >= 1 && Closes(start, before, first, attempt - 1) && Remembers(start, before, history)
    requires Reports(start, before, None)
    requires request == first.(quantity := request.quantity, clientOrderId := request.clientOrderId)
    requires Closes(before, now, request, 1) && Reports(before, now, r.fill) && FillSound(before, now, r)
    requires Remembers(before, now, if r.outcome == LegUncertain then [Identity(r.orderId, r.clientOrderId)] else [])
    requires after == if r.outcome == LegUncertain then Remember(history, Identity(r.orderId, r.clientOrderId))
                      else history
    requires r.outcome == LegUncertain ==> r.clientOrderId != NoId
    ensures Closes(start, now, first, attempt) && Remembers(start, now, after) && Reports(start, now, r.fill)
    ensures FillSound(start, now, r)
  {
    ClosesCompose(start, before, now, first, attempt - 1, 1);
    FillSoundExtends(start, before, now, r);
    RemembersCompose(start, before, now, history,
      if r.outcome == LegUncertain then [Identity(r.orderId, r.clientOrderId)] else [], after);
    assert forall k :: 0 <= k < |before.placements| ==> now.placements[k] == before.placements[k];
  }

  /** One more order supersedes the last reconciliation, and continues the chain. */
  lemma OneMoreAttempt(start: Trail, before: Trail, now: Trail, first: OrderRequest, request: OrderRequest, most: nat,
      maxRetries: nat, p: Placement, fill: Option<OrderFill>)
    requires most >= 1
    requires Extends(before, now) && now.placements == before.placements + [p] && now.reconciles == before.reconciles
    requires Closes(start, before, first, most - 1) && Closes(start, now, first, most)
    requires Chained(start, before, first) && NextFollows(start, before, first, request)
    requires Superseding(start, before, maxRetries) && Reports(start, before, None)
    requires p.phase == Closing && p.request == request && p.settled == |before.reconciles|
    requires Fills(p.result) <==> fill.Some?
    requires fill.Some? ==> p.result == Ack(fill.value)
    ensures Chained(start, now, first) && Superseding(start, now, maxRetries) && AllSuperseded(start, now)
    ensures SettlesLast(start, now, fill)
  {
    NextSupersedes(start, before, now, first, request, maxRetries, p);
    NextLinks(start, before, now, first, request, maxRetries, p);
    SupersededSettlesNothing(start, now, first, most);
  }

  lemma NextLinks(start: Trail, before: Trail, now: Trail, first: OrderRequest, request: OrderRequest,
      maxRetries: nat, p: Placement)
    requires Extends(start, before) && Extends(before, now)
    requires now.placements == before.placements + [p] && now.reconciles == before.reconciles
    requires Chained(start, before, first) && NextFollows(start, before, first, request)
    requires p.phase == Closing && p.request == request && p.settled == |before.reconciles|
    ensures Chained(start, now, first)
  {
    ChainedStays(start, before, now, first);
    var n := |before.placements|;
    assert now.placements[n] == p;
    assert LinksAt(start, now, first, n) by {
      if n > |start.placements| {
        assert now.placements[n - 1] == before.placements[n - 1];
        if p.settled != before.placements[n - 1].settled {
          AsksStays(before, now, before.placements[n - 1].settled);
        }
      }
    }
  }

  lemma NextSupersedes(start: Trail, before: Trail, now: Trail, first: OrderRequest, request: OrderRequest,
      maxRetries: nat, p: Placement)
    requires Extends(start, before) && Extends(before, now)
    requires now.placements == before.placements + [p] && now.reconciles == before.reconciles
    requires NextFollows(start, before, first, request) && Superseding(start, before, maxRetries)
    requires p.phase == Closing && p.request == request && p.settled == |before.reconciles|
    ensures Superseding(start, now, maxRetries) && AllSuperseded(start, now)
  {
    SupersedingStays(start, before, now, maxRetries);
    assert now.placements[|before.placements|] == p;
    forall k | |start.reconciles| <= k < |now.reconciles|
      ensures Superseded(now, k)
    {
      var f := before.reconciles[k];
      if !Superseded(before, k) {
        assert now.placements[f.orders - 1] == before.placements[f.orders - 1];
        assert before.placements[f.orders - 1].settled == k;
      }
    }
  }

  // ---------------------------------------------------------------------------------------------
  // What a retry asks for
  // ---------------------------------------------------------------------------------------------

  /** The lookup found all that was asked for, and the probe saw more than q live. */
  predicate FullWithMoreLive(f: Reconcile, q: real) {
    && Filled(f.lookup) > 0.0 && Filled(f.lookup) >= Max(Max(f.target, 0.0) - FLAT_EPS, 0.0)
    && f.probe.Snapshot? && f.probe.quantity > Max(q, FLAT_EPS)
  }

  /** A retry asks for more than the order before it, or any larger quantity, exactly when that order was found filled
      in full and more is live. */
  lemma RetryExceedsExactly(f: Reconcile, q: real)
    requires q >= 0.0 && f.target <= q
    ensures f.Result().ShouldRetry() && RetryQuantity(f.Result()) > q <==> FullWithMoreLive(f, q)
  {
  }

  /** An order for 5 whose client id was used before for 5, with 45 live: the retry asks for 45. */
  lemma StaleFullRetryAsksForAllLive(id: string)
    ensures var first := OrderRequest(Bybit, Buy, 5.0, true, 0.0, ClientOrderId(id, Exit(ShortLeg, 1)));
            var retry := first.(quantity := 45.0, clientOrderId := ClientOrderId(id, ExitDuplicate(ShortLeg, 2)));
            var duplicate := SubmitError(RejectedOrder, NoId, NoId, RejectReason(true, false, false, false, false));
            var start := TrailOf(map[Bybit := -45.0], [], [], []);
            var now := TrailOf(map[Bybit := 0.0],
              [Placement(Closing, first, Failed(duplicate), -45.0, 0, 0),
                  Placement(Closing, retry, Ack(OrderFill(45.0, 1.0, VenueId(3), NoId, None, 0)), -45.0, 1, 1)],
              [Reconcile(Closing, Bybit, 5.0, first.clientOrderId, FoundFill(5.0, 1.0, VenueId(2), NoId),
                  Snapshot(Sell, 45.0), -45.0, 1)],
              [Look(Closing, Bybit, Snapshot(Sell, 45.0))]);
            && Superseded(now, 0) && Chained(start, now, first) && FullWithMoreLive(now.reconciles[0], 5.0)
            && now.placements[1].request.quantity == 45.0
  {
  }

  /** An order for 10 whose client id was used before for 4: the retry for 6 fills, and every result the leg may
      report holds 6 of the 10 that were executed. */
  lemma RetryDropsReconciledQuantity(id: string)
    ensures var first := OrderRequest(Bybit, Sell, 10.0, true, 0.0, ClientOrderId(id, Exit(LongLeg, 0)));
            var retry := first.(quantity := 6.0, clientOrderId := ClientOrderId(id, ExitDuplicate(LongLeg, 2)));
            var duplicate := SubmitError(RejectedOrder, NoId, NoId, RejectReason(true, false, false, false, false));
            var fill := OrderFill(6.0, 1.0, VenueId(3), NoId, None, 0);
            var start := TrailOf(map[Bybit := 10.0], [], [], []);
            var now := TrailOf(map[Bybit := 0.0],
              [Placement(Closing, first, Failed(duplicate), 10.0, 0, 0),
                  Placement(Closing, retry, Ack(fill), 6.0, 1, 1)],
              [Reconcile(Closing, Bybit, 10.0, first.clientOrderId, FoundFill(4.0, 1.0, VenueId(2), NoId),
                  Snapshot(Buy, 6.0), 6.0, 1)],
              [Look(Closing, Bybit, Snapshot(Buy, 6.0))]);
            var d := now.reconciles[0].Result();
            && d.ShouldRetry() && d.reconciledQty == 4.0 && d.remainingQty == 6.0 && Superseded(now, 0)
            && Chained(start, now, first)
            && Judge(now, now.placements[1]) == LegFilled
            && forall r: LegResult :: Reports(start, now, r.fill) ==> r.fill == Some(fill)
  {
    var fill := OrderFill(6.0, 1.0, VenueId(3), NoId, None, 0);
    assert Fills(Ack(fill));
  }

  lemma RemembersCompose(a: Trail, b: Trail, c: Trail, first: seq<Identity>, second: seq<Identity>, all: seq<Identity>)
    requires Extends(a, b) && Extends(b, c)
    requires Remembers(a, b, first) && Remembers(b, c, second)
    requires forall i :: i in all <==> i in first || i in second
    ensures Remembers(a, c, all)
  {
    assert forall k :: 0 <= k < |b.placements| ==> c.placements[k] == b.placements[k];
  }
}
