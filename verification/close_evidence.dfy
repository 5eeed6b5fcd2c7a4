/** What a run of orders proves: which fills and which unresolved orders must be on record, and what
    every entry on record rests on. */
module CloseEvidence {
  import opened Domain
  import opened Exchange
  import opened CloseAccounting

  /** The venue reported a fill worth counting. */
  predicate Reported(p: Placement) {
    p.result.Ack? && p.result.fill.quantity > QTY_EPS
  }

  /** The first order placed since `before` is this one. */
  predicate Sends(before: seq<Placement>, after: seq<Placement>, request: OrderRequest) {
    |before| < |after| && after[|before|].request == request
  }

  /** The fill is among the legs. */
  predicate Booked(legs: seq<CloseLeg>, fill: OrderFill) {
    exists leg :: leg in legs && leg.fill.orderId == fill.orderId && leg.fill.quantity == fill.quantity
                  && leg.fill.filledAt == fill.filledAt
  }

  predicate BookedFrom(placements: seq<Placement>, n: nat, venue: Venue, legs: seq<CloseLeg>) {
    forall k :: n <= k < |placements| && placements[k].request.venue == venue && Reported(placements[k]) ==>
      Booked(legs, placements[k].result.fill)
  }

  /** The quantity found for a duplicate client id is among the legs. */
  predicate BookedReconciled(legs: seq<CloseLeg>, d: DuplicateResult) {
    exists leg :: leg in legs && IsFound(leg.fill, d)
  }

  /** Every quantity found for a duplicate on the venue from index n on is among the legs. */
  predicate BookedReconcilesFrom(reconciles: seq<Reconcile>, n: nat, venue: Venue, legs: seq<CloseLeg>) {
    forall k ::
      n <= k < |reconciles| && reconciles[k].venue == venue && reconciles[k].Result().reconciledQty > FLAT_EPS ==>
      BookedReconciled(legs, reconciles[k].Result())
  }

  /** Since `before` an order was left unresolved, or a duplicate client id had to be reconciled. */
  ghost predicate Doubtful(before: Trail, after: Trail) {
    || (exists k :: |before.placements| <= k < |after.placements| && Uncertain(after.placements[k]))
    || |before.reconciles| < |after.reconciles|
  }

  // --- origins ---

  /** The fill came of this order: it was acknowledged, or found under its client id right after it was turned down;
      an order that was turned down as nothing was left to close comes to a fill of zero. */
  predicate ComesOf(t: Trail, k: nat, fill: OrderFill)
    requires k < |t.placements|
  {
    var p := t.placements[k];
    || p.result == Ack(fill)
    || (p.result.Failed?
        && (fill.quantity == 0.0 || (LookedUp(t, k) && IsFound(fill, t.reconciles[p.settled].Result()))))
  }

  predicate IsFound(fill: OrderFill, d: DuplicateResult) {
    fill.quantity == d.reconciledQty && fill.orderId == d.orderId
  }

  /** Every leg has an order of its own it came of: these, in the order in which they were sent. */
  predicate OriginsOf(before: Trail, after: Trail, legs: seq<CloseLeg>, origins: seq<nat>) {
    && |origins| == |legs|
    && (forall i :: 0 <= i < |legs| ==>
          |before.placements| <= origins[i] < |after.placements| && ComesOf(after, origins[i], legs[i].fill))
    && (forall i, j :: 0 <= i < j < |legs| ==> origins[i] < origins[j])
  }

  ghost predicate Traced(before: Trail, after: Trail, legs: seq<CloseLeg>) {
    exists origins :: OriginsOf(before, after, legs, origins)
  }

  lemma TracedNothing(before: Trail, after: Trail)
    ensures Traced(before, after, [])
  {
    assert OriginsOf(before, after, [], []);
  }

  lemma TracedStays(a: Trail, b: Trail, c: Trail, legs: seq<CloseLeg>)
    requires Extends(b, c) && Traced(a, b, legs)
    ensures Traced(a, c, legs)
  {
    var origins :| OriginsOf(a, b, legs, origins);
    ComesOfStays(b, c);
    assert OriginsOf(a, c, legs, origins);
  }

  lemma ComesOfStays(b: Trail, c: Trail)
    requires Extends(b, c)
    ensures forall k, fill :: 0 <= k < |b.placements| && ComesOf(b, k, fill) ==> ComesOf(c, k, fill)
  {
    forall k, fill | 0 <= k < |b.placements| && ComesOf(b, k, fill)
      ensures ComesOf(c, k, fill)
    {
      assert c.placements[k] == b.placements[k];
      assert LookedUp(b, k) ==> c.reconciles[b.placements[k].settled] == b.reconciles[b.placements[k].settled];
    }
  }

  lemma TracedCompose(a: Trail, b: Trail, c: Trail, first: seq<CloseLeg>, second: seq<CloseLeg>)
    requires Extends(a, b) && Extends(b, c) && Traced(a, b, first) && Traced(b, c, second)
    ensures Traced(a, c, first + second)
  {
    TracedStays(a, b, c, first);
    var origins1 :| OriginsOf(a, b, first, origins1);
    var origins2 :| OriginsOf(b, c, second, origins2);
    ComesOfStays(b, c);
    assert OriginsOf(a, c, first + second, origins1 + origins2);
  }

  // --- quantities ---

  /** What the venue acknowledged as filled. */
  function Acked(placements: seq<Placement>, venue: Venue): real {
    if placements == [] then 0.0
    else
      var last := placements[|placements| - 1];
      Acked(placements[..|placements| - 1], venue)
      + if last.request.venue == venue && last.result.Ack?
        && last.result.fill.quantity > 0.0 then last.result.fill.quantity else 0.0
  }

  /** What was found for duplicate client ids on the venue. */
  function Found(reconciles: seq<Reconcile>, venue: Venue): real {
    if reconciles == [] then 0.0
    else
      var last := reconciles[|reconciles| - 1];
      Found(reconciles[..|reconciles| - 1], venue) + if last.venue == venue then last.Result().reconciledQty else 0.0
  }

  function Credit(t: Trail, venue: Venue): real {
    Acked(t.placements, venue) + Found(t.reconciles, venue)
  }

  lemma {:induction false} AckedGrows(before: seq<Placement>, after: seq<Placement>, venue: Venue)
    requires before <= after
    ensures Acked(before, venue) <= Acked(after, venue)
    ensures forall k ::
        |before| <= k < |after| && after[k].request.venue == venue && after[k].result.Ack?
          && after[k].result.fill.quantity > 0.0 ==>
              Acked(before, venue) + after[k].result.fill.quantity <= Acked(after, venue)
    decreases |after|
  {
    if |before| == |after| {
      assert before == after;
    } else {
      AckedGrows(before, after[..|after| - 1], venue);
    }
  }

  lemma {:induction false} FoundGrows(before: seq<Reconcile>, after: seq<Reconcile>, venue: Venue)
    requires before <= after
    ensures Found(before, venue) <= Found(after, venue)
    ensures forall k :: |before| <= k < |after| && after[k].venue == venue ==>
              Found(before, venue) + after[k].Result().reconciledQty <= Found(after, venue)
    decreases |after|
  {
    if |before| == |after| {
      assert before == after;
    } else {
      FoundGrows(before, after[..|after| - 1], venue);
    }
  }

  lemma CreditGrows(before: Trail, after: Trail)
    requires Extends(before, after)
    ensures forall v :: Credit(before, v) <= Credit(after, v)
  {
    forall v
      ensures Credit(before, v) <= Credit(after, v)
    {
      AckedGrows(before.placements, after.placements, v);
      FoundGrows(before.reconciles, after.reconciles, v);
    }
  }

  /** What was acknowledged is gone from the positions. */
  ghost predicate Conserves(before: Trail, after: Trail) {
    forall v ::
      Acked(after.placements, v) - Acked(before.placements, v) <= Abs(Live(before.book, v)) - Abs(Live(after.book, v))
  }

  lemma ConservesWithoutOrders(before: Trail, after: Trail)
    requires Extends(before, after) && before.placements == after.placements
    ensures Conserves(before, after)
  {
    forall v
      ensures Abs(Live(after.book, v)) <= Abs(Live(before.book, v))
    {
      assert Closer(Live(after.book, v), Live(before.book, v));
    }
  }

  lemma ConservesOneOrder(before: Trail, after: Trail, p: Placement)
    requires Extends(before, after) && after.placements == before.placements + [p]
    requires p.result.Ack? && p.result.fill.quantity > 0.0 ==>
               Abs(Live(after.book, p.request.venue)) <= Abs(Live(before.book,
                   p.request.venue)) - p.result.fill.quantity
    ensures Conserves(before, after)
  {
    assert after.placements[..|after.placements| - 1] == before.placements;
    forall v
      ensures Abs(Live(after.book, v)) <= Abs(Live(before.book, v))
    {
      assert Closer(Live(after.book, v), Live(before.book, v));
    }
  }

  lemma ConservesCompose(a: Trail, b: Trail, c: Trail)
    requires Conserves(a, b) && Conserves(b, c)
    ensures Conserves(a, c)
  {
  }

  /** Every order sent to the venue since `before` is on record if it filled or is unresolved, and
      no more is on record than happened. */
  ghost predicate Evidence(before: Trail, after: Trail, venue: Venue, legs: seq<CloseLeg>, identities: seq<Identity>) {
    && KeptFrom(after.placements, |before.placements|, venue, identities)
    && BookedFrom(after.placements, |before.placements|, venue, legs)
    && BookedReconcilesFrom(after.reconciles, |before.reconciles|, venue, legs)
    && Sum(legs, QTY) <= Credit(after, venue) - Credit(before, venue)
    && (identities != [] ==> Doubtful(before, after))
  }

  /** The lists grew, by entries that rest on what happened since `before`. */
  ghost predicate Adds(before: Trail, after: Trail, legs: seq<CloseLeg>, legs': seq<CloseLeg>, ids: seq<Identity>,
      ids': seq<Identity>) {
    && legs <= legs' && ids <= ids'
    && Traced(before, after, legs'[|legs|..])
    && (ids' != ids ==> Doubtful(before, after))
  }

  lemma DoubtExtends(a: Trail, b: Trail, c: Trail)
    requires Extends(a, b) && Extends(b, c)
    ensures Doubtful(a, b) || Doubtful(b, c) ==> Doubtful(a, c)
  {
    assert forall k :: 0 <= k < |b.placements| ==> c.placements[k] == b.placements[k];
    assert forall k :: 0 <= k < |b.reconciles| ==> c.reconciles[k] == b.reconciles[k];
  }

  /** More legs hold no fewer fills. */
  predicate Includes(all: seq<CloseLeg>, some: seq<CloseLeg>) {
    forall leg :: leg in some ==> Booked(all, leg.fill)
  }

  lemma BookedInMore(all: seq<CloseLeg>, some: seq<CloseLeg>)
    requires Includes(all, some)
    ensures forall fill :: Booked(some, fill) ==> Booked(all, fill)
    ensures forall d :: BookedReconciled(some, d) ==> BookedReconciled(all, d)
  {
    forall d | BookedReconciled(some, d)
      ensures BookedReconciled(all, d)
    {
      var leg :| leg in some && IsFound(leg.fill, d);
      assert Booked(all, leg.fill);
    }
  }

  lemma EvidenceCompose(a: Trail, b: Trail, c: Trail, venue: Venue, legs1: seq<CloseLeg>, ids1: seq<Identity>,
      legs2: seq<CloseLeg>, ids2: seq<Identity>, legs: seq<CloseLeg>, ids: seq<Identity>)
    requires Extends(a, b) && Extends(b, c)
    requires Evidence(a, b, venue, legs1, ids1) && Evidence(b, c, venue, legs2, ids2)
    requires Includes(legs, legs1) && Includes(legs, legs2)
    requires forall i :: (i in ids1 || i in ids2) && i.Known() ==> i in ids
    requires ids != [] ==> ids1 != [] || ids2 != []
    requires Sum(legs, QTY) <= Sum(legs1, QTY) + Sum(legs2, QTY)
    requires forall k :: |a.placements| <= k < |c.placements| ==> c.placements[k].request.clientOrderId != NoId
    ensures Evidence(a, c, venue, legs, ids)
  {
    DoubtExtends(a, b, c);
    BookedInMore(legs, legs1);
    BookedInMore(legs, legs2);
    KnownByClientId(c.placements, |a.placements|);
    assert forall k :: 0 <= k < |b.placements| ==> c.placements[k] == b.placements[k];
    assert forall k :: 0 <= k < |b.reconciles| ==> c.reconciles[k] == b.reconciles[k];
  }

  lemma KnownByClientId(placements: seq<Placement>, n: nat)
    requires forall k :: n <= k < |placements| ==> placements[k].request.clientOrderId != NoId
    ensures forall k :: n <= k < |placements| ==> IdentityOf(placements[k]).Known()
  {
  }

  lemma AddsCompose(a: Trail, b: Trail, c: Trail, legs1: seq<CloseLeg>, legs2: seq<CloseLeg>, legs3: seq<CloseLeg>,
      ids1: seq<Identity>, ids2: seq<Identity>, ids3: seq<Identity>)
    requires Extends(a, b) && Extends(b, c)
    requires Adds(a, b, legs1, legs2, ids1, ids2) && Adds(b, c, legs2, legs3, ids2, ids3)
    ensures Adds(a, c, legs1, legs3, ids1, ids3)
  {
    DoubtExtends(a, b, c);
    TracedCompose(a, b, c, legs2[|legs1|..], legs3[|legs2|..]);
    assert legs3[|legs1|..] == legs2[|legs1|..] + legs3[|legs2|..];
  }
}
