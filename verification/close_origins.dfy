/** Which orders the legs on record came of, and when two legs came of one order. */
module CloseOrigins {
  import opened Domain
  import opened Exchange
  import opened CloseAccounting
  import opened CloseEvidence
  import opened CloseSubmission
  import opened CloseCompensation

  /** A close buys back the short leg and sells the long leg. */
  predicate OfLeg(p: Placement, facts: PositionFacts, leg: LegLabel) {
    p.phase == Closing
    && if leg == ShortLeg then p.request.venue == facts.shortVenue && p.request.side == Buy
       else p.request.venue == facts.longVenue && p.request.side == Sell
  }

  // ---------------------------------------------------------------------------------------------
  // Legs and orders
  // ---------------------------------------------------------------------------------------------

  /** An order of the close a leg came of is of that leg, and settled it if the leg closed anything. */
  predicate SettlesLeg(now: Trail, k: nat, facts: PositionFacts, leg: LegLabel, fill: OrderFill)
    requires k < |now.placements|
  {
    now.placements[k].phase == Closing ==>
      OfLeg(now.placements[k], facts, leg) && (fill.quantity > 0.0 ==> Settles(now, k))
  }

  ghost predicate Originate(start: Trail, now: Trail, facts: PositionFacts, leg: LegLabel, legs: seq<CloseLeg>,
      origins: seq<nat>) {
    && OriginsOf(start, now, legs, origins)
    && (forall i :: 0 <= i < |legs| ==> SettlesLeg(now, origins[i], facts, leg, legs[i].fill))
  }

  /** The order is among these, with a leg that closed something. */
  predicate HasLeg(legs: seq<CloseLeg>, origins: seq<nat>, k: nat)
    requires |origins| == |legs|
  {
    exists i :: 0 <= i < |legs| && origins[i] == k && legs[i].fill.quantity > 0.0
  }

  /** Every order since n that settled the leg has a leg. */
  predicate AllHaveLegs(n: nat, now: Trail, facts: PositionFacts, leg: LegLabel, legs: seq<CloseLeg>,
      origins: seq<nat>)
    requires |origins| == |legs|
  {
    forall k :: n <= k < |now.placements| && OfLeg(now.placements[k], facts, leg) && Settles(now, k) ==>
      HasLeg(legs, origins, k)
  }

  /** The legs on record came of orders of their own, and every order that settled the leg has its leg. */
  ghost predicate Attributed(start: Trail, now: Trail, facts: PositionFacts, leg: LegLabel, legs: seq<CloseLeg>) {
    exists origins ::
      Originate(start, now, facts, leg, legs, origins)
      && AllHaveLegs(|start.placements|, now, facts, leg, legs, origins)
  }

  /** What comes next settles nothing that was sent before: it begins with no retry under a new client id, and
      reconciles only what it sends, or what a compensation sent. */
  ghost predicate Begins(mid: Trail, now: Trail) {
    && Extends(mid, now)
    && (|mid.placements| < |now.placements| ==>
          !IsDuplicateId(now.placements[|mid.placements|].request.clientOrderId))
    && (forall k :: |mid.reconciles| <= k < |now.reconciles| ==>
          now.reconciles[k].orders > |mid.placements| || now.reconciles[k].phase == Compensating)
  }

  lemma SettlesStays(mid: Trail, now: Trail, k: nat)
    requires Begins(mid, now) && k < |mid.placements|
    ensures Settles(mid, k) <==> Settles(now, k)
  {
    var p := mid.placements[k];
    assert now.placements[k] == p;
    if p.settled < |mid.reconciles| {
      assert now.reconciles[p.settled] == mid.reconciles[p.settled];
      if LookedUp(mid, k) {
        assert k + 1 < |mid.placements| ==> now.placements[k + 1] == mid.placements[k + 1];
      }
    }
  }

  /** New legs of new orders are attributed like the old ones. */
  lemma AttributedGrows(start: Trail, mid: Trail, now: Trail, facts: PositionFacts, leg: LegLabel,
      legs: seq<CloseLeg>, more: seq<CloseLeg>, added: seq<nat>)
    requires Extends(start, mid) && Begins(mid, now) && Attributed(start, mid, facts, leg, legs)
    requires Originate(mid, now, facts, leg, more, added)
    requires AllHaveLegs(|mid.placements|, now, facts, leg, more, added)
    ensures Attributed(start, now, facts, leg, legs + more)
  {
    var origins :| Originate(start, mid, facts, leg, legs, origins)
                   && AllHaveLegs(|start.placements|, mid, facts, leg, legs, origins);
    OriginateGrows(start, mid, now, facts, leg, legs, origins, more, added);
    LegsGrow(start, mid, now, facts, leg, legs, origins, more, added);
  }

  lemma OriginateGrows(start: Trail, mid: Trail, now: Trail, facts: PositionFacts, leg: LegLabel,
      legs: seq<CloseLeg>, origins: seq<nat>, more: seq<CloseLeg>, added: seq<nat>)
    requires Extends(start, mid) && Begins(mid, now)
    requires Originate(start, mid, facts, leg, legs, origins) && Originate(mid, now, facts, leg, more, added)
    ensures Originate(start, now, facts, leg, legs + more, origins + added)
  {
    ComesOfStays(mid, now);
    forall i | 0 <= i < |legs|
      ensures ComesOf(now, origins[i], legs[i].fill) && SettlesLeg(now, origins[i], facts, leg, legs[i].fill)
    {
      assert ComesOf(mid, origins[i], legs[i].fill) && SettlesLeg(mid, origins[i], facts, leg, legs[i].fill);
      assert now.placements[origins[i]] == mid.placements[origins[i]];
      SettlesStays(mid, now, origins[i]);
    }
  }

  lemma LegsGrow(start: Trail, mid: Trail, now: Trail, facts: PositionFacts, leg: LegLabel,
      legs: seq<CloseLeg>, origins: seq<nat>, more: seq<CloseLeg>, added: seq<nat>)
    requires Begins(mid, now) && |origins| == |legs| && |added| == |more|
    requires AllHaveLegs(|start.placements|, mid, facts, leg, legs, origins)
    requires AllHaveLegs(|mid.placements|, now, facts, leg, more, added)
    ensures AllHaveLegs(|start.placements|, now, facts, leg, legs + more, origins + added)
  {
    forall k | |start.placements| <= k < |now.placements| && OfLeg(now.placements[k], facts, leg) && Settles(now, k)
      ensures HasLeg(legs + more, origins + added, k)
    {
      if k < |mid.placements| {
        assert now.placements[k] == mid.placements[k];
        SettlesStays(mid, now, k);
        var i :| 0 <= i < |legs| && origins[i] == k && legs[i].fill.quantity > 0.0;
        assert (origins + added)[i] == k && (legs + more)[i] == legs[i];
      } else {
        var i :| 0 <= i < |more| && added[i] == k && more[i].fill.quantity > 0.0;
        assert (origins + added)[|legs| + i] == k && (legs + more)[|legs| + i] == more[i];
      }
    }
  }

  // ---------------------------------------------------------------------------------------------
  // Orders under one client id
  // ---------------------------------------------------------------------------------------------

  predicate SameId(p: Placement, q: Placement) {
    p.request.clientOrderId == q.request.clientOrderId
  }

  /** A leg may come of the order. */
  predicate Delivers(now: Trail, k: nat)
    requires k < |now.placements|
  {
    now.placements[k].phase == Compensating || Settles(now, k)
  }

  /** The first order of a leg of a chunk. */
  predicate OpensLeg(p: Placement) {
    p.request.clientOrderId.ClientOrderId? && p.request.clientOrderId.stage.Exit?
  }

  /** Both orders are of the close, under the id of a retry, and another leg was begun between them. */
  predicate AskedAgain(now: Trail, j: nat, k: nat)
    requires j < k < |now.placements|
  {
    && now.placements[j].phase == now.placements[k].phase == Closing
    && IsDuplicateId(now.placements[k].request.clientOrderId)
    && exists m :: j < m < k && OpensLeg(now.placements[m])
  }

  /** No two orders legs may come of share a client id, unless a later leg asked again under the id of a retry. */
  ghost predicate Distinct(start: Trail, now: Trail) {
    forall j, k :: |start.placements| <= j < k < |now.placements| && Delivers(now, j) && Delivers(now, k)
                   && SameId(now.placements[j], now.placements[k]) ==>
      AskedAgain(now, j, k)
  }

  /** All orders since `start` are of the close; those that are no retries carry the number of a chunk below these. */
  ghost predicate Numbered(start: Trail, now: Trail, short: nat, long: nat) {
    forall k :: |start.placements| <= k < |now.placements| ==>
      NumberedBelow(now.placements[k], short, long)
  }

  predicate NumberedBelow(p: Placement, short: nat, long: nat) {
    p.phase == Closing
    && (IsDuplicateId(p.request.clientOrderId)
        || (OpensLeg(p)
            && p.request.clientOrderId.stage.chunk < if p.request.clientOrderId.stage.leg == ShortLeg then short
                                                     else long))
  }

  lemma DeliversStays(mid: Trail, now: Trail, k: nat)
    requires Begins(mid, now) && k < |mid.placements|
    ensures Delivers(mid, k) <==> Delivers(now, k)
  {
    SettlesStays(mid, now, k);
  }

  lemma AskedAgainStays(mid: Trail, now: Trail, j: nat, k: nat)
    requires Extends(mid, now) && j < k < |mid.placements| && AskedAgain(mid, j, k)
    ensures AskedAgain(now, j, k)
  {
    var m :| j < m < k && OpensLeg(mid.placements[m]);
    assert now.placements[m] == mid.placements[m];
    assert now.placements[j] == mid.placements[j] && now.placements[k] == mid.placements[k];
  }

  /** Old pairs stay as they are. */
  lemma DistinctStays(start: Trail, mid: Trail, now: Trail)
    requires Distinct(start, mid) && Begins(mid, now)
    ensures forall j, k :: |start.placements| <= j < k < |mid.placements| && Delivers(now, j) && Delivers(now, k)
                           && SameId(now.placements[j], now.placements[k]) ==>
              AskedAgain(now, j, k)
  {
    forall j, k | |start.placements| <= j < k < |mid.placements| && Delivers(now, j) && Delivers(now, k)
                  && SameId(now.placements[j], now.placements[k])
      ensures AskedAgain(now, j, k)
    {
      assert now.placements[j] == mid.placements[j] && now.placements[k] == mid.placements[k];
      DeliversStays(mid, now, j);
      DeliversStays(mid, now, k);
      AskedAgainStays(mid, now, j, k);
    }
  }

  // ---------------------------------------------------------------------------------------------
  // After a leg
  // ---------------------------------------------------------------------------------------------

  /** A leg of a chunk, submitted under its number; only its last order may have settled it. */
  ghost predicate LegTraced(mid: Trail, now: Trail, request: OrderRequest, fill: Option<OrderFill>) {
    && Begins(mid, now) && Chained(mid, now, request) && Idempotent(mid, now, request)
    && SettlesLast(mid, now, fill)
    && (forall k :: |mid.placements| <= k < |now.placements| ==> now.placements[k].phase == Closing)
  }

  predicate NumberedAt(request: OrderRequest, leg: LegLabel, chunk: nat) {
    request.clientOrderId.ClientOrderId? && request.clientOrderId.stage == Exit(leg, chunk)
  }

  lemma NumberedAfterLeg(start: Trail, mid: Trail, now: Trail, request: OrderRequest, fill: Option<OrderFill>,
      leg: LegLabel, chunk: nat, short: nat, long: nat)
    requires Numbered(start, mid, short, long) && LegTraced(mid, now, request, fill)
    requires NumberedAt(request, leg, chunk)
    ensures if leg == ShortLeg then Numbered(start, now, Larger(short, chunk + 1), long)
            else Numbered(start, now, short, Larger(long, chunk + 1))
  {
    forall k | |start.placements| <= k < |now.placements|
      ensures if leg == ShortLeg then NumberedBelow(now.placements[k], Larger(short, chunk + 1), long)
              else NumberedBelow(now.placements[k], short, Larger(long, chunk + 1))
    {
      if k < |mid.placements| {
        assert now.placements[k] == mid.placements[k] && NumberedBelow(mid.placements[k], short, long);
      }
    }
  }

  function Larger(a: nat, b: nat): nat {
    if a < b then b else a
  }

  /** A leg under a new chunk number shares a client id with an earlier one only through its retries. */
  lemma DistinctAfterLeg(start: Trail, mid: Trail, now: Trail, request: OrderRequest, fill: Option<OrderFill>,
      leg: LegLabel, chunk: nat, short: nat, long: nat)
    requires Distinct(start, mid) && Numbered(start, mid, short, long) && LegTraced(mid, now, request, fill)
    requires NumberedAt(request, leg, chunk) && chunk >= if leg == ShortLeg then short else long
    ensures Distinct(start, now)
  {
    DistinctStays(start, mid, now);
    forall j, k | |start.placements| <= j < k < |now.placements| && |mid.placements| <= k && Delivers(now, j)
                  && Delivers(now, k) && SameId(now.placements[j], now.placements[k])
      ensures AskedAgain(now, j, k)
    {
      assert k == |now.placements| - 1;
      assert j < |mid.placements|;
      assert now.placements[j] == mid.placements[j] && NumberedBelow(mid.placements[j], short, long);
      assert LinksAt(mid, now, request, |mid.placements|);
      assert OpensLeg(now.placements[|mid.placements|]);
    }
  }

  lemma AttributedAfterLeg(start: Trail, mid: Trail, now: Trail, facts: PositionFacts, leg: LegLabel, which: LegLabel,
      request: OrderRequest, fill: Option<OrderFill>, legs: seq<CloseLeg>, cid: Id)
    requires Extends(start, mid) && LegTraced(mid, now, request, fill) && Attributed(start, mid, facts, which, legs)
    requires forall k :: |mid.placements| <= k < |now.placements| ==>
        OfLeg(now.placements[k], facts, leg) && (which != leg ==> !OfLeg(now.placements[k], facts, which))
    ensures Attributed(start, now, facts, which,
        if which == leg && fill.Some? then legs + [CloseLeg(fill.value, cid)] else legs)
  {
    if which == leg && fill.Some? {
      var last := |now.placements| - 1;
      var more := [CloseLeg(fill.value, cid)];
      assert SettlesLeg(now, last, facts, which, more[0].fill);
      assert Originate(mid, now, facts, which, more, [last]);
      assert Settles(now, last) ==> HasLeg(more, [last], last) by {
        assert [last][0] == last;
      }
      AttributedGrows(start, mid, now, facts, which, legs, more, [last]);
    } else {
      assert Originate(mid, now, facts, which, [], []);
      AttributedGrows(start, mid, now, facts, which, legs, [], []);
      assert legs + [] == legs;
    }
  }

  // ---------------------------------------------------------------------------------------------
  // After a compensation
  // ---------------------------------------------------------------------------------------------

  /** A compensation sends its own orders under client ids of its own. */
  ghost predicate CompensationTraced(mid: Trail, now: Trail) {
    && Extends(mid, now) && NamedOnce(now.placements, |mid.placements|)
    && CompensatesFrom(now.placements, |mid.placements|)
    && (forall k :: |mid.reconciles| <= k < |now.reconciles| ==> now.reconciles[k].phase == Compensating)
  }

  lemma DistinctAfterCompensation(start: Trail, mid: Trail, now: Trail, short: nat, long: nat)
    requires Distinct(start, mid) && Numbered(start, mid, short, long) && CompensationTraced(mid, now)
    ensures Distinct(start, now)
  {
    CompensationBegins(mid, now);
    DistinctStays(start, mid, now);
    forall j, k | |start.placements| <= j < k < |now.placements| && |mid.placements| <= k
      ensures !SameId(now.placements[j], now.placements[k])
    {
      if j < |mid.placements| {
        assert now.placements[j] == mid.placements[j] && NumberedBelow(mid.placements[j], short, long);
        assert OfCompensation(now.placements[k].request.clientOrderId);
      }
    }
  }

  lemma CompensationBegins(mid: Trail, now: Trail)
    requires CompensationTraced(mid, now)
    ensures Begins(mid, now)
  {
    if |mid.placements| < |now.placements| {
      assert OfCompensation(now.placements[|mid.placements|].request.clientOrderId);
    }
  }

  lemma AttributedAfterCompensation(start: Trail, mid: Trail, now: Trail, facts: PositionFacts, leg: LegLabel,
      legs: seq<CloseLeg>, legs': seq<CloseLeg>)
    requires Extends(start, mid) && CompensationTraced(mid, now) && Attributed(start, mid, facts, leg, legs)
    requires legs <= legs' && Traced(mid, now, legs'[|legs|..])
    ensures Attributed(start, now, facts, leg, legs')
  {
    CompensationBegins(mid, now);
    var more := legs'[|legs|..];
    var added :| OriginsOf(mid, now, more, added);
    assert forall k :: |mid.placements| <= k < |now.placements| ==> Compensates(now.placements[k]);
    assert Originate(mid, now, facts, leg, more, added);
    AttributedGrows(start, mid, now, facts, leg, legs, more, added);
    assert legs + more == legs';
  }

  // ---------------------------------------------------------------------------------------------
  // One order on two legs
  // ---------------------------------------------------------------------------------------------

  /** Two legs that closed something came of orders under one client id. */
  ghost predicate OnTwoLegs(start: Trail, now: Trail, facts: PositionFacts, leg: LegLabel, legs: seq<CloseLeg>) {
    exists origins, i, j ::
      Originate(start, now, facts, leg, legs, origins) && OneOrder(now, legs, origins, i, j)
  }

  predicate OneOrder(now: Trail, legs: seq<CloseLeg>, origins: seq<nat>, i: nat, j: nat) {
    && |origins| == |legs| && i < j < |legs| && legs[i].fill.quantity > 0.0 && legs[j].fill.quantity > 0.0
    && origins[i] < |now.placements| && origins[j] < |now.placements|
    && SameId(now.placements[origins[i]], now.placements[origins[j]])
  }

  /** Two orders of the leg settled it under one client id: that of a retry, after which another leg was begun. */
  predicate SettledAgain(n: nat, now: Trail, facts: PositionFacts, leg: LegLabel) {
    exists j, k ::
      n <= j < k < |now.placements| && OfLeg(now.placements[j], facts, leg) && OfLeg(now.placements[k], facts, leg)
      && Settles(now, j) && Settles(now, k) && SameId(now.placements[j], now.placements[k]) && AskedAgain(now, j, k)
  }

  lemma OnTwoLegsWasSettledAgain(start: Trail, now: Trail, facts: PositionFacts, leg: LegLabel, legs: seq<CloseLeg>,
      origins: seq<nat>, i: nat, j: nat)
    requires Distinct(start, now)
    requires Originate(start, now, facts, leg, legs, origins) && OneOrder(now, legs, origins, i, j)
    ensures SettledAgain(|start.placements|, now, facts, leg)
  {
    assert SettlesLeg(now, origins[i], facts, leg, legs[i].fill);
    assert SettlesLeg(now, origins[j], facts, leg, legs[j].fill);
    assert AskedAgain(now, origins[i], origins[j]);
  }

  lemma SettledAgainIsOnTwoLegs(start: Trail, now: Trail, facts: PositionFacts, leg: LegLabel, legs: seq<CloseLeg>,
      origins: seq<nat>, j: nat, k: nat)
    requires Originate(start, now, facts, leg, legs, origins)
    requires HasLeg(legs, origins, j) && HasLeg(legs, origins, k)
    requires j < k < |now.placements| && SameId(now.placements[j], now.placements[k])
    ensures OnTwoLegs(start, now, facts, leg, legs)
  {
    var a :| 0 <= a < |legs| && origins[a] == j && legs[a].fill.quantity > 0.0;
    var b :| 0 <= b < |legs| && origins[b] == k && legs[b].fill.quantity > 0.0;
    assert OneOrder(now, legs, origins, a, b);
  }

  /** Whatever orders the legs may be said to come of: two of them came of one order if and only if a later leg sent
      the client id of a retry again, and both orders settled the leg. */
  lemma OnTwoLegsExactly(start: Trail, now: Trail, facts: PositionFacts, leg: LegLabel, legs: seq<CloseLeg>)
    requires Attributed(start, now, facts, leg, legs) && Distinct(start, now)
    ensures OnTwoLegs(start, now, facts, leg, legs) <==> SettledAgain(|start.placements|, now, facts, leg)
  {
    if OnTwoLegs(start, now, facts, leg, legs) {
      var origins, i, j :| Originate(start, now, facts, leg, legs, origins) && OneOrder(now, legs, origins, i, j);
      OnTwoLegsWasSettledAgain(start, now, facts, leg, legs, origins, i, j);
    } else if SettledAgain(|start.placements|, now, facts, leg) {
      var origins :| Originate(start, now, facts, leg, legs, origins)
                     && AllHaveLegs(|start.placements|, now, facts, leg, legs, origins);
      SettledAgainHasLegs(start, now, facts, leg, legs, origins);
    }
  }

  lemma SettledAgainHasLegs(start: Trail, now: Trail, facts: PositionFacts, leg: LegLabel, legs: seq<CloseLeg>,
      origins: seq<nat>)
    requires Originate(start, now, facts, leg, legs, origins)
    requires AllHaveLegs(|start.placements|, now, facts, leg, legs, origins)
    requires SettledAgain(|start.placements|, now, facts, leg)
    ensures OnTwoLegs(start, now, facts, leg, legs)
  {
    var j, k :|
      |start.placements| <= j < k < |now.placements| && OfLeg(now.placements[j], facts, leg)
      && OfLeg(now.placements[k], facts, leg) && Settles(now, j) && Settles(now, k)
      && SameId(now.placements[j], now.placements[k]) && AskedAgain(now, j, k);
    SettledAgainIsOnTwoLegs(start, now, facts, leg, legs, origins, j, k);
  }
}
