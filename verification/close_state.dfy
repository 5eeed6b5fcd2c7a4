/** The objects a close updates: the journal, the engine state, the position and the two leg ledgers;
    and the registration of a close whose bill is not complete. */
module CloseState {
  import opened Domain
  import opened CloseAccounting
  import opened CloseRecords
  import opened ReconciliationQueue

  // ---------------------------------------------------------------------------------------------
  // Objects
  // ---------------------------------------------------------------------------------------------

  datatype JournalEvent =
    | ExitClosed(positionId: string, longClosed: real, shortClosed: real, longUncertain: bool, shortUncertain: bool,
        net: real)
    | PartialClosed(positionId: string, remaining: real, evidenceComplete: bool)
    | BillingEvidenceUnavailable(positionId: string, gaps: seq<Gap>)
    | ReconciliationRegistered(reconciliation: Reconciliation)
    | CompensationFailed(venue: Venue)
    | CloseFailed(positionId: string)

  class Journal {
    var events: seq<JournalEvent>

    constructor ()
      ensures events == []
    {
      events := [];
    }

    method Append(event: JournalEvent)
      modifies this
      ensures events == old(events) + [event]
    {
      events := events + [event];
    }
  }

  datatype PendingClose = PendingClose(positionId: string, longClosed: real, shortClosed: real, longUncertain: bool,
      shortUncertain: bool)

  class EngineState {
    var failClosed: bool
    var openPositions: set<string>
    var pendingCloses: map<(string, int), PendingClose>
    var queue: seq<Item>
    var residualRepairs: seq<ResidualTask>

    constructor (openPositions: set<string>)
      ensures !failClosed && this.openPositions == openPositions && pendingCloses == map[]
      ensures queue == [] && residualRepairs == []
    {
      failClosed, this.openPositions, pendingCloses := false, openPositions, map[];
      queue, residualRepairs := [], [];
    }

    /** enqueue_pending_close_reconciliation. */
    method EnqueueReconciliation(item: Item)
      modifies this`queue
      ensures queue == Enqueued(old(queue), item)
    {
      queue := Enqueue(queue, item);
    }
  }

  /** What is on record for one leg of a close, and whether it is in doubt. */
  datatype LegView = LegView(legs: seq<CloseLeg>, identities: seq<Identity>, inDoubt: bool)

  /** The shared lists of one leg of a close. Compensation appends to the lists of the close it repairs. */
  class LegLedger {
    var legs: seq<CloseLeg>
    var identities: seq<Identity>
    var clientOrderIds: seq<Id>
    var uncertain: bool

    constructor ()
      ensures legs == [] && identities == [] && clientOrderIds == [] && !uncertain
    {
      legs, identities, clientOrderIds, uncertain := [], [], [], false;
    }

    predicate Unresolved()
      reads this
    {
      uncertain || identities != []
    }

    function View(): LegView
      reads this
    {
      LegView(legs, identities, Unresolved())
    }
  }

  /** What closes for risk, and for protection, have realized. */
  datatype Buckets = Buckets(riskPnl: real, riskFee: real, protectionPnl: real, protectionFee: real)

  predicate StartsWith(s: string, prefix: string) {
    |prefix| <= |s| && s[..|prefix|] == prefix
  }

  predicate Contains(s: string, part: string) {
    exists i :: 0 <= i <= |s| && StartsWith(s[i..], part)
  }

  predicate IsRiskReason(reason: string) {
    StartsWith(reason, "risk_delever")
  }

  predicate IsProtectionReason(reason: string) {
    && !IsRiskReason(reason)
    && (Contains(reason, "single_side_protection") || Contains(reason, "death_protection")
        || StartsWith(reason, "protection_") || StartsWith(reason, "risk_protection"))
  }

  /** Adds what a close with complete evidence realizes to the bucket its reason names, if any. */
  function Bucketed(b: Buckets, reason: string, close: CloseExecution, evidenceComplete: bool): Buckets {
    var fee := close.longFee + close.shortFee;
    if !evidenceComplete then b
    else if IsRiskReason(reason) then b.(riskPnl := b.riskPnl + close.realizedPricePnl, riskFee := b.riskFee + fee)
    else if IsProtectionReason(reason) then
      b.(protectionPnl := b.protectionPnl + close.realizedPricePnl, protectionFee := b.protectionFee + fee)
    else b
  }

  /** What is realized outside the buckets changes only by closes of another reason. */
  lemma BucketsShareRealized(b: Buckets, h: Holding, reason: string, close: CloseExecution, longClosed: real,
      shortClosed: real, complete: bool)
    ensures var b', h' := Bucketed(b, reason, close, complete), ApplyClose(h, close, longClosed, shortClosed, complete);
            var ordinary := complete && !IsRiskReason(reason) && !IsProtectionReason(reason);
            && h'.realizedPricePnl - b'.riskPnl - b'.protectionPnl ==
               h.realizedPricePnl - b.riskPnl - b.protectionPnl + (if ordinary then close.realizedPricePnl else 0.0)
            && h'.realizedExitFee - b'.riskFee - b'.protectionFee ==
               h.realizedExitFee - b.riskFee - b.protectionFee + (if ordinary then close.longFee + close.shortFee
               else 0.0)
  {
  }

  class OpenPosition {
    const facts: PositionFacts
    var matchedQuantity: real
    var longQuantity: real
    var shortQuantity: real
    var realizedPricePnl: real
    var realizedExitFee: real
    var currentNet: real
    var buckets: Buckets
    var lastRiskActionAt: int

    constructor (facts: PositionFacts, holding: Holding)
      ensures this.facts == facts && Held() == holding
      ensures buckets == Buckets(0.0, 0.0, 0.0, 0.0) && lastRiskActionAt == 0
    {
      this.facts := facts;
      matchedQuantity, longQuantity, shortQuantity := holding.matched, holding.longQty, holding.shortQty;
      realizedPricePnl, realizedExitFee := holding.realizedPricePnl, holding.realizedExitFee;
      currentNet := holding.currentNet;
      buckets, lastRiskActionAt := Buckets(0.0, 0.0, 0.0, 0.0), 0;
    }

    function Held(): Holding
      reads this
    {
      Holding(matchedQuantity, longQuantity, shortQuantity, realizedPricePnl, realizedExitFee, currentNet)
    }
  }

  // ---------------------------------------------------------------------------------------------
  // Registration
  // ---------------------------------------------------------------------------------------------

  function Placeholder(venue: Venue, identity: Identity): LegRecord {
    LegRecord(venue, identity.orderId, identity.clientOrderId, 0.0, 0.0, Some(0.0), 0)
  }

  /** From index n on, only placeholders of the venue, none repeating an order id. */
  predicate Extension(all: seq<LegRecord>, venue: Venue, n: nat) {
    && (forall r :: r in all ==> r.venue == venue)
    && (forall k :: n <= k < |all| ==> IsPlaceholder(all[k], venue))
    && (forall j, k :: 0 <= j < k < |all| && n <= k && all[k].orderId != NoId ==> all[j].orderId != all[k].orderId)
  }

  lemma AddedIds(all: seq<LegRecord>, record: LegRecord)
    ensures OrderIds(all + [record]) == OrderIds(all) + {record.orderId}
    ensures ClientOrderIds(all + [record]) == ClientOrderIds(all) + {record.clientOrderId}
  {
    assert all <= all + [record] && record in all + [record];
    assert forall r :: r in all ==> r in all + [record];
  }

  lemma AppendPlaceholder(all: seq<LegRecord>, venue: Venue, n: nat, identity: Identity)
    requires Extension(all, venue, n)
    requires identity.orderId != NoId ==> identity.orderId !in OrderIds(all)
    ensures Extension(all + [Placeholder(venue, identity)], venue, n)
    ensures Answers(all + [Placeholder(venue, identity)], identity)
    ensures forall i :: Answers(all, i) ==> Answers(all + [Placeholder(venue, identity)], i)
    ensures OrderIds(all + [Placeholder(venue, identity)]) == OrderIds(all) + {identity.orderId}
    ensures ClientOrderIds(all + [Placeholder(venue, identity)]) == ClientOrderIds(all) + {identity.clientOrderId}
  {
    AddedIds(all, Placeholder(venue, identity));
  }

  predicate FromIdentities(all: seq<LegRecord>, n: nat, identities: seq<Identity>, clientOrderIds: seq<Id>) {
    forall k :: n <= k < |all| ==>
      Identity(all[k].orderId, all[k].clientOrderId) in identities
      || (all[k].orderId == NoId && all[k].clientOrderId in clientOrderIds)
  }

  /** First loop of _append_unresolved_close_submission_identities. */
  method AppendIdentities(records: seq<LegRecord>, venue: Venue, identities: seq<Identity>)
    returns (all: seq<LegRecord>)
    requires forall r :: r in records ==> r.venue == venue
    ensures records <= all && Extension(all, venue, |records|)
    ensures FromIdentities(all, |records|, identities, [])
    ensures forall i :: i in identities && i.Known() ==> Answers(all, i)
  {
    all := records;
    var knownClientOrderIds := ClientOrderIds(records);
    var knownOrderIds := OrderIds(records);
    for n := 0 to |identities|
      invariant records <= all && Extension(all, venue, |records|)
      invariant FromIdentities(all, |records|, identities, [])
      invariant knownClientOrderIds == ClientOrderIds(all)
      invariant knownOrderIds == OrderIds(all)
      invariant forall k :: 0 <= k < n && identities[k].Known() ==> Answers(all, identities[k])
    {
      var i := identities[n];
      if i.orderId == NoId && (i.clientOrderId == NoId || i.clientOrderId in knownClientOrderIds) {
        continue;
      }
      if i.orderId != NoId && i.orderId in knownOrderIds {
        continue;
      }
      AppendPlaceholder(all, venue, |records|, i);
      all := all + [Placeholder(venue, i)];
      knownClientOrderIds := knownClientOrderIds + {i.clientOrderId};
      knownOrderIds := knownOrderIds + {i.orderId};
    }
  }

  /** Its second loop. */
  method AppendClientOrderIds(records: seq<LegRecord>, venue: Venue, clientOrderIds: seq<Id>)
    returns (all: seq<LegRecord>)
    requires forall r :: r in records ==> r.venue == venue
    ensures records <= all && Extension(all, venue, |records|)
    ensures FromIdentities(all, |records|, [], clientOrderIds)
    ensures forall c :: c in clientOrderIds && c != NoId ==> Answers(all, Identity(NoId, c))
    ensures forall i :: Answers(records, i) ==> Answers(all, i)
    ensures forall k :: |records| <= k < |all| ==> all[k].orderId == NoId
  {
    all := records;
    var knownClientOrderIds := ClientOrderIds(records);
    for n := 0 to |clientOrderIds|
      invariant records <= all && Extension(all, venue, |records|)
      invariant FromIdentities(all, |records|, [], clientOrderIds)
      invariant knownClientOrderIds == ClientOrderIds(all)
      invariant forall i :: Answers(records, i) ==> Answers(all, i)
      invariant forall k :: 0 <= k < n && clientOrderIds[k] != NoId ==> Answers(all, Identity(NoId, clientOrderIds[k]))
      invariant forall k :: |records| <= k < |all| ==> all[k].orderId == NoId
    {
      var c := clientOrderIds[n];
      if c == NoId || c in knownClientOrderIds {
        continue;
      }
      AppendPlaceholder(all, venue, |records|, Identity(NoId, c));
      all := all + [Placeholder(venue, Identity(NoId, c))];
      knownClientOrderIds := knownClientOrderIds + {c};
    }
  }

  method AppendUnresolvedSubmissions(records: seq<LegRecord>, venue: Venue, clientOrderIds: seq<Id>,
      identities: seq<Identity>)
    returns (all: seq<LegRecord>, appended: bool)
    requires forall r :: r in records ==> r.venue == venue
    ensures records <= all && (appended <==> |records| < |all|)
    ensures Extension(all, venue, |records|)
    ensures FromIdentities(all, |records|, identities, clientOrderIds)
    ensures forall i :: i in identities && i.Known() ==> Answers(all, i)
    ensures forall c :: c in clientOrderIds && c != NoId ==> Answers(all, Identity(NoId, c))
  {
    var some := AppendIdentities(records, venue, identities);
    all := AppendClientOrderIds(some, venue, clientOrderIds);
    appended := |records| < |all|;
  }

  /** What was registered for a close that filled these legs and left these submissions unresolved. */
  predicate Describes(r: Reconciliation, facts: PositionFacts, holding: Holding,
      longLegs: seq<CloseLeg>, shortLegs: seq<CloseLeg>, gaps: seq<Gap>,
      longCids: seq<Id>, shortCids: seq<Id>, longIds: seq<Identity>, shortIds: seq<Identity>)
  {
    && r.positionId == facts.positionId && r.snapshot == holding && r.gaps == gaps
    && r.longClosed == Sum(longLegs, QTY) && r.shortClosed == Sum(shortLegs, QTY)
    && (r.final <==> holding.longQty - r.longClosed <= QTY_EPS && holding.shortQty - r.shortClosed <= QTY_EPS)
    && r.ownedLong == (if r.final then Max(holding.longQty, 0.0) else r.longClosed)
    && r.ownedShort == (if r.final then Max(holding.shortQty, 0.0) else r.shortClosed)
    && Complete(r.longRecords, facts.longVenue, longLegs, longCids, longIds)
    && Complete(r.shortRecords, facts.shortVenue, shortLegs, shortCids, shortIds)
    && (LongLeg in r.unresolvedLegs <==> |r.longRecords| > |LegRecords(facts.longVenue, longLegs)|)
    && (ShortLeg in r.unresolvedLegs <==> |r.shortRecords| > |LegRecords(facts.shortVenue, shortLegs)|)
  }

  /** The records of both legs, and the reconciliation made of them. */
  method DescribeClose(position: OpenPosition, longLedger: LegLedger, shortLedger: LegLedger, now: int, source: Source,
      gaps: seq<Gap>)
    returns (r: Reconciliation)
    ensures r.source == source && r.closedAt == now
    ensures Describes(r, position.facts, position.Held(), longLedger.legs, shortLedger.legs, gaps,
              longLedger.clientOrderIds, shortLedger.clientOrderIds, longLedger.identities, shortLedger.identities)
  {
    var facts := position.facts;
    LegRecordsAreOfVenue(facts.longVenue, longLedger.legs);
    LegRecordsAreOfVenue(facts.shortVenue, shortLedger.legs);
    var unresolved := [];
    var longRecords, longAppended := AppendUnresolvedSubmissions(
      LegRecords(facts.longVenue, longLedger.legs), facts.longVenue, longLedger.clientOrderIds, longLedger.identities);
    if longAppended {
      unresolved := unresolved + [LongLeg];
    }
    var shortRecords, shortAppended := AppendUnresolvedSubmissions(
      LegRecords(facts.shortVenue,
          shortLedger.legs), facts.shortVenue, shortLedger.clientOrderIds, shortLedger.identities);
    if shortAppended {
      unresolved := unresolved + [ShortLeg];
    }
    var longClosed := Sum(longLedger.legs, QTY);
    var shortClosed := Sum(shortLedger.legs, QTY);
    var remainingLong := Max(position.longQuantity - longClosed, 0.0);
    var remainingShort := Max(position.shortQuantity - shortClosed, 0.0);
    var final := remainingLong <= QTY_EPS && remainingShort <= QTY_EPS;
    r := Reconciliation(facts.positionId, final, source, now, position.Held(), gaps, longClosed, shortClosed,
      if final then Max(position.longQuantity, 0.0) else longClosed,
      if final then Max(position.shortQuantity, 0.0) else shortClosed,
      longRecords, shortRecords, unresolved);
  }

  /** register_close_accounting_reconciliation: the journal always records the close; the queue takes it up, or not. */
  method RegisterReconciliation(state: EngineState, journal: Journal, position: OpenPosition,
      longLedger: LegLedger, shortLedger: LegLedger, now: int, source: Source, gaps: seq<Gap>)
    returns (r: Reconciliation)
    modifies state`queue, journal
    ensures journal.events == old(journal.events) + [ReconciliationRegistered(r)]
    ensures state.queue == Enqueued(old(state.queue), ItemOf(r))
    ensures r.source == source && r.closedAt == now
    ensures Describes(r, position.facts, position.Held(), longLedger.legs, shortLedger.legs, gaps,
              longLedger.clientOrderIds, shortLedger.clientOrderIds, longLedger.identities, shortLedger.identities)
  {
    r := DescribeClose(position, longLedger, shortLedger, now, source, gaps);
    journal.Append(ReconciliationRegistered(r));
    state.EnqueueReconciliation(ItemOf(r));
  }
}
