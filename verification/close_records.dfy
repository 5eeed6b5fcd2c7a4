/** What is recorded of a close whose bill is not complete. */
module CloseRecords {
  import opened Domain
  import opened CloseAccounting

  // ---------------------------------------------------------------------------------------------
  // Reconciliation records
  // ---------------------------------------------------------------------------------------------

  datatype LegRecord = LegRecord(
    venue: Venue,
    orderId: Id,
    clientOrderId: Id,
    quantity: real,
    price: real,
    fee: Option<real>,
    filledAt: int)

  datatype Source = CloseExecutionSource | CompensationTruthUnavailable

  datatype Reconciliation = Reconciliation(
    positionId: string,
    final: bool,
    source: Source,
    closedAt: int,
    snapshot: Holding,
    gaps: seq<Gap>,
    longClosed: real,
    shortClosed: real,
    ownedLong: real,
    ownedShort: real,
    longRecords: seq<LegRecord>,
    shortRecords: seq<LegRecord>,
    unresolvedLegs: seq<LegLabel>)

  /** The records of the legs that closed anything. */
  function LegRecords(venue: Venue, legs: seq<CloseLeg>): seq<LegRecord> {
    if legs == [] then []
    else
      var last := legs[|legs| - 1];
      LegRecords(venue, legs[..|legs| - 1])
      + if Counted(last) then
          [LegRecord(venue, last.fill.orderId, last.RecordedClientOrderId(), last.fill.quantity,
             last.fill.price, last.fill.fee, last.fill.filledAt)]
        else []
  }

  function RecordedQty(records: seq<LegRecord>): real {
    if records == [] then 0.0
    else RecordedQty(records[..|records| - 1]) + records[|records| - 1].quantity
  }

  function OrderIds(records: seq<LegRecord>): set<Id> {
    set r | r in records :: r.orderId
  }

  function ClientOrderIds(records: seq<LegRecord>): set<Id> {
    set r | r in records :: r.clientOrderId
  }

  /** Some record answers for the identity: by order id if it has one, else by client id. */
  predicate Answers(records: seq<LegRecord>, identity: Identity) {
    if identity.orderId != NoId then identity.orderId in OrderIds(records)
    else identity.clientOrderId in ClientOrderIds(records)
  }

  predicate IsPlaceholder(r: LegRecord, venue: Venue) {
    r == LegRecord(venue, r.orderId, r.clientOrderId, 0.0, 0.0, Some(0.0), 0)
  }

  /** The records are those of the filled legs followed by placeholders, answer for every identity and
      every client id, and repeat no exchange order id in a placeholder. */
  predicate Complete(records: seq<LegRecord>, venue: Venue, legs: seq<CloseLeg>, clientOrderIds: seq<Id>,
      identities: seq<Identity>) {
    && LegRecords(venue, legs) <= records
    && (forall r :: r in records ==> r.venue == venue)
    && (forall k :: |LegRecords(venue, legs)| <= k < |records| ==> IsPlaceholder(records[k], venue))
    && (forall i :: i in identities && i.Known() ==> Answers(records, i))
    && (forall c :: c in clientOrderIds && c != NoId ==> Answers(records, Identity(NoId, c)))
    && (forall j, k :: 0 <= j < k < |records| && |LegRecords(venue, legs)| <= k && records[k].orderId != NoId
          ==> records[j].orderId != records[k].orderId)
  }

  lemma {:induction false} LegRecordsAreOfVenue(venue: Venue, legs: seq<CloseLeg>)
    ensures forall r :: r in LegRecords(venue, legs) ==> r.venue == venue && r.quantity > QTY_EPS
  {
    if legs != [] {
      LegRecordsAreOfVenue(venue, legs[..|legs| - 1]);
    }
  }

  /** Placeholders change no closed quantity: the records add up to the counted legs. */
  lemma {:induction false} PlaceholdersCloseNothing(records: seq<LegRecord>, venue: Venue, n: nat)
    requires n <= |records|
    requires forall k :: n <= k < |records| ==> IsPlaceholder(records[k], venue)
    ensures RecordedQty(records) == RecordedQty(records[..n])
    decreases |records|
  {
    if n == |records| {
      assert records[..n] == records;
    } else {
      var init := records[..|records| - 1];
      PlaceholdersCloseNothing(init, venue, n);
      assert init[..n] == records[..n];
    }
  }

  lemma {:induction false} LegRecordsAddUp(venue: Venue, legs: seq<CloseLeg>)
    ensures RecordedQty(LegRecords(venue, legs))
            == Sum(legs, (leg: CloseLeg) => if Counted(leg) then leg.fill.quantity else 0.0)
  {
    if legs != [] {
      LegRecordsAddUp(venue, legs[..|legs| - 1]);
      var rest := LegRecords(venue, legs[..|legs| - 1]);
      if Counted(legs[|legs| - 1]) {
        assert LegRecords(venue, legs)[..|LegRecords(venue, legs)| - 1] == rest;
      } else {
        assert LegRecords(venue, legs) == rest;
      }
    }
  }

  /** What a registered reconciliation says was closed is what the filled legs say. */
  lemma RegisteredQuantityIsFilledQuantity(records: seq<LegRecord>, venue: Venue, legs: seq<CloseLeg>,
      clientOrderIds: seq<Id>, identities: seq<Identity>)
    requires Complete(records, venue, legs, clientOrderIds, identities)
    ensures RecordedQty(records) == Sum(legs, (leg: CloseLeg) => if Counted(leg) then leg.fill.quantity else 0.0)
  {
    var n := |LegRecords(venue, legs)|;
    PlaceholdersCloseNothing(records, venue, n);
    assert records[..n] == LegRecords(venue, legs);
    LegRecordsAddUp(venue, legs);
  }
}
