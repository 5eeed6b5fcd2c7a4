/** The queue of close reconciliations that are still to be settled, and what enqueuing one more does to it. */
module ReconciliationQueue {
  import opened Domain
  import opened CloseAccounting
  import opened CloseRecords

  const MAX_PENDING := 256

  datatype Kind = Final | Partial | OtherKind(name: string)

  /** A pending reconciliation, of any origin. */
  datatype Item = Item(
    positionId: string,
    kind: Kind,
    longRecords: seq<LegRecord>,
    shortRecords: seq<LegRecord>,
    historyRequired: bool,
    evidenceDebt: bool,
    irrecoverable: bool,
    snapshotFacts: nat)
  {
    /** Terminal work of accounting: only another terminal record may replace it. */
    predicate Terminal() {
      evidenceDebt && irrecoverable
    }

    predicate SameOwner(other: Item) {
      positionId == other.positionId && kind == other.kind
    }
  }

  predicate Identified(r: LegRecord) {
    r.orderId != NoId || r.clientOrderId != NoId
  }

  /** The durable key of a record: its order id, or else its client id. */
  function KeyOf(r: LegRecord): Identity {
    Identity(r.orderId, if r.orderId != NoId then NoId else r.clientOrderId)
  }

  function KeysIn(records: seq<LegRecord>): set<Identity> {
    set r | r in records && Identified(r) :: KeyOf(r)
  }

  function Keys(item: Item): set<Identity> {
    KeysIn(item.longRecords) + KeysIn(item.shortRecords)
  }

  function Coverage(records: seq<LegRecord>): nat {
    if records == [] then 0
    else Coverage(records[..|records| - 1]) + if Identified(records[|records| - 1]) then 1 else 0
  }

  /** As many identified records on either leg. */
  predicate NotWeaker(item: Item, existing: Item) {
    && Coverage(item.longRecords) >= Coverage(existing.longRecords)
    && Coverage(item.shortRecords) >= Coverage(existing.shortRecords)
  }

  /** Whether a pending item gives way to a new one of the same position and kind. */
  predicate Replaces(existing: Item, item: Item) {
    && (existing.Terminal() ==> item.Terminal())
    && (|| (Keys(item) != Keys(existing) && NotWeaker(item, existing))
        || (item.historyRequired && !existing.historyRequired && NotWeaker(item, existing))
        || (existing.evidenceDebt && !item.evidenceDebt && NotWeaker(item, existing)
          && item.snapshotFacts > existing.snapshotFacts)
        || (item.evidenceDebt && !existing.evidenceDebt)
        || (item.irrecoverable && !existing.irrecoverable))
  }

  /** The newest items, as many as fit. */
  function Capped(queue: seq<Item>): (r: seq<Item>)
    ensures |r| <= MAX_PENDING
    ensures |queue| <= MAX_PENDING ==> r == queue
  {
    if |queue| <= MAX_PENDING then queue else queue[|queue| - MAX_PENDING..]
  }

  /** The place of the first item with the same owner, or the end. */
  function OwnerIndex(queue: seq<Item>, item: Item): (i: nat)
    ensures i <= |queue|
    ensures forall j :: 0 <= j < i ==> !queue[j].SameOwner(item)
    ensures i < |queue| ==> queue[i].SameOwner(item)
  {
    if queue == [] || queue[0].SameOwner(item) then 0 else 1 + OwnerIndex(queue[1..], item)
  }

  function Enqueued(queue: seq<Item>, item: Item): seq<Item> {
    var pending := Capped(queue);
    var i := OwnerIndex(pending, item);
    if i == |pending| then Capped(pending + [item])
    else if Replaces(pending[i], item) then pending[i := item]
    else pending
  }

  /** enqueue_pending_close_reconciliation. */
  method Enqueue(queue: seq<Item>, item: Item) returns (r: seq<Item>)
    ensures r == Enqueued(queue, item)
  {
    r := Capped(queue);
    for i := 0 to |r|
      invariant r == Capped(queue)
      invariant forall j :: 0 <= j < i ==> !r[j].SameOwner(item)
    {
      var existing := r[i];
      if existing.SameOwner(item) {
        FirstOwner(r, item, i);
        if existing.Terminal() && !item.Terminal() {
          return;
        }
        var notWeaker := NotWeaker(item, existing);
        var strongerMode := item.historyRequired && !existing.historyRequired && notWeaker;
        var strongerSnapshot := item.snapshotFacts > existing.snapshotFacts;
        var replacesDebt := existing.evidenceDebt && !item.evidenceDebt && notWeaker && strongerSnapshot;
        var recordsDebt := item.evidenceDebt && !existing.evidenceDebt;
        var recordsIrrecoverable := item.irrecoverable && !existing.irrecoverable;
        if (Keys(item) != Keys(existing) && notWeaker) || strongerMode || replacesDebt || recordsDebt
            || recordsIrrecoverable {
          r := r[i := item];
        }
        return;
      }
    }
    FirstOwner(r, item, |r|);
    r := Capped(r + [item]);
  }

  lemma FirstOwner(queue: seq<Item>, item: Item, i: nat)
    requires i <= |queue| && (i < |queue| ==> queue[i].SameOwner(item))
    requires forall j :: 0 <= j < i ==> !queue[j].SameOwner(item)
    ensures OwnerIndex(queue, item) == i
  {
  }

  // ---------------------------------------------------------------------------------------------
  // What is kept
  // ---------------------------------------------------------------------------------------------

  /** The queue takes the item up: no other item of its position and kind is pending, or that one gives way. */
  predicate Accepts(queue: seq<Item>, item: Item) {
    var pending := Capped(queue);
    var i := OwnerIndex(pending, item);
    i == |pending| || Replaces(pending[i], item)
  }

  /** The item is pending afterwards if and only if the queue takes it up, or had it before. */
  lemma EnqueuedExactlyIfAccepted(queue: seq<Item>, item: Item)
    ensures item in Enqueued(queue, item) <==> Accepts(queue, item) || item in Capped(queue)
  {
    var pending := Capped(queue);
    var i := OwnerIndex(pending, item);
    if i == |pending| {
      var more := pending + [item];
      assert more[|more| - 1] == item;
      assert Capped(more)[|Capped(more)| - 1] == item;
    } else if Replaces(pending[i], item) {
      assert pending[i := item][i] == item;
    }
  }

  /** The j-th pending item goes when it gives way to the new one, or when it is the oldest of a full queue that
      takes up one more. */
  predicate Displaces(queue: seq<Item>, item: Item, j: nat) {
    var pending := Capped(queue);
    var i := OwnerIndex(pending, item);
    if i == |pending| then |pending| == MAX_PENDING && j == 0
    else j == i && Replaces(pending[i], item)
  }

  /** An earlier item that is pending once stays if and only if the new one does not displace it. */
  lemma EarlierItemStaysExactly(queue: seq<Item>, item: Item, j: nat)
    requires j < |Capped(queue)| && Capped(queue)[j] != item
    requires forall k :: 0 <= k < |Capped(queue)| && k != j ==> Capped(queue)[k] != Capped(queue)[j]
    ensures Capped(queue)[j] in Enqueued(queue, item) <==> !Displaces(queue, item, j)
  {
    var pending := Capped(queue);
    var after := Enqueued(queue, item);
    var i := OwnerIndex(pending, item);
    if i == |pending| {
      if |pending| < MAX_PENDING {
        assert after[j] == pending[j];
      } else {
        assert after == (pending + [item])[1..];
        assert j > 0 ==> after[j - 1] == pending[j];
      }
    } else if Replaces(pending[i], item) {
      assert j != i ==> after[j] == pending[j];
    }
  }

  /** With an item of the same position and kind pending, one item holds for both afterwards. It has the order
      identities of both if and only if those of the one that goes are among those of the one that stays. */
  lemma OneItemHoldsForBothExactly(queue: seq<Item>, item: Item)
    requires OwnerIndex(Capped(queue), item) < |Capped(queue)|
    ensures var i := OwnerIndex(Capped(queue), item);
            var existing := Capped(queue)[i];
            && |Enqueued(queue, item)| == |Capped(queue)|
            && var after := Enqueued(queue, item)[i];
               after.SameOwner(item)
               && (Keys(existing) <= Keys(after) && Keys(item) <= Keys(after) <==>
                   if Replaces(existing, item) then Keys(existing) <= Keys(item) else Keys(item) <= Keys(existing))
  {
  }

  /** There is never a second item of a position and kind. */
  predicate OneItemPerOwner(queue: seq<Item>) {
    forall j, k :: 0 <= j < k < |queue| ==> !queue[j].SameOwner(queue[k])
  }

  lemma EnqueuedKeepsOneItemPerOwner(queue: seq<Item>, item: Item)
    requires OneItemPerOwner(queue)
    ensures OneItemPerOwner(Enqueued(queue, item))
  {
    var pending := Capped(queue);
    assert OneItemPerOwner(pending);
    assert OneItemPerOwner(pending + [item]) || OwnerIndex(pending, item) < |pending|;
  }

  // ---------------------------------------------------------------------------------------------
  // Registered closes
  // ---------------------------------------------------------------------------------------------

  /** A leg that owns a quantity without a durable identity of every record. */
  predicate MissingLeg(records: seq<LegRecord>, owned: real) {
    (exists r :: r in records && !Identified(r)) || (records == [] && owned > QTY_EPS)
  }

  /** The item of a registered close. Its snapshot names position, symbol and venues. */
  function ItemOf(r: Reconciliation): Item {
    Item(r.positionId, if r.final then Final else Partial, r.longRecords, r.shortRecords,
      r.ownedLong < 0.0 || r.ownedShort < 0.0 || MissingLeg(r.longRecords, r.ownedLong)
        || MissingLeg(r.shortRecords, r.ownedShort),
      false, false, if r.positionId != "" then 4 else 3)
  }

  /** A registered close replaces a pending one of its position and kind if and only if that one is not terminal,
      has on neither leg more identified records, and has other identities, a weaker mode, or a weaker debt. */
  lemma RegistrationReplacesExactly(existing: Item, r: Reconciliation)
    ensures Replaces(existing, ItemOf(r)) <==>
              && !existing.Terminal()
              && NotWeaker(ItemOf(r), existing)
              && (|| Keys(ItemOf(r)) != Keys(existing)
                  || (ItemOf(r).historyRequired && !existing.historyRequired)
                  || (existing.evidenceDebt && ItemOf(r).snapshotFacts > existing.snapshotFacts))
  {
  }

  /** Some pending item of the position and kind holds all order identities of this one. */
  predicate Holds(queue: seq<Item>, item: Item) {
    exists j :: 0 <= j < |queue| && queue[j].SameOwner(item) && Keys(item) <= Keys(queue[j])
  }

  /** From a queue with one item an owner, the identities of a registered close are pending afterwards if and only if
      it is taken up, or the pending item of its position and kind has them already. */
  lemma RegistrationHeldExactly(queue: seq<Item>, r: Reconciliation)
    requires OneItemPerOwner(queue)
    ensures var pending, item := Capped(queue), ItemOf(r);
            var i := OwnerIndex(pending, item);
            Holds(Enqueued(queue, item), item) <==> Accepts(queue, item) || Keys(item) <= Keys(pending[i])
  {
    var pending, item := Capped(queue), ItemOf(r);
    var after := Enqueued(queue, item);
    EnqueuedKeepsOneItemPerOwner(queue, item);
    EnqueuedExactlyIfAccepted(queue, item);
    if Accepts(queue, item) {
      var j :| 0 <= j < |after| && after[j] == item;
      assert after[j].SameOwner(item);
    } else {
      var i := OwnerIndex(pending, item);
      assert after == pending && after[i].SameOwner(item);
    }
  }

  /** And those of the close registered before it, if and only if it is not displaced, or the new one has them too. */
  lemma EarlierRegistrationHeldExactly(queue: seq<Item>, item: Item, j: nat)
    requires OneItemPerOwner(queue) && j < |Capped(queue)|
    ensures var earlier := Capped(queue)[j];
            Holds(Enqueued(queue, item), earlier) <==>
            !Displaces(queue, item, j) || (earlier.SameOwner(item) && Keys(earlier) <= Keys(item))
  {
    var pending := Capped(queue);
    var earlier := pending[j];
    var after := Enqueued(queue, item);
    EnqueuedKeepsOneItemPerOwner(queue, item);
    var i := OwnerIndex(pending, item);
    if i == |pending| {
      if |pending| < MAX_PENDING {
        assert after[j] == earlier;
      } else {
        assert after == (pending + [item])[1..];
        assert forall k :: 0 <= k < |after| - 1 ==> after[k] == pending[k + 1];
        assert after[|after| - 1] == item;
        assert j > 0 ==> after[j - 1] == earlier;
      }
    } else {
      assert after[j] == if Displaces(queue, item, j) then item else earlier;
      assert after[j].SameOwner(earlier);
    }
  }

  // ---------------------------------------------------------------------------------------------
  // Two partial closes
  // ---------------------------------------------------------------------------------------------

  /** A partial close of 1 on the long leg, whose orders are not resolved. */
  function Unresolved(ids: seq<Id>): Reconciliation {
    Reconciliation("p", false, CloseExecutionSource, 0, Holding(5.0, 5.0, 5.0, 0.0, 0.0, 0.0),
        [ExecutionUnconfirmed(LongLeg)],
      1.0, 0.0, 1.0, 0.0, Placeholders(ids), [], [LongLeg])
  }

  function Placeholders(ids: seq<Id>): seq<LegRecord> {
    seq(|ids|, i requires 0 <= i < |ids| => LegRecord(Okx, ids[i], NoId, 0.0, 0.0, Some(0.0), 0))
  }

  /** A second partial close erases the order identity of the first when it has as many. */
  lemma SecondPartialCloseErasesFirst()
    ensures var first, second := ItemOf(Unresolved([VenueId(1)])), ItemOf(Unresolved([VenueId(2)]));
            Enqueued([first], second) == [second] && !Holds(Enqueued([first], second), first)
  {
    OnePlaceholder(VenueId(1));
    OnePlaceholder(VenueId(2));
    assert Identity(VenueId(1), NoId) in Keys(ItemOf(Unresolved([VenueId(1)])));
  }

  /** It is never enqueued when it has fewer. */
  lemma SecondPartialCloseIsDropped()
    ensures var first, second := ItemOf(Unresolved([VenueId(1), VenueId(2)])), ItemOf(Unresolved([VenueId(3)]));
            Enqueued([first], second) == [first] && !Holds(Enqueued([first], second), second)
  {
    OnePlaceholder(VenueId(1));
    OnePlaceholder(VenueId(2));
    OnePlaceholder(VenueId(3));
    var a, b, ab := Placeholders([VenueId(1)]), Placeholders([VenueId(2)]), Placeholders([VenueId(1), VenueId(2)]);
    assert ab == a + b && ab[..1] == a;
    KeysOfBoth(a, b);
    assert Identity(VenueId(3), NoId) in Keys(ItemOf(Unresolved([VenueId(3)])));
  }

  lemma OnePlaceholder(id: Id)
    requires id != NoId
    ensures Coverage(Placeholders([id])) == 1 && KeysIn(Placeholders([id])) == {Identity(id, NoId)}
  {
    var records := Placeholders([id]);
    assert records[..0] == [];
    assert records[0] in records && KeyOf(records[0]) == Identity(id, NoId);
  }

  lemma KeysOfBoth(a: seq<LegRecord>, b: seq<LegRecord>)
    ensures KeysIn(a + b) == KeysIn(a) + KeysIn(b)
  {
    assert forall r :: r in a + b <==> r in a || r in b;
  }
}
