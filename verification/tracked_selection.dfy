/** Which candidates are tracked, and which of them as primaries. */
module TrackedSelection {
  import opened Ordering

  datatype Candidate = Candidate(pairId: string, symbol: string, longVenue: string, shortVenue: string, edge: real)

  datatype Tracked = Tracked(pairId: string, symbol: string, longVenue: string, shortVenue: string, edge: real,
      primary: bool)

  /** The candidate's own pair id, or its canonical one. */
  function PairId(c: Candidate): string {
    if c.pairId != "" then c.pairId else Lower(c.symbol) + ":" + c.longVenue + "->" + c.shortVenue
  }

  function PairIds(window: seq<Candidate>): seq<string> {
    seq(|window|, i requires 0 <= i < |window| => PairId(window[i]))
  }

  // ---------------------------------------------------------------------------------------------
  // Seniority
  // ---------------------------------------------------------------------------------------------

  /** How many of the first n were held before. */
  function HeldBefore(ids: seq<string>, held: set<string>, n: nat): (k: nat)
    requires n <= |ids|
    ensures k <= n
  {
    if n == 0 then 0 else HeldBefore(ids, held, n - 1) + if ids[n - 1] in held then 1 else 0
  }

  /** The place of a candidate when those held before come first and ranks decide otherwise. */
  function Seniority(ids: seq<string>, held: set<string>, i: nat): nat
    requires i < |ids|
  {
    var before := HeldBefore(ids, held, i);
    if ids[i] in held then before else HeldBefore(ids, held, |ids|) + (i - before)
  }

  function AtMost(count: int, size: int): int {
    if count < 0 then 0 else if count < size then count else size
  }

  lemma {:induction false} HeldBeforeGrows(ids: seq<string>, held: set<string>, m: nat, n: nat)
    requires m <= n <= |ids|
    ensures 0 <= HeldBefore(ids, held, n) - HeldBefore(ids, held, m) <= n - m
    decreases n
  {
    if m < n {
      HeldBeforeGrows(ids, held, m, n - 1);
    }
  }

  /** The places of the held candidates among the first n that get a slot, and of the others. */
  function HeldSlots(ids: seq<string>, held: set<string>, count: int, n: nat): set<nat>
    requires n <= |ids|
  {
    set i: nat | i < n && ids[i] in held && Seniority(ids, held, i) < count
  }

  function OtherSlots(ids: seq<string>, held: set<string>, count: int, n: nat): set<nat>
    requires n <= |ids|
  {
    set i: nat | i < n && ids[i] !in held && Seniority(ids, held, i) < count
  }

  /** Held candidates get slots in turn, up to the count. */
  lemma {:induction false} HeldSlotCount(ids: seq<string>, held: set<string>, count: int, n: nat)
    requires n <= |ids|
    ensures |HeldSlots(ids, held, count, n)| == AtMost(count, HeldBefore(ids, held, n))
  {
    if n > 0 {
      HeldSlotCount(ids, held, count, n - 1);
      HeldSlotsStep(ids, held, count, n - 1);
    }
  }

  lemma HeldSlotsStep(ids: seq<string>, held: set<string>, count: int, n: nat)
    requires n < |ids|
    ensures HeldSlots(ids, held, count, n + 1) ==
            HeldSlots(ids, held, count, n) + if ids[n] in held && Seniority(ids, held, n) < count then {n} else {}
    ensures n !in HeldSlots(ids, held, count, n)
  {
  }

  /** The others get the slots that are left. */
  lemma {:induction false} OtherSlotCount(ids: seq<string>, held: set<string>, count: int, n: nat)
    requires n <= |ids|
    ensures |OtherSlots(ids, held, count, n)| ==
            AtMost(count - HeldBefore(ids, held, |ids|), n - HeldBefore(ids, held, n))
  {
    if n > 0 {
      OtherSlotCount(ids, held, count, n - 1);
      OtherSlotsStep(ids, held, count, n - 1);
    }
  }

  lemma OtherSlotsStep(ids: seq<string>, held: set<string>, count: int, n: nat)
    requires n < |ids|
    ensures OtherSlots(ids, held, count, n + 1) ==
            OtherSlots(ids, held, count, n) + if ids[n] !in held && Seniority(ids, held, n) < count then {n} else {}
    ensures n !in OtherSlots(ids, held, count, n)
  {
  }

  /** The places of all primaries. */
  function Slots(ids: seq<string>, held: set<string>, count: int): set<nat> {
    set i: nat | i < |ids| && Seniority(ids, held, i) < count
  }

  lemma SlotsAreBoth(ids: seq<string>, held: set<string>, count: int)
    ensures Slots(ids, held, count) == HeldSlots(ids, held, count, |ids|) + OtherSlots(ids, held, count, |ids|)
  {
  }

  lemma SlotsAreFilled(ids: seq<string>, held: set<string>, count: int)
    ensures |Slots(ids, held, count)| == AtMost(count, |ids|)
  {
    var n := |ids|;
    HeldSlotCount(ids, held, count, n);
    OtherSlotCount(ids, held, count, n);
    assert Slots(ids, held, count) == HeldSlots(ids, held, count, n) + OtherSlots(ids, held, count, n);
    assert HeldSlots(ids, held, count, n) !! OtherSlots(ids, held, count, n);
  }

  // ---------------------------------------------------------------------------------------------
  // Selection
  // ---------------------------------------------------------------------------------------------

  function Track(c: Candidate, primary: bool): Tracked {
    Tracked(PairId(c), c.symbol, c.longVenue, c.shortVenue, c.edge, primary)
  }

  /** `tracked` is the window in its order, each candidate classed by seniority. */
  predicate Selects(window: seq<Candidate>, count: int, held: set<string>, tracked: seq<Tracked>) {
    && |tracked| == |window|
    && forall i :: 0 <= i < |window| ==>
         tracked[i] == Track(window[i], Seniority(PairIds(window), held, i) < count)
  }

  /** The loop that lets candidates held before keep a slot. */
  method KeepSlots(ids: seq<string>, count: int, held: set<string>) returns (primaries: set<nat>)
    ensures primaries == HeldSlots(ids, held, count, |ids|)
  {
    primaries := {};
    for i := 0 to |ids|
      invariant primaries == HeldSlots(ids, held, count, i)
    {
      HeldSlotCount(ids, held, count, i);
      if |primaries| >= count {
        NoMoreHeld(ids, held, count, i);
        break;
      }
      HeldSlotsStep(ids, held, count, i);
      if ids[i] in held {
        primaries := primaries + {i};
      }
    }
  }

  /** The loop that gives the slots that are left to the others by rank. */
  method FillSlots(ids: seq<string>, count: int, held: set<string>, kept: set<nat>) returns (primaries: set<nat>)
    requires kept == HeldSlots(ids, held, count, |ids|)
    ensures primaries == Slots(ids, held, count)
  {
    primaries := kept;
    for i := 0 to |ids|
      invariant primaries == kept + OtherSlots(ids, held, count, i)
    {
      FilledSoFar(ids, held, count, i);
      if |primaries| >= count {
        break;
      }
      primaries := primaries + {i};
    }
    SlotsAreBoth(ids, held, count);
  }

  /** In the second loop: either all slots are gone, or every held candidate has one and so will the next. */
  lemma FilledSoFar(ids: seq<string>, held: set<string>, count: int, i: nat)
    requires i < |ids|
    ensures var first, more := HeldSlots(ids, held, count, |ids|), OtherSlots(ids, held, count, i);
            && (|first + more| >= count ==> more == OtherSlots(ids, held, count, |ids|))
            && (|first + more| < count ==> first + more + {i} == first + OtherSlots(ids, held, count, i + 1))
  {
    var first, more := HeldSlots(ids, held, count, |ids|), OtherSlots(ids, held, count, i);
    FilledCount(ids, held, count, i);
    if |first + more| >= count {
      NoMoreOthers(ids, held, count, i);
    } else {
      OtherSlotsStep(ids, held, count, i);
      HeldBeforeGrows(ids, held, i, |ids|);
    }
  }

  /** How many slots are taken when the second loop reaches i. */
  lemma FilledCount(ids: seq<string>, held: set<string>, count: int, i: nat)
    requires i < |ids|
    ensures |HeldSlots(ids, held, count, |ids|) + OtherSlots(ids, held, count, i)| ==
            AtMost(count, HeldBefore(ids, held, |ids|) + (i - HeldBefore(ids, held, i)))
  {
    var first, more := HeldSlots(ids, held, count, |ids|), OtherSlots(ids, held, count, i);
    HeldSlotCount(ids, held, count, |ids|);
    OtherSlotCount(ids, held, count, i);
    assert first !! more;
    assert |first + more| == |first| + |more|;
  }

  lemma NoMoreHeld(ids: seq<string>, held: set<string>, count: int, i: nat)
    requires i <= |ids| && AtMost(count, HeldBefore(ids, held, i)) >= count
    ensures HeldSlots(ids, held, count, i) == HeldSlots(ids, held, count, |ids|)
  {
    forall j: nat | i <= j < |ids|
      ensures HeldBefore(ids, held, j) >= count
    {
      HeldBeforeGrows(ids, held, i, j);
    }
  }

  lemma NoMoreOthers(ids: seq<string>, held: set<string>, count: int, i: nat)
    requires i <= |ids|
    requires HeldBefore(ids, held, |ids|) + (i - HeldBefore(ids, held, i)) >= count
    ensures OtherSlots(ids, held, count, i) == OtherSlots(ids, held, count, |ids|)
  {
    forall j: nat | i <= j < |ids|
      ensures HeldBefore(ids, held, |ids|) + (j - HeldBefore(ids, held, j)) >= count
    {
      HeldBeforeGrows(ids, held, i, j);
    }
  }

  /** select_tracked_opportunities. */
  method SelectTracked(candidates: seq<Candidate>, primaryCount: int, shadowCount: int, held: set<string>)
    returns (tracked: seq<Tracked>)
    ensures Selects(UpTo(candidates, primaryCount + shadowCount), primaryCount, held, tracked)
  {
    var window := UpTo(candidates, primaryCount + shadowCount);
    var ids := PairIds(window);
    var kept := KeepSlots(ids, primaryCount, held);
    var primaries := FillSlots(ids, primaryCount, held, kept);
    tracked := TrackAll(window, primaries);
    assert forall i :: 0 <= i < |window| ==> (i in primaries <==> Seniority(ids, held, i) < primaryCount);
  }

  /** The loop that classes the window. */
  method TrackAll(window: seq<Candidate>, primaries: set<nat>) returns (tracked: seq<Tracked>)
    ensures |tracked| == |window|
    ensures forall i :: 0 <= i < |window| ==> tracked[i] == Track(window[i], i in primaries)
  {
    tracked := [];
    for i := 0 to |window|
      invariant |tracked| == i
      invariant forall j :: 0 <= j < i ==> tracked[j] == Track(window[j], j in primaries)
    {
      tracked := tracked + [Track(window[i], i in primaries)];
    }
  }

  /** Every slot is used while candidates last. */
  lemma SelectionFillsSlots(window: seq<Candidate>, count: int, held: set<string>, tracked: seq<Tracked>)
    requires Selects(window, count, held, tracked)
    ensures |set i: nat | i < |tracked| && tracked[i].primary| == AtMost(count, |window|)
  {
    SlotsAreFilled(PairIds(window), held, count);
    assert (set i: nat | i < |tracked| && tracked[i].primary) == Slots(PairIds(window), held, count);
  }

  /** Earlier primaries that are still in the window stay primary exactly when there are slots for them all;
      otherwise the last of them loses its slot. */
  lemma HeldStayExactlyIfTheyFit(window: seq<Candidate>, count: int, held: set<string>, tracked: seq<Tracked>)
    requires Selects(window, count, held, tracked) && count >= 0
    ensures (forall i :: 0 <= i < |tracked| && tracked[i].pairId in held ==> tracked[i].primary) <==>
            HeldBefore(PairIds(window), held, |window|) <= count
  {
    var ids, n := PairIds(window), |window|;
    forall i | 0 <= i < n && ids[i] in held
      ensures HeldBefore(ids, held, i) < HeldBefore(ids, held, n)
    {
      HeldBeforeGrows(ids, held, i + 1, n);
    }
    if HeldBefore(ids, held, n) > count {
      var i := LastHeld(ids, held, n);
      assert tracked[i].pairId in held && !tracked[i].primary;
    }
  }

  lemma {:induction false} LastHeld(ids: seq<string>, held: set<string>, n: nat) returns (i: nat)
    requires n <= |ids| && HeldBefore(ids, held, n) > 0
    ensures i < n && ids[i] in held && HeldBefore(ids, held, i) == HeldBefore(ids, held, n) - 1
  {
    if ids[n - 1] in held {
      i := n - 1;
    } else {
      i := LastHeld(ids, held, n - 1);
    }
  }

  // ---------------------------------------------------------------------------------------------
  // Stability
  // ---------------------------------------------------------------------------------------------

  predicate DistinctIds(ids: seq<string>) {
    forall i, j :: 0 <= i < j < |ids| ==> ids[i] != ids[j]
  }

  /** The first n ids. */
  function Names(ids: seq<string>, n: nat): (r: set<string>)
    requires n <= |ids|
    ensures forall i :: 0 <= i < n ==> ids[i] in r
  {
    if n == 0 then {} else Names(ids, n - 1) + {ids[n - 1]}
  }

  lemma {:induction false} NamesAreIds(ids: seq<string>, n: nat)
    requires n <= |ids|
    ensures forall id :: id in Names(ids, n) <==> id in ids[..n]
  {
    if n > 0 {
      NamesAreIds(ids, n - 1);
      assert ids[..n] == ids[..n - 1] + [ids[n - 1]];
    }
  }

  /** Among distinct ids, those held are counted by the set alone, whatever the order. */
  lemma {:induction false} HeldCountIsShared(ids: seq<string>, held: set<string>, n: nat)
    requires n <= |ids| && DistinctIds(ids)
    ensures HeldBefore(ids, held, n) == |held * Names(ids, n)|
  {
    if n > 0 {
      HeldCountIsShared(ids, held, n - 1);
      NameIsNew(ids, n - 1);
      OneMoreName(held, Names(ids, n - 1), ids[n - 1]);
    }
  }

  lemma NameIsNew(ids: seq<string>, n: nat)
    requires n < |ids| && DistinctIds(ids)
    ensures ids[n] !in Names(ids, n)
  {
    NamesAreIds(ids, n);
    assert forall i :: 0 <= i < n ==> ids[..n][i] == ids[i] && ids[i] != ids[n];
  }

  lemma OneMoreName(held: set<string>, names: set<string>, id: string)
    requires id !in names
    ensures |held * (names + {id})| == |held * names| + if id in held then 1 else 0
  {
    assert held * (names + {id}) == held * names + if id in held then {id} else {};
  }

  function PrimaryIds(tracked: seq<Tracked>): set<string> {
    set i | 0 <= i < |tracked| && tracked[i].primary :: tracked[i].pairId
  }

  /** The primaries of a selection, held next time, are exactly as many as there are slots to fill. */
  lemma {:induction false} PrimariesFit(window: seq<Candidate>, count: int, held: set<string>, tracked: seq<Tracked>)
    requires Selects(window, count, held, tracked) && DistinctIds(PairIds(window))
    ensures HeldBefore(PairIds(window), PrimaryIds(tracked), |window|) == AtMost(count, |window|)
    ensures forall i :: 0 <= i < |window| ==> (tracked[i].primary <==> tracked[i].pairId in PrimaryIds(tracked))
  {
    var ids, next, n := PairIds(window), PrimaryIds(tracked), |window|;
    PrimariesAreNamed(window, tracked);
    SlotsAreFilled(ids, held, count);
    HeldSlotCount(ids, next, n + 1, n);
    assert HeldSlots(ids, next, n + 1, n) == Slots(ids, held, count) by {
      forall i: nat
        ensures i in HeldSlots(ids, next, n + 1, n) <==> i in Slots(ids, held, count)
      {
        assert i < n && ids[i] in next ==> Seniority(ids, next, i) <= n;
      }
    }
  }

  lemma {:induction false} PrimariesAreNamed(window: seq<Candidate>, tracked: seq<Tracked>)
    requires |tracked| == |window| && DistinctIds(PairIds(window))
    requires forall i :: 0 <= i < |window| ==> tracked[i].pairId == PairIds(window)[i]
    ensures forall i :: 0 <= i < |window| ==> (tracked[i].primary <==> tracked[i].pairId in PrimaryIds(tracked))
  {
    var ids := PairIds(window);
    forall i | 0 <= i < |window| && tracked[i].pairId in PrimaryIds(tracked)
      ensures tracked[i].primary
    {
      var j :| 0 <= j < |tracked| && tracked[j].primary && tracked[j].pairId == tracked[i].pairId;
      assert ids[j] == ids[i];
    }
  }

  /** Reordering the same window, with the last primaries held, changes no candidate's class. */
  lemma {:induction false} SelectionIsStable(window: seq<Candidate>, count: int, held: set<string>,
      tracked: seq<Tracked>,
                                             shuffled: seq<Candidate>, again: seq<Tracked>)
    requires Selects(window, count, held, tracked) && Selects(shuffled, count, PrimaryIds(tracked), again)
    requires DistinctIds(PairIds(window)) && DistinctIds(PairIds(shuffled))
    requires |shuffled| == |window| && Names(PairIds(shuffled), |shuffled|) == Names(PairIds(window), |window|)
    ensures forall i :: 0 <= i < |again| ==> (again[i].primary <==> again[i].pairId in PrimaryIds(tracked))
    ensures PrimaryIds(again) == PrimaryIds(tracked)
  {
    PrimariesFit(window, count, held, tracked);
    HeldCountIsShared(PairIds(window), PrimaryIds(tracked), |window|);
    HeldCountIsShared(PairIds(shuffled), PrimaryIds(tracked), |window|);
    ClassesAreHeld(shuffled, count, PrimaryIds(tracked), again);
    NamedAreTracked(shuffled, again);
    SamePrimaries(window, tracked, again);
  }

  /** When those held fill the slots, they are the primaries. */
  lemma {:induction false} ClassesAreHeld(window: seq<Candidate>, count: int, held: set<string>, tracked: seq<Tracked>)
    requires Selects(window, count, held, tracked)
    requires HeldBefore(PairIds(window), held, |window|) == AtMost(count, |window|)
    ensures forall i :: 0 <= i < |tracked| ==> (tracked[i].primary <==> tracked[i].pairId in held)
  {
    forall i | 0 <= i < |window|
      ensures tracked[i].primary <==> tracked[i].pairId in held
    {
      FullHouse(PairIds(window), held, count, i);
    }
  }

  lemma {:induction false} NamedAreTracked(window: seq<Candidate>, tracked: seq<Tracked>)
    requires |tracked| == |window| && forall i :: 0 <= i < |window| ==> tracked[i].pairId == PairIds(window)[i]
    ensures forall id ::
        id in Names(PairIds(window), |window|) ==> exists i :: 0 <= i < |tracked| && tracked[i].pairId == id
  {
    var ids, n := PairIds(window), |window|;
    forall id | id in Names(ids, n)
      ensures exists i :: 0 <= i < |tracked| && tracked[i].pairId == id
    {
      NamesAreIds(ids, n);
      var i :| 0 <= i < n && ids[i] == id;
      assert tracked[i].pairId == id;
    }
  }

  lemma {:induction false} SamePrimaries(window: seq<Candidate>, tracked: seq<Tracked>, again: seq<Tracked>)
    requires |tracked| == |window| && forall i :: 0 <= i < |window| ==> tracked[i].pairId == PairId(window[i])
    requires forall i :: 0 <= i < |again| ==> (again[i].primary <==> again[i].pairId in PrimaryIds(tracked))
    requires forall id ::
        id in Names(PairIds(window), |window|) ==> exists i :: 0 <= i < |again| && again[i].pairId == id
    ensures PrimaryIds(again) == PrimaryIds(tracked)
  {
    forall id | id in PrimaryIds(tracked)
      ensures id in PrimaryIds(again)
    {
      var i :| 0 <= i < |tracked| && tracked[i].primary && tracked[i].pairId == id;
      assert PairIds(window)[i] == id;
      assert id in Names(PairIds(window), |window|);
      var j :| 0 <= j < |again| && again[j].pairId == id;
      assert again[j].primary;
    }
  }

  /** When those held are as many as the slots, they are the ones that get them. */
  lemma FullHouse(ids: seq<string>, held: set<string>, count: int, i: nat)
    requires i < |ids| && HeldBefore(ids, held, |ids|) == AtMost(count, |ids|)
    ensures Seniority(ids, held, i) < count <==> ids[i] in held
  {
    HeldBeforeGrows(ids, held, 0, i);
    HeldBeforeGrows(ids, held, i, i + 1);
    HeldBeforeGrows(ids, held, i + 1, |ids|);
  }
}
