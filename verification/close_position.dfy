/** The close of a two-leg position: chunks, both legs, compensation, and what is left on record. */
module ClosePosition {
  import opened Domain
  import opened Exchange
  import opened CloseAccounting
  import opened CloseEvidence
  import opened CloseRecords
  import opened ReconciliationQueue
  import opened CloseState
  import opened CloseChunks
  import opened CloseSubmission
  import opened CloseCompensation
  import opened CloseOrigins
  import opened CloseAccount

  datatype CloseOutcome =
    | NothingToClose
    | Closed(execution: CloseExecution)
    | CompensationAborted(execution: CloseExecution)
    | ShortRejected
    | NoConfirmedFills

  datatype ChunkVerdict = NextChunk | Compensated | Aborted | Refused

  // ---------------------------------------------------------------------------------------------
  // What is left in the state
  // ---------------------------------------------------------------------------------------------

  /** The repair tasks of the other positions. */
  function TasksOfOthers(tasks: seq<ResidualTask>, positionId: string): (r: seq<ResidualTask>)
    ensures forall t :: t in r <==> t in tasks && t.positionId != positionId
  {
    if tasks == [] then []
    else
      var rest := TasksOfOthers(tasks[..|tasks| - 1], positionId);
      var last := tasks[|tasks| - 1];
      assert forall t :: t in tasks <==> t in tasks[..|tasks| - 1] || t == last;
      if last.positionId != positionId then rest + [last] else rest
  }

  /** At most one repair task per position: the new residual replaces the old. */
  function WithResidual(tasks: seq<ResidualTask>, residual: Option<ResidualTask>): seq<ResidualTask> {
    if residual.None? then tasks else TasksOfOthers(tasks, residual.value.positionId) + [residual.value]
  }

  /** A close with a leg in doubt leaves a pending close under its id. */
  function WithPending(pending: map<(string, int), PendingClose>, positionId: string, now: int,
      longClosed: real, shortClosed: real, longUncertain: bool, shortUncertain: bool): map<(string, int), PendingClose>
  {
    if longUncertain || shortUncertain then
      pending[(positionId, now) := PendingClose(positionId, longClosed, shortClosed, longUncertain, shortUncertain)]
    else pending
  }

  /** What a finished close did to the journal and the queue: nothing if its evidence was complete, and then no order
      is unresolved; else it registered, for good, a reconciliation that tells what was closed and covers every
      unresolved order, and enqueued it. */
  ghost predicate Recorded(oldQueue: seq<Item>, queue: seq<Item>, oldRegs: seq<Reconciliation>,
      regs: seq<Reconciliation>, complete: bool,
      start: Trail, now: Trail, facts: PositionFacts, short: LegView, long: LegView)
  {
    if complete then queue == oldQueue && regs == oldRegs && AllResolved(start, now)
    else
      && |regs| == |oldRegs| + 1 && oldRegs <= regs
      && var r := regs[|oldRegs|];
         AllCovered(start, now, r) && Tells(r, facts, short, long) && queue == Enqueued(oldQueue, ItemOf(r))
  }

  predicate ClosedSomething(execution: CloseExecution) {
    execution.longCloseQty > QTY_EPS || execution.shortCloseQty > QTY_EPS
  }

  /** What a close went through: the records of its legs, its chunks, and how the loop ended. */
  datatype CloseRun = CloseRun(short: LegView, long: LegView, chunks: seq<real>, verdict: ChunkVerdict)

  predicate NothingOnRecord(short: LegView, long: LegView) {
    short.legs == [] && long.legs == [] && !short.inDoubt && !long.inDoubt
  }

  function OutcomeOf(run: CloseRun, facts: PositionFacts): CloseOutcome {
    match run.verdict
    case Refused => ShortRejected
    case Aborted => CompensationAborted(BuildCloseExecution(facts, run.short.legs, run.long.legs))
    case _ =>
      if NothingOnRecord(run.short, run.long) then NoConfirmedFills
      else Closed(BuildCloseExecution(facts, run.short.legs, run.long.legs))
  }

  /** The bill is final: the entry is known, every counted fill has a price and a fee, and no leg is in doubt. */
  predicate FinalBill(facts: PositionFacts, short: LegView, long: LegView) {
    && facts.longEntryPrice > 0.0 && facts.shortEntryPrice > 0.0 && facts.entryFeeEvidenceComplete
    && Billable(long.legs) && Billable(short.legs) && !long.inDoubt && !short.inDoubt
  }

  /** The bills of a close: one exactly when it closed something and its evidence is complete, for what its legs closed
      and their attributed net. */
  function BillsOf(outcome: CloseOutcome, facts: PositionFacts, short: LegView, long: LegView): seq<JournalEvent> {
    if outcome.Closed? && FinalBill(facts, short, long) && ClosedSomething(outcome.execution) then
      [ExitClosed(facts.positionId, Sum(long.legs, QTY), Sum(short.legs, QTY), false, false,
         AttributedNet(facts, outcome.execution))]
    else []
  }

  /** What a close touches of the position, of the state, and of the journal. */
  datatype PositionView = PositionView(holding: Holding, buckets: Buckets, pausedAt: int)

  datatype StateView = StateView(open: set<string>, repairs: seq<ResidualTask>, queue: seq<Item>,
      pending: map<(string, int), PendingClose>)

  datatype Books = Books(position: PositionView, state: StateView, journal: JournalBook)

  function BooksOf(position: OpenPosition, state: EngineState?, journal: Journal): Books
    reads position, journal, if state == null then {} else {state}
  {
    Books(PositionView(position.Held(), position.buckets, position.lastRiskActionAt), ViewOf(state),
      BookOf(journal.events))
  }

  function ViewOf(state: EngineState?): StateView
    reads if state == null then {} else {state}
  {
    if state == null then StateView({}, [], [], map[])
    else StateView(state.openPositions, state.residualRepairs, state.queue, state.pendingCloses)
  }

  /** When and why a close is made. */
  datatype Occasion = Occasion(reason: string, at: int)

  /** The position after a finished close: holding and buckets, and the pause when dust is left. */
  ghost predicate FinishedPosition(execution: CloseExecution, complete: bool, occasion: Occasion,
      before: PositionView, after: PositionView)
  {
    && after.holding == ApplyClose(before.holding, execution, execution.longCloseQty, execution.shortCloseQty, complete)
    && after.buckets == Bucketed(before.buckets, occasion.reason, execution, complete)
    && after.pausedAt == (if QTY_EPS <= after.holding.matched < DUST_QUANTITY then occasion.at else before.pausedAt)
  }

  /** The state a finished close leaves, but for the queue: the open positions, the residual repairs, and the pending
      close of a leg in doubt. */
  ghost predicate FinishedState(facts: PositionFacts, execution: CloseExecution, occasion: Occasion, longInDoubt: bool,
      shortInDoubt: bool, before: Holding, after: Holding, was: StateView, is_: StateView)
  {
    && is_.open == (if after.matched < QTY_EPS then was.open - {facts.positionId} else was.open)
    && is_.repairs == WithResidual(was.repairs,
         SplitResidual(facts, before.matched, execution.longCloseQty, execution.shortCloseQty))
    && is_.pending == WithPending(was.pending, facts.positionId, occasion.at, execution.longCloseQty,
         execution.shortCloseQty, longInDoubt, shortInDoubt)
  }

  /** What a finished close leaves: position and state written back, and either billed or registered. */
  ghost predicate Finished(facts: PositionFacts, execution: CloseExecution, short: LegView, long: LegView,
      occasion: Occasion, start: Trail, now: Trail, was: Books, is_: Books)
  {
    && FinishedPosition(execution, FinalBill(facts, short, long), occasion, was.position, is_.position)
    && FinishedState(facts, execution, occasion, long.inDoubt, short.inDoubt, was.position.holding,
         is_.position.holding, was.state, is_.state)
    && Recorded(was.state.queue, is_.state.queue, was.journal.registered, is_.journal.registered,
         FinalBill(facts, short, long), start, now, facts, short, long)
  }

  /** What a concluded close with a state leaves: finished when it closed; registered when its compensation failed;
      untouched otherwise. */
  ghost predicate ConcludedInState(facts: PositionFacts, outcome: CloseOutcome, short: LegView, long: LegView,
      occasion: Occasion, start: Trail, now: Trail, was: Books, is_: Books)
  {
    match outcome
    case Closed(execution) => Finished(facts, execution, short, long, occasion, start, now, was, is_)
    case CompensationAborted(_) =>
      && Recorded(was.state.queue, is_.state.queue, was.journal.registered, is_.journal.registered, false, start, now,
           facts, short, long)
      && is_.state == was.state.(queue := is_.state.queue) && is_.position == was.position
    case _ => is_.state == was.state && is_.journal.registered == was.journal.registered && is_.position == was.position
  }

  /** What any concluded close leaves. Without a state nothing is written back or registered. */
  ghost predicate Concluded(facts: PositionFacts, outcome: CloseOutcome, short: LegView, long: LegView,
      occasion: Occasion, hasState: bool, start: Trail, now: Trail, was: Books, is_: Books)
  {
    && is_.journal.bills == was.journal.bills + BillsOf(outcome, facts, short, long)
    && if hasState then ConcludedInState(facts, outcome, short, long, occasion, start, now, was, is_)
       else is_.position == was.position && is_.journal.registered == was.journal.registered
  }

  /** The chunks make up what is to be closed, and are the fewest equal ones within the cap. */
  ghost predicate ClosePlan(chunks: seq<real>, total: real, longPrice: real, shortPrice: real, cap: real) {
    && chunks != [] && Total(chunks) == total && (forall c :: c in chunks ==> c == total / |chunks| as real)
    && (if cap > 0.0 && Max(longPrice, shortPrice) > 0.0 then IsPlan(chunks, total, longPrice, shortPrice, cap)
    else chunks == [total])
  }

  // ---------------------------------------------------------------------------------------------
  // One chunk
  // ---------------------------------------------------------------------------------------------

  /** A leg was submitted, one order following from the other, and judged: by its last order, or as rejected without an
      adapter. */
  ghost predicate LegAnswered(before: Trail, now: Trail, adapters: set<Venue>, request: OrderRequest,
      outcome: Outcome) {
    && Chained(before, now, request)
    && (forall k :: |before.placements| <= k < |now.placements| ==>
          && now.placements[k].phase == Closing
          && now.placements[k].request.venue == request.venue && now.placements[k].request.side == request.side)
    && if request.venue !in adapters then outcome == LegRejected && now.placements == before.placements
       else
         && Sends(before.placements, now.placements, request)
         && outcome == Judge(now, now.placements[|now.placements| - 1])
  }

  /** The same, if any attempt is allowed. */
  ghost predicate LegEnds(before: Trail, now: Trail, adapters: set<Venue>, request: OrderRequest, outcome: Outcome,
      maxRetries: nat) {
    if maxRetries == 0 then outcome == LegUncertain && now.placements == before.placements
    else LegAnswered(before, now, adapters, request, outcome)
  }

  lemma AnsweredLegIsSent(before: Trail, now: Trail, adapters: set<Venue>, request: OrderRequest, outcome: Outcome)
    requires LegAnswered(before, now, adapters, request, outcome) && request.venue in adapters
    ensures LegSent(|before.placements|, now, request, IsDone(outcome))
    ensures !IsDone(outcome) ==> LegSent(|before.placements|, now, request, false)
    ensures LastOfClose(|before.placements|, now, |now.placements| - 1)
  {
    var j, k := |before.placements|, |now.placements| - 1;
    assert j <= k && now.placements[j].request == request && now.placements[k].phase == Closing;
  }

  /** The short leg alone: it was refused exactly when its judgement says so, and is trouble when it is in doubt. */
  lemma ShortLegAnswered(start: Trail, now: Trail, adapters: set<Venue>, facts: PositionFacts, request: OrderRequest,
      short: Outcome, maxRetries: nat)
    requires LegEnds(start, now, adapters, request, short, maxRetries)
    requires request.venue == facts.shortVenue && request.side == Buy
    ensures maxRetries >= 1 ==> (ShortRefused(start, now, adapters, facts) <==> short == LegRejected)
    ensures short == LegUncertain ==> Troubled(start, now, adapters, facts, maxRetries)
    ensures short == LegRejected ==> !Troubled(start, now, adapters, facts, maxRetries)
  {
    if maxRetries >= 1 && request.venue in adapters {
      var m := |now.placements| - 1;
      assert OfLeg(now.placements[m], facts, ShortLeg);
      TroubledByLast(start, now, adapters, facts, maxRetries, m);
    }
  }

  /** With an adapter for the long leg, its last order decides. */
  lemma LongLegSent(start: Trail, mid: Trail, now: Trail, adapters: set<Venue>, facts: PositionFacts,
      request: OrderRequest, long: Outcome, maxRetries: nat)
    requires Extends(start, mid) && Extends(mid, now) && LegAnswered(mid, now, adapters, request, long)
    requires request.venue == facts.longVenue && request.side == Sell && request.venue in adapters && maxRetries >= 1
    ensures LastOfClose(|start.placements|, now, |now.placements| - 1)
    ensures OfLeg(now.placements[|now.placements| - 1], facts, LongLeg)
    ensures Troubled(start, now, adapters, facts, maxRetries) <==> !IsDone(long)
  {
    var m := |now.placements| - 1;
    assert OfLeg(now.placements[m], facts, LongLeg) && !OfLeg(now.placements[m], facts, ShortLeg);
    TroubledByLast(start, now, adapters, facts, maxRetries, m);
  }

  /** Without one, the short leg that was not refused is the last word of the close, and trouble. */
  lemma LongLegUnreachable(start: Trail, mid: Trail, now: Trail, adapters: set<Venue>, facts: PositionFacts,
      request: OrderRequest, short: Outcome, maxRetries: nat)
    requires Extends(start, mid) && Extends(mid, now) && now.placements == mid.placements
    requires LegAnswered(start, mid, adapters, request, short) && short != LegRejected && maxRetries >= 1
    requires request.venue == facts.shortVenue && request.side == Buy && facts.longVenue !in adapters
    ensures |start.placements| < |now.placements| && LastOfClose(|start.placements|, now, |now.placements| - 1)
    ensures Judge(now, now.placements[|now.placements| - 1]) != LegRejected
    ensures Troubled(start, now, adapters, facts, maxRetries)
  {
    var m := |now.placements| - 1;
    assert OfLeg(now.placements[m], facts, ShortLeg);
    JudgementStays(mid, now, mid.placements[m]);
    TroubledByLast(start, now, adapters, facts, maxRetries, m);
  }

  /** After the long leg, whatever its answer, the short leg is not refused any more; the long leg is trouble unless it
      is done. */
  lemma LongLegAnswered(start: Trail, mid: Trail, now: Trail, adapters: set<Venue>, facts: PositionFacts,
      shortRequest: OrderRequest, short: Outcome, request: OrderRequest, long: Outcome, maxRetries: nat)
    requires Extends(start, mid) && Extends(mid, now)
    requires LegEnds(start, mid, adapters, shortRequest, short, maxRetries) && short != LegRejected
    requires shortRequest.venue == facts.shortVenue && shortRequest.side == Buy
    requires LegEnds(mid, now, adapters, request, long, maxRetries)
    requires request.venue == facts.longVenue && request.side == Sell
    ensures maxRetries >= 1 ==>
        !ShortRefused(start, now, adapters, facts) && LastOfClose(|start.placements|, now, |now.placements| - 1)
    ensures Troubled(start, now, adapters, facts, maxRetries) <==> !IsDone(long)
  {
    if maxRetries >= 1 {
      if request.venue in adapters {
        LongLegSent(start, mid, now, adapters, facts, request, long, maxRetries);
      } else {
        LongLegUnreachable(start, mid, now, adapters, facts, shortRequest, short, maxRetries);
      }
    }
  }

  /** How a chunk, or the whole loop, ends by what the venues answered since `start`: refused exactly when the last
      order was refused for the short leg; compensated, for a close with a reason, exactly when the last order of the
      close leaves a leg unsettled. */
  ghost predicate EndsAs(verdict: ChunkVerdict, start: Trail, now: Trail, adapters: set<Venue>, facts: PositionFacts,
      reasonGiven: bool, maxRetries: nat)
  {
    && (verdict == Refused <==> maxRetries >= 1 && ShortRefused(start, now, adapters, facts))
    && ((verdict == Compensated || verdict == Aborted) <==>
        (reasonGiven && Troubled(start, now, adapters, facts, maxRetries)))
    && (verdict == Aborted ==>
      exists v :: v in adapters && v in {facts.shortVenue, facts.longVenue} && GaveUpOn(start, now, v))
    && (verdict == Compensated && FreshFrom(now.reconciles, |start.reconciles|) ==>
          forall v :: v in adapters && v in {facts.shortVenue, facts.longVenue} ==> FlatAt(now.book, v))
  }

  /** What there is of a chunk at its end: its orders, both legs when the next one may follow, and an order of the close
      unless there is no adapter for the short leg. */
  ghost predicate ChunkDone(verdict: ChunkVerdict, before: Trail, now: Trail, adapters: set<Venue>,
      facts: PositionFacts, chunk: nat, quantity: real, shortPrice: real, longPrice: real, reasonGiven: bool,
      maxRetries: nat)
  {
    && ChunkOrders(|before.placements|, now, facts, chunk, quantity, shortPrice, longPrice)
    && (verdict == NextChunk && maxRetries >= 1 ==>
          ChunkSent(adapters, |before.placements|, now, facts, chunk, quantity, shortPrice, longPrice, reasonGiven))
    && (maxRetries >= 1 ==>
      if facts.shortVenue in adapters then exists m: nat :: LastOfClose(|before.placements|, now, m)
      else verdict == Refused)
  }

  ghost predicate ChunkEnds(verdict: ChunkVerdict, before: Trail, now: Trail, adapters: set<Venue>,
      facts: PositionFacts, chunk: nat, quantity: real, shortPrice: real, longPrice: real, reasonGiven: bool,
      maxRetries: nat)
  {
    && EndsAs(verdict, before, now, adapters, facts, reasonGiven, maxRetries)
    && ChunkDone(verdict, before, now, adapters, facts, chunk, quantity, shortPrice, longPrice, reasonGiven, maxRetries)
  }

  /** The orders of the legs of a chunk. */
  lemma LegsAreChunkOrders(before: Trail, mid: Trail, now: Trail, adapters: set<Venue>, facts: PositionFacts,
      chunk: nat, quantity: real, shortPrice: real, longPrice: real, short: Outcome, long: Outcome, maxRetries: nat)
    requires Extends(before, mid) && Extends(mid, now)
    requires LegEnds(before, mid, adapters, LegRequest(facts, ShortLeg, chunk, quantity, shortPrice), short, maxRetries)
    requires LegEnds(mid, now, adapters, LegRequest(facts, LongLeg, chunk, quantity, longPrice), long, maxRetries)
    ensures ChunkOrders(|before.placements|, now, facts, chunk, quantity, shortPrice, longPrice)
  {
    ShortLegIsChunkOrders(before, mid, adapters, facts, chunk, quantity, shortPrice, longPrice, short, maxRetries);
    forall k | |before.placements| <= k < |now.placements| && now.placements[k].phase == Closing
      ensures OpensChunk(now.placements[k].request, facts, chunk, quantity, shortPrice, longPrice)
          || (|before.placements| < k && Follows(now, k))
    {
      if k < |mid.placements| {
        assert now.placements[k] == mid.placements[k];
        if |before.placements| < k && Follows(mid, k) {
          FollowsStays(mid, now, k);
        }
      } else {
        assert LinksAt(mid, now, LegRequest(facts, LongLeg, chunk, quantity, longPrice), k);
      }
    }
  }

  lemma ShortLegIsChunkOrders(before: Trail, mid: Trail, adapters: set<Venue>, facts: PositionFacts,
      chunk: nat, quantity: real, shortPrice: real, longPrice: real, short: Outcome, maxRetries: nat)
    requires Extends(before, mid)
    requires LegEnds(before, mid, adapters, LegRequest(facts, ShortLeg, chunk, quantity, shortPrice), short, maxRetries)
    ensures ChunkOrders(|before.placements|, mid, facts, chunk, quantity, shortPrice, longPrice)
    ensures maxRetries >= 1 && facts.shortVenue in adapters ==>
        LastOfClose(|before.placements|, mid, |mid.placements| - 1)
  {
    forall k | |before.placements| <= k < |mid.placements|
      ensures OpensChunk(mid.placements[k].request, facts, chunk, quantity, shortPrice, longPrice)
          || (|before.placements| < k && Follows(mid, k))
    {
      assert LinksAt(before, mid, LegRequest(facts, ShortLeg, chunk, quantity, shortPrice), k);
    }
  }

  lemma BothLegsSent(short: Outcome, long: Outcome, before: Trail, mid: Trail, now: Trail, adapters: set<Venue>,
      facts: PositionFacts, chunk: nat, quantity: real, shortPrice: real, longPrice: real, settled: bool)
    requires Extends(before, mid) && Extends(mid, now)
    requires LegAnswered(before, mid, adapters, LegRequest(facts, ShortLeg, chunk, quantity, shortPrice), short)
    requires LegAnswered(mid, now, adapters, LegRequest(facts, LongLeg, chunk, quantity, longPrice), long)
    requires settled ==> IsDone(short) && IsDone(long)
    ensures ChunkSent(adapters, |before.placements|, now, facts, chunk, quantity, shortPrice, longPrice, settled)
  {
    if facts.shortVenue in adapters {
      var request := LegRequest(facts, ShortLeg, chunk, quantity, shortPrice);
      AnsweredLegIsSent(before, mid, adapters, request, short);
      LegSentStays(|before.placements|, |before.placements|, mid, now, request, IsDone(short));
    }
    if facts.longVenue in adapters {
      var request := LegRequest(facts, LongLeg, chunk, quantity, longPrice);
      AnsweredLegIsSent(mid, now, adapters, request, long);
      SelfExtends(now);
      LegSentStays(|before.placements|, |mid.placements|, now, now, request, IsDone(long));
    }
  }

  /** The chunk goes on after both legs. */
  lemma ChunkGoesOn(short: Outcome, long: Outcome, before: Trail, mid: Trail, now: Trail, adapters: set<Venue>,
      facts: PositionFacts, chunk: nat, quantity: real, shortPrice: real, longPrice: real, reasonGiven: bool,
      maxRetries: nat)
    requires Extends(before, mid) && Extends(mid, now)
    requires LegEnds(before, mid, adapters, LegRequest(facts, ShortLeg, chunk, quantity, shortPrice), short, maxRetries)
    requires LegEnds(mid, now, adapters, LegRequest(facts, LongLeg, chunk, quantity, longPrice), long, maxRetries)
    requires short != LegRejected && (reasonGiven ==> IsDone(short) && IsDone(long))
    ensures ChunkEnds(NextChunk, before, now, adapters, facts, chunk, quantity, shortPrice, longPrice, reasonGiven,
        maxRetries)
  {
    LongLegAnswered(before, mid, now, adapters, facts, LegRequest(facts, ShortLeg, chunk, quantity, shortPrice), short,
      LegRequest(facts, LongLeg, chunk, quantity, longPrice), long, maxRetries);
    LegsAreChunkOrders(before, mid, now, adapters, facts, chunk, quantity, shortPrice, longPrice, short, long,
      maxRetries);
    if maxRetries >= 1 {
      BothLegsSent(short, long, before, mid, now, adapters, facts, chunk, quantity, shortPrice, longPrice, reasonGiven);
    }
  }

  /** The chunk ends with its short leg refused. */
  lemma ChunkRefused(before: Trail, now: Trail, adapters: set<Venue>, facts: PositionFacts, chunk: nat,
      quantity: real, shortPrice: real, longPrice: real, reasonGiven: bool, maxRetries: nat)
    requires Extends(before, now)
    requires LegEnds(before, now, adapters, LegRequest(facts, ShortLeg, chunk, quantity, shortPrice), LegRejected,
        maxRetries)
    ensures ChunkEnds(Refused, before, now, adapters, facts, chunk, quantity, shortPrice, longPrice, reasonGiven,
        maxRetries)
  {
    ShortLegAnswered(before, now, adapters, facts, LegRequest(facts, ShortLeg, chunk, quantity, shortPrice),
      LegRejected, maxRetries);
    ShortLegIsChunkOrders(before, now, adapters, facts, chunk, quantity, shortPrice, longPrice, LegRejected,
      maxRetries);
  }

  /** The chunk is in trouble: the orders of its legs so far, and what makes a compensation due. */
  ghost predicate ChunkTroubled(begun: Trail, now: Trail, adapters: set<Venue>, facts: PositionFacts, chunk: nat,
      quantity: real, shortPrice: real, longPrice: real, maxRetries: nat)
  {
    && Extends(begun, now)
    && ChunkOrders(|begun.placements|, now, facts, chunk, quantity, shortPrice, longPrice)
    && Troubled(begun, now, adapters, facts, maxRetries)
    && (maxRetries >= 1 ==>
      && !ShortRefused(begun, now, adapters, facts) && facts.shortVenue in adapters
      && exists m: nat :: LastOfClose(|begun.placements|, now, m))
  }

  lemma ShortInDoubt(begun: Trail, now: Trail, adapters: set<Venue>, facts: PositionFacts, chunk: nat, quantity: real,
      shortPrice: real, longPrice: real, maxRetries: nat)
    requires Extends(begun, now)
    requires LegEnds(begun, now, adapters, LegRequest(facts, ShortLeg, chunk, quantity, shortPrice), LegUncertain,
        maxRetries)
    ensures ChunkTroubled(begun, now, adapters, facts, chunk, quantity, shortPrice, longPrice, maxRetries)
  {
    ShortLegAnswered(begun, now, adapters, facts, LegRequest(facts, ShortLeg, chunk, quantity, shortPrice),
      LegUncertain, maxRetries);
    ShortLegIsChunkOrders(begun, now, adapters, facts, chunk, quantity, shortPrice, longPrice, LegUncertain,
      maxRetries);
  }

  lemma LongUnsettled(begun: Trail, mid: Trail, now: Trail, adapters: set<Venue>, facts: PositionFacts, chunk: nat,
      quantity: real, shortPrice: real, longPrice: real, short: Outcome, long: Outcome, maxRetries: nat)
    requires Extends(begun, mid) && Extends(mid, now) && short != LegRejected && !IsDone(long)
    requires LegEnds(begun, mid, adapters, LegRequest(facts, ShortLeg, chunk, quantity, shortPrice), short, maxRetries)
    requires LegEnds(mid, now, adapters, LegRequest(facts, LongLeg, chunk, quantity, longPrice), long, maxRetries)
    ensures ChunkTroubled(begun, now, adapters, facts, chunk, quantity, shortPrice, longPrice, maxRetries)
  {
    LongLegAnswered(begun, mid, now, adapters, facts, LegRequest(facts, ShortLeg, chunk, quantity, shortPrice), short,
      LegRequest(facts, LongLeg, chunk, quantity, longPrice), long, maxRetries);
    LegsAreChunkOrders(begun, mid, now, adapters, facts, chunk, quantity, shortPrice, longPrice, short, long,
      maxRetries);
  }

  /** A chunk in trouble, once compensated. */
  lemma CompensationEnds(begun: Trail, mid: Trail, now: Trail, adapters: set<Venue>, facts: PositionFacts,
      short: LegView, long: LegView, short': LegView, long': LegView, ok: bool, chunk: nat, quantity: real,
      shortPrice: real, longPrice: real, maxRetries: nat)
    requires ChunkTroubled(begun, mid, adapters, facts, chunk, quantity, shortPrice, longPrice, maxRetries)
    requires CompensatedFully(mid, now, adapters, facts, short, short', long, long', ok)
    ensures ChunkEnds(if ok then Compensated else Aborted, begun, now, adapters, facts, chunk, quantity, shortPrice,
        longPrice, true, maxRetries)
  {
    TroubleStays(begun, mid, now, adapters, facts, maxRetries);
    ChunkOrdersStay(|begun.placements|, mid, now, facts, chunk, quantity, shortPrice, longPrice);
    if maxRetries >= 1 {
      var m: nat :| LastOfClose(|begun.placements|, mid, m);
      LastStays(|begun.placements|, mid, now, m);
      StillNotRefused(begun, mid, now, adapters, facts);
    }
    if !ok {
      var v :| v in adapters && v in {facts.shortVenue, facts.longVenue} && GaveUpOn(mid, now, v);
      GaveUpEarlier(begun, mid, now, v);
    }
    assert FreshFrom(now.reconciles, |begun.reconciles|) ==> FreshFrom(now.reconciles, |mid.reconciles|);
  }

  lemma LastStays(n: nat, mid: Trail, now: Trail, m: nat)
    requires Extends(mid, now) && LastOfClose(n, mid, m) && CompensatesFrom(now.placements, |mid.placements|)
    ensures LastOfClose(n, now, m)
  {
    assert forall k :: 0 <= k < |mid.placements| ==> now.placements[k] == mid.placements[k];
  }

  lemma StillNotRefused(start: Trail, mid: Trail, now: Trail, adapters: set<Venue>, facts: PositionFacts)
    requires Extends(start, mid) && Extends(mid, now) && !ShortRefused(start, mid, adapters, facts)
    requires CompensatesFrom(now.placements, |mid.placements|) && facts.shortVenue in adapters
    ensures !ShortRefused(start, now, adapters, facts)
  {
    if |start.placements| < |mid.placements| {
      JudgementStays(mid, now, mid.placements[|mid.placements| - 1]);
    }
  }

  /** A chunk that went on changes nothing about how the next one ends. */
  lemma EndsLater(verdict: ChunkVerdict, start: Trail, mid: Trail, now: Trail, adapters: set<Venue>,
      facts: PositionFacts, reasonGiven: bool, maxRetries: nat)
    requires Extends(start, mid) && Extends(mid, now)
        && EndsAs(verdict, mid, now, adapters, facts, reasonGiven, maxRetries)
    requires maxRetries >= 1 ==>
               if facts.shortVenue in adapters then exists m: nat :: LastOfClose(|mid.placements|, now, m)
               else mid.placements == start.placements
    ensures EndsAs(verdict, start, now, adapters, facts, reasonGiven, maxRetries)
  {
    if verdict == Aborted {
      var v :| v in adapters && v in {facts.shortVenue, facts.longVenue} && GaveUpOn(mid, now, v);
      GaveUpEarlier(start, mid, now, v);
    }
    TroubleOfLastChunk(start, mid, now, adapters, facts, maxRetries);
    assert FreshFrom(now.reconciles, |start.reconciles|) ==> FreshFrom(now.reconciles, |mid.reconciles|);
  }

  lemma TroubleOfLastChunk(start: Trail, mid: Trail, now: Trail, adapters: set<Venue>, facts: PositionFacts,
      maxRetries: nat)
    requires Extends(start, mid) && Extends(mid, now)
    requires maxRetries >= 1 ==>
               if facts.shortVenue in adapters then exists m: nat :: LastOfClose(|mid.placements|, now, m)
               else mid.placements == start.placements
    ensures Troubled(start, now, adapters, facts, maxRetries) <==> Troubled(mid, now, adapters, facts, maxRetries)
  {
    if maxRetries >= 1 && facts.shortVenue in adapters {
      var m: nat :| LastOfClose(|mid.placements|, now, m);
      assert LastOfClose(|start.placements|, now, m);
      TroubledByLast(start, now, adapters, facts, maxRetries, m);
      TroubledByLast(mid, now, adapters, facts, maxRetries, m);
    }
  }

  // ---------------------------------------------------------------------------------------------
  // All chunks
  // ---------------------------------------------------------------------------------------------

  /** How the loop ends over the first chunks: as the answers make it end, with only orders of the plan, and with both
      legs of each of these chunks sent when the next one may follow. */
  ghost predicate LoopEnds(verdict: ChunkVerdict, start: Trail, now: Trail, adapters: set<Venue>,
      facts: PositionFacts, chunks: seq<real>, count: nat, shortPrice: real, longPrice: real, reasonGiven: bool,
      maxRetries: nat)
    requires count <= |chunks|
  {
    && EndsAs(verdict, start, now, adapters, facts, reasonGiven, maxRetries)
    && PlannedOrders(|start.placements|, now, facts, chunks, count, shortPrice, longPrice)
    && (maxRetries >= 1 && verdict == NextChunk ==>
          && facts.shortVenue in adapters
          && AllSent(adapters, |start.placements|, now, facts, chunks, count, shortPrice, longPrice, reasonGiven))
  }

  lemma OneMoreChunk(verdict: ChunkVerdict, start: Trail, before: Trail, now: Trail, adapters: set<Venue>,
      facts: PositionFacts, chunks: seq<real>, n: nat, shortPrice: real, longPrice: real, reasonGiven: bool,
      maxRetries: nat)
    requires Extends(start, before) && Extends(before, now) && n < |chunks|
    requires if n == 0 then before == start
             else LoopEnds(NextChunk, start, before, adapters, facts, chunks, n, shortPrice, longPrice, reasonGiven,
                    maxRetries)
    requires ChunkEnds(verdict, before, now, adapters, facts, ChunkNumber(chunks, n), chunks[n], shortPrice, longPrice,
        reasonGiven, maxRetries)
    ensures LoopEnds(verdict, start, now, adapters, facts, chunks, n + 1, shortPrice, longPrice, reasonGiven,
        maxRetries)
  {
    EndsLater(verdict, start, before, now, adapters, facts, reasonGiven, maxRetries);
    OneMorePlanned(|start.placements|, before, now, facts, chunks, n, shortPrice, longPrice);
    if maxRetries >= 1 && verdict == NextChunk {
      OneMoreSent(adapters, start, before, now, facts, chunks, n, shortPrice, longPrice, reasonGiven);
    }
  }

  /** A loop that ended early used fewer chunks than planned. */
  lemma MoreChunksPlanned(verdict: ChunkVerdict, start: Trail, now: Trail, adapters: set<Venue>, facts: PositionFacts,
      chunks: seq<real>, count: nat, shortPrice: real, longPrice: real, reasonGiven: bool, maxRetries: nat)
    requires count <= |chunks| && verdict != NextChunk
    requires LoopEnds(verdict, start, now, adapters, facts, chunks, count, shortPrice, longPrice, reasonGiven,
        maxRetries)
    ensures LoopEnds(verdict, start, now, adapters, facts, chunks, |chunks|, shortPrice, longPrice, reasonGiven,
        maxRetries)
  {
    forall k | |start.placements| <= k < |now.placements| && now.placements[k].phase == Closing
      ensures OpensOneOf(now.placements[k].request, facts, chunks, |chunks|, shortPrice, longPrice)
          || (|start.placements| < k && Follows(now, k))
    {
      if OpensOneOf(now.placements[k].request, facts, chunks, count, shortPrice, longPrice) {
        var i :| 0 <= i < count && OpensChunk(now.placements[k].request, facts, ChunkNumber(chunks, i), chunks[i],
            shortPrice, longPrice);
      }
    }
  }

  /** The chunks of the run are a plan of the total, and every order opens a leg of one of them or follows from the
      order before it; all chunks were submitted on both legs, and settled when the close has a reason, or the loop
      ended earlier as the answers made it end. */
  ghost predicate RunAsPlanned(run: CloseRun, start: Trail, now: Trail, adapters: set<Venue>, facts: PositionFacts,
      total: real, longPrice: real, shortPrice: real, cap: real, reasonGiven: bool, maxRetries: nat)
  {
    && ClosePlan(run.chunks, total, longPrice, shortPrice, cap)
    && NonNegative(run.short.legs) && NonNegative(run.long.legs)
    && LoopEnds(run.verdict, start, now, adapters, facts, run.chunks, |run.chunks|, shortPrice, longPrice, reasonGiven,
         maxRetries)
  }

  /** Nothing is on record, and nothing happened. */
  lemma NothingAccounted(start: Trail, facts: PositionFacts, maxRetries: nat)
    ensures Accounted(start, start, facts, LegView([], [], false), LegView([], [], false), maxRetries)
  {
    forall leg
      ensures Attributed(start, start, facts, leg, [])
    {
      assert Originate(start, start, facts, leg, [], []) && AllHaveLegs(|start.placements|, start, facts, leg, [], []);
    }
  }

  lemma FinalBillMeansResolved(start: Trail, now: Trail, facts: PositionFacts, short: LegView, long: LegView)
    requires UnresolvedKnown(start, now, facts, short, long) && FinalBill(facts, short, long)
    ensures AllResolved(start, now)
  {
  }

  // ---------------------------------------------------------------------------------------------
  // The executor
  // ---------------------------------------------------------------------------------------------

  /** All fills in the ledger are of non-negative quantity. */
  ghost predicate Sane(ledger: LegLedger)
    reads ledger
  {
    NonNegative(ledger.legs)
  }

  class CloseExecutor {
    const exchange: Venues
    const journal: Journal
    const maxCloseRetries: nat
    const chunkMaxNotional: real

    constructor (exchange: Venues, journal: Journal, maxCloseRetries: nat, chunkMaxNotional: real)
      ensures this.exchange == exchange && this.journal == journal
      ensures this.maxCloseRetries == maxCloseRetries && this.chunkMaxNotional == chunkMaxNotional
    {
      this.exchange, this.journal := exchange, journal;
      this.maxCloseRetries, this.chunkMaxNotional := maxCloseRetries, chunkMaxNotional;
    }

    /** Keeps what a submitted leg produced. */
    method RecordLeg(ledger: LegLedger, result: LegResult, history: seq<Identity>, cid: Id)
      requires Sane(ledger) && (result.outcome == LegFilled <==> result.fill.Some?)
      requires result.fill.Some? ==> result.fill.value.quantity >= 0.0
      modifies ledger
      ensures ledger.View() == AfterLeg(old(ledger.View()), result, history, cid)
      ensures Sane(ledger)
      ensures ledger.clientOrderIds == old(ledger.clientOrderIds) + if result.outcome == LegUncertain then [cid] else []
    {
      var known := RememberAll(ledger.identities, history);
      assert known == [] ==> ledger.identities == [];
      var retained := |known| > |ledger.identities|;
      assert retained <==> known != ledger.identities;
      ledger.identities := known;
      if retained {
        ledger.uncertain := true;
      }
      if result.outcome == LegFilled {
        ledger.legs := ledger.legs + [CloseLeg(result.fill.value, cid)];
      } else if result.outcome == LegUncertain {
        ledger.uncertain := true;
        ledger.clientOrderIds := ledger.clientOrderIds + [cid];
      }
    }

    /** Submits one leg of a chunk and keeps everything it produced in the ledger of the leg. */
    method SubmitLeg(facts: PositionFacts, leg: LegLabel, ledger: LegLedger, ghost other: LegLedger,
        chunk: nat, quantity: real, price: real, now: int, ghost start: Trail)
      returns (outcome: Outcome)
      requires ledger != other && Sane(ledger)
      requires Accounted(start, exchange.Trail(), facts,
                 if leg == ShortLeg then ledger.View() else other.View(),
                 if leg == ShortLeg then other.View() else ledger.View(), maxCloseRetries)
      requires Numbered(start, exchange.Trail(), if leg == ShortLeg then chunk else chunk + 1, chunk)
      modifies exchange, ledger
      ensures Accounted(start, exchange.Trail(), facts,
                if leg == ShortLeg then ledger.View() else other.View(),
                if leg == ShortLeg then other.View() else ledger.View(), maxCloseRetries)
      ensures Numbered(start, exchange.Trail(), chunk + 1, if leg == ShortLeg then chunk else chunk + 1)
      ensures Sane(ledger) && Extends(old(exchange.Trail()), exchange.Trail())
      ensures LegEnds(old(exchange.Trail()), exchange.Trail(), exchange.adapters,
                LegRequest(facts, leg, chunk, quantity, price), outcome, maxCloseRetries)
    {
      var request := LegRequest(facts, leg, chunk, quantity, price);
      ghost var before := exchange.Trail();
      ghost var had := ledger.View();
      var result, history := SubmitCloseLegWithRetry(exchange, request, facts.positionId, leg, maxCloseRetries, now);
      RecordLeg(ledger, result, history, request.clientOrderId);
      outcome := result.outcome;
      AccountedAfterLeg(start, before, exchange.Trail(), facts, leg, chunk, request, history, result,
        if leg == ShortLeg then had else other.View(), if leg == ShortLeg then other.View() else had,
        if leg == ShortLeg then ledger.View() else other.View(), if leg == ShortLeg then other.View()
        else ledger.View(),
        maxCloseRetries);
    }

    /** Compensates, after a chunk that began at `begun` went wrong. */
    method Compensate(facts: PositionFacts, state: EngineState?, shortLedger: LegLedger, longLedger: LegLedger,
        ghost start: Trail, ghost begun: Trail, ghost chunk: nat, ghost quantity: real, ghost shortPrice: real,
        ghost longPrice: real, ghost shortChunk: nat, ghost longChunk: nat)
      returns (verdict: ChunkVerdict)
      requires shortLedger != longLedger && Sane(shortLedger) && Sane(longLedger)
      requires Accounted(start, exchange.Trail(), facts, shortLedger.View(), longLedger.View(), maxCloseRetries)
      requires Numbered(start, exchange.Trail(), shortChunk, longChunk)
      requires ChunkTroubled(begun, exchange.Trail(), exchange.adapters, facts, chunk, quantity, shortPrice, longPrice,
                 maxCloseRetries)
      modifies exchange, journal, shortLedger, longLedger, Objects(state)`failClosed
      ensures Accounted(start, exchange.Trail(), facts, shortLedger.View(), longLedger.View(), maxCloseRetries)
      ensures Sane(shortLedger) && Sane(longLedger) && Extends(old(exchange.Trail()), exchange.Trail())
      ensures verdict == Compensated || verdict == Aborted
      ensures verdict == Aborted && state != null ==> state.failClosed
      ensures ChunkEnds(verdict, begun, exchange.Trail(), exchange.adapters, facts, chunk, quantity, shortPrice,
                longPrice, true, maxCloseRetries)
      ensures BookOf(journal.events) == old(BookOf(journal.events))
    {
      ghost var before := exchange.Trail();
      ghost var short, long := shortLedger.View(), longLedger.View();
      var ok := CompensateFailedFullClose(exchange, state, journal, facts, shortLedger, longLedger);
      AccountedAfterCompensation(start, before, exchange.Trail(), exchange.adapters, facts,
        short, long, shortLedger.View(), longLedger.View(), ok, maxCloseRetries, shortChunk, longChunk);
      CompensationEnds(begun, before, exchange.Trail(), exchange.adapters, facts,
        short, long, shortLedger.View(), longLedger.View(), ok, chunk, quantity, shortPrice, longPrice,
        maxCloseRetries);
      BookAppend(old(journal.events), CompensationFailed(facts.shortVenue));
      BookAppend(old(journal.events), CompensationFailed(facts.longVenue));
      verdict := if ok then Compensated else Aborted;
    }

    /** One chunk: the short leg, then the long leg, compensating when a leg is left in doubt. */
    method SubmitChunk(facts: PositionFacts, state: EngineState?, shortLedger: LegLedger, longLedger: LegLedger,
        reasonGiven: bool, chunk: nat, quantity: real, shortPrice: real, longPrice: real, now: int, ghost start: Trail)
      returns (verdict: ChunkVerdict)
      requires shortLedger != longLedger && Sane(shortLedger) && Sane(longLedger)
      requires Accounted(start, exchange.Trail(), facts, shortLedger.View(), longLedger.View(), maxCloseRetries)
      requires Numbered(start, exchange.Trail(), chunk, chunk)
      modifies exchange, journal, shortLedger, longLedger, Objects(state)`failClosed
      ensures Accounted(start, exchange.Trail(), facts, shortLedger.View(), longLedger.View(), maxCloseRetries)
      ensures verdict == NextChunk ==> Numbered(start, exchange.Trail(), chunk + 1, chunk + 1)
      ensures Sane(shortLedger) && Sane(longLedger) && Extends(old(exchange.Trail()), exchange.Trail())
      ensures verdict == Aborted && state != null ==> state.failClosed
      ensures ChunkEnds(verdict, old(exchange.Trail()), exchange.Trail(), exchange.adapters, facts, chunk, quantity,
                shortPrice, longPrice, reasonGiven, maxCloseRetries)
      ensures BookOf(journal.events) == old(BookOf(journal.events))
    {
      ghost var before := exchange.Trail();
      var short := SubmitLeg(facts, ShortLeg, shortLedger, longLedger, chunk, quantity, shortPrice, now, start);
      ghost var mid := exchange.Trail();
      verdict := AfterShort(facts, state, shortLedger, longLedger, short, reasonGiven, chunk, quantity, shortPrice,
          longPrice, now, start, before);
      ExtendsCompose(before, mid, exchange.Trail());
    }

    /** A chunk that began at `begun`, after its short leg. */
    method AfterShort(facts: PositionFacts, state: EngineState?, shortLedger: LegLedger, longLedger: LegLedger,
        short: Outcome, reasonGiven: bool, chunk: nat, quantity: real, ghost shortPrice: real, longPrice: real,
        now: int, ghost start: Trail, ghost begun: Trail)
      returns (verdict: ChunkVerdict)
      requires shortLedger != longLedger && Sane(shortLedger) && Sane(longLedger)
      requires Accounted(start, exchange.Trail(), facts, shortLedger.View(), longLedger.View(), maxCloseRetries)
      requires Numbered(start, exchange.Trail(), chunk + 1, chunk)
      requires Extends(begun, exchange.Trail())
      requires LegEnds(begun, exchange.Trail(), exchange.adapters,
                 LegRequest(facts, ShortLeg, chunk, quantity, shortPrice), short, maxCloseRetries)
      modifies exchange, journal, shortLedger, longLedger, Objects(state)`failClosed
      ensures Accounted(start, exchange.Trail(), facts, shortLedger.View(), longLedger.View(), maxCloseRetries)
      ensures verdict == NextChunk ==> Numbered(start, exchange.Trail(), chunk + 1, chunk + 1)
      ensures Sane(shortLedger) && Sane(longLedger) && Extends(old(exchange.Trail()), exchange.Trail())
      ensures verdict == Aborted && state != null ==> state.failClosed
      ensures ChunkEnds(verdict, begun, exchange.Trail(), exchange.adapters, facts, chunk, quantity,
                shortPrice, longPrice, reasonGiven, maxCloseRetries)
      ensures BookOf(journal.events) == old(BookOf(journal.events))
    {
      if short == LegUncertain && reasonGiven {
        ShortInDoubt(begun, exchange.Trail(), exchange.adapters, facts, chunk, quantity, shortPrice, longPrice,
          maxCloseRetries);
        verdict := Compensate(facts, state, shortLedger, longLedger, start, begun, chunk, quantity, shortPrice,
            longPrice, chunk + 1, chunk);
      } else if short == LegRejected {
        RefuseChunk(facts, chunk, quantity, shortPrice, longPrice, reasonGiven, begun);
        verdict := Refused;
      } else {
        verdict := FinishChunk(facts, state, shortLedger, longLedger, short, reasonGiven, chunk, quantity, shortPrice,
            longPrice, now, start, begun);
      }
    }

    /** The short leg was refused. */
    method RefuseChunk(facts: PositionFacts, ghost chunk: nat, ghost quantity: real, ghost shortPrice: real,
        ghost longPrice: real, ghost reasonGiven: bool, ghost begun: Trail)
      requires Extends(begun, exchange.Trail())
      requires LegEnds(begun, exchange.Trail(), exchange.adapters,
                 LegRequest(facts, ShortLeg, chunk, quantity, shortPrice), LegRejected, maxCloseRetries)
      modifies journal
      ensures ChunkEnds(Refused, begun, exchange.Trail(), exchange.adapters, facts, chunk, quantity,
                shortPrice, longPrice, reasonGiven, maxCloseRetries)
      ensures BookOf(journal.events) == old(BookOf(journal.events))
    {
      ChunkRefused(begun, exchange.Trail(), exchange.adapters, facts, chunk, quantity, shortPrice, longPrice,
        reasonGiven, maxCloseRetries);
      BookAppend(journal.events, CloseFailed(facts.positionId));
      journal.Append(CloseFailed(facts.positionId));
    }

    /** The rest of a chunk that began at `begun`, once its short leg was not refused. */
    method FinishChunk(facts: PositionFacts, state: EngineState?, shortLedger: LegLedger, longLedger: LegLedger,
        short: Outcome, reasonGiven: bool, chunk: nat, quantity: real, ghost shortPrice: real, longPrice: real,
        now: int, ghost start: Trail, ghost begun: Trail)
      returns (verdict: ChunkVerdict)
      requires shortLedger != longLedger && Sane(shortLedger) && Sane(longLedger)
      requires Accounted(start, exchange.Trail(), facts, shortLedger.View(), longLedger.View(), maxCloseRetries)
      requires Numbered(start, exchange.Trail(), chunk + 1, chunk)
      requires Extends(begun, exchange.Trail())
      requires short != LegRejected && (short == LegUncertain ==> !reasonGiven)
      requires LegEnds(begun, exchange.Trail(), exchange.adapters,
                 LegRequest(facts, ShortLeg, chunk, quantity, shortPrice), short, maxCloseRetries)
      modifies exchange, journal, shortLedger, longLedger, Objects(state)`failClosed
      ensures Accounted(start, exchange.Trail(), facts, shortLedger.View(), longLedger.View(), maxCloseRetries)
      ensures verdict == NextChunk ==> Numbered(start, exchange.Trail(), chunk + 1, chunk + 1)
      ensures Sane(shortLedger) && Sane(longLedger) && Extends(old(exchange.Trail()), exchange.Trail())
      ensures verdict == Aborted && state != null ==> state.failClosed
      ensures ChunkEnds(verdict, begun, exchange.Trail(), exchange.adapters, facts, chunk, quantity,
                shortPrice, longPrice, reasonGiven, maxCloseRetries)
      ensures BookOf(journal.events) == old(BookOf(journal.events))
    {
      ghost var mid := exchange.Trail();
      var long := SubmitLeg(facts, LongLeg, longLedger, shortLedger, chunk, quantity, longPrice, now, start);
      ghost var late := exchange.Trail();
      verdict := AfterLong(facts, state, shortLedger, longLedger, short, long, reasonGiven, chunk, quantity,
          shortPrice, longPrice, start, begun, mid);
      ExtendsCompose(mid, late, exchange.Trail());
    }

    /** A chunk that began at `begun`, after both legs. */
    method AfterLong(facts: PositionFacts, state: EngineState?, shortLedger: LegLedger, longLedger: LegLedger,
        ghost short: Outcome, long: Outcome, reasonGiven: bool, ghost chunk: nat, ghost quantity: real,
        ghost shortPrice: real, ghost longPrice: real, ghost start: Trail, ghost begun: Trail, ghost mid: Trail)
      returns (verdict: ChunkVerdict)
      requires shortLedger != longLedger && Sane(shortLedger) && Sane(longLedger)
      requires Accounted(start, exchange.Trail(), facts, shortLedger.View(), longLedger.View(), maxCloseRetries)
      requires Numbered(start, exchange.Trail(), chunk + 1, chunk + 1)
      requires Extends(begun, mid) && Extends(mid, exchange.Trail())
      requires short != LegRejected && (short == LegUncertain ==> !reasonGiven)
      requires LegEnds(begun, mid, exchange.adapters, LegRequest(facts, ShortLeg, chunk, quantity, shortPrice), short,
                 maxCloseRetries)
      requires LegEnds(mid, exchange.Trail(), exchange.adapters,
                 LegRequest(facts, LongLeg, chunk, quantity, longPrice), long, maxCloseRetries)
      modifies exchange, journal, shortLedger, longLedger, Objects(state)`failClosed
      ensures Accounted(start, exchange.Trail(), facts, shortLedger.View(), longLedger.View(), maxCloseRetries)
      ensures verdict == NextChunk ==> Numbered(start, exchange.Trail(), chunk + 1, chunk + 1)
      ensures Sane(shortLedger) && Sane(longLedger) && Extends(old(exchange.Trail()), exchange.Trail())
      ensures verdict == Aborted && state != null ==> state.failClosed
      ensures ChunkEnds(verdict, begun, exchange.Trail(), exchange.adapters, facts, chunk, quantity,
                shortPrice, longPrice, reasonGiven, maxCloseRetries)
      ensures BookOf(journal.events) == old(BookOf(journal.events))
    {
      if (long == LegUncertain || long == LegRejected) && reasonGiven {
        LongUnsettled(begun, mid, exchange.Trail(), exchange.adapters, facts, chunk, quantity, shortPrice, longPrice,
          short, long, maxCloseRetries);
        verdict := Compensate(facts, state, shortLedger, longLedger, start, begun, chunk, quantity, shortPrice,
            longPrice, chunk + 1, chunk + 1);
      } else {
        verdict := NextChunk;
        ChunkGoesOn(short, long, begun, mid, exchange.Trail(), exchange.adapters, facts, chunk, quantity, shortPrice,
          longPrice, reasonGiven, maxCloseRetries);
      }
    }

    /** The chunk loop. NextChunk means all chunks were submitted. */
    method RunChunks(facts: PositionFacts, state: EngineState?, shortLedger: LegLedger, longLedger: LegLedger,
        reasonGiven: bool, chunks: seq<real>, shortPrice: real, longPrice: real, now: int, ghost start: Trail)
      returns (verdict: ChunkVerdict)
      requires shortLedger != longLedger && Sane(shortLedger) && Sane(longLedger) && chunks != []
      requires Accounted(start, exchange.Trail(), facts, shortLedger.View(), longLedger.View(), maxCloseRetries)
      requires start == exchange.Trail()
      modifies exchange, journal, shortLedger, longLedger, Objects(state)`failClosed
      ensures Accounted(start, exchange.Trail(), facts, shortLedger.View(), longLedger.View(), maxCloseRetries)
      ensures Sane(shortLedger) && Sane(longLedger)
      ensures verdict == Aborted && state != null ==> state.failClosed
      ensures LoopEnds(verdict, start, exchange.Trail(), exchange.adapters, facts, chunks, |chunks|, shortPrice,
                longPrice, reasonGiven, maxCloseRetries)
      ensures BookOf(journal.events) == old(BookOf(journal.events))
    {
      verdict := NextChunk;
      for i := 0 to |chunks|
        invariant Sane(shortLedger) && Sane(longLedger) && verdict == NextChunk
        invariant Accounted(start, exchange.Trail(), facts, shortLedger.View(), longLedger.View(), maxCloseRetries)
        invariant i < |chunks| ==>
            Numbered(start, exchange.Trail(), ChunkNumber(chunks, i), ChunkNumber(chunks, i))
        invariant if i == 0 then exchange.Trail() == start
                  else LoopEnds(NextChunk, start, exchange.Trail(), exchange.adapters, facts, chunks, i, shortPrice,
                         longPrice, reasonGiven, maxCloseRetries)
        invariant BookOf(journal.events) == old(BookOf(journal.events))
      {
        ghost var before := exchange.Trail();
        verdict := SubmitChunk(facts, state, shortLedger, longLedger, reasonGiven,
          ChunkNumber(chunks, i), chunks[i], shortPrice, longPrice, now, start);
        OneMoreChunk(verdict, start, before, exchange.Trail(), exchange.adapters, facts, chunks, i, shortPrice,
          longPrice, reasonGiven, maxCloseRetries);
        if verdict != NextChunk {
          MoreChunksPlanned(verdict, start, exchange.Trail(), exchange.adapters, facts, chunks, i + 1, shortPrice,
            longPrice, reasonGiven, maxCloseRetries);
          return;
        }
      }
    }

    /** Plans the chunks and submits them, on new ledgers. */
    method PlanAndRun(position: OpenPosition, state: EngineState?, reasonGiven: bool, total: real, shortPrice: real,
        longPrice: real, now: int)
      returns (shortLedger: LegLedger, longLedger: LegLedger, verdict: ChunkVerdict, ghost run: CloseRun)
      requires total > 0.0
      modifies exchange, journal, Objects(state)`failClosed
      ensures fresh(shortLedger) && fresh(longLedger) && run.verdict == verdict
      ensures run.short == shortLedger.View() && run.long == longLedger.View()
      ensures Accounted(old(exchange.Trail()), exchange.Trail(), position.facts, run.short, run.long, maxCloseRetries)
      ensures verdict == Aborted && state != null ==> state.failClosed
      ensures RunAsPlanned(run, old(exchange.Trail()), exchange.Trail(), exchange.adapters, position.facts, total,
                longPrice, shortPrice, chunkMaxNotional, reasonGiven, maxCloseRetries)
      ensures BooksOf(position, state, journal) == old(BooksOf(position, state, journal))
    {
      var facts := position.facts;
      shortLedger := new LegLedger();
      longLedger := new LegLedger();
      var chunks := ComputeCloseChunks(total, longPrice, shortPrice, chunkMaxNotional, 0.0, 0.0,
          Some((facts.longVenue, facts.shortVenue)));
      ghost var start := exchange.Trail();
      NothingAccounted(start, facts, maxCloseRetries);
      verdict := RunChunks(facts, state, shortLedger, longLedger, reasonGiven, chunks, shortPrice, longPrice, now,
          start);
      run := CloseRun(shortLedger.View(), longLedger.View(), chunks, verdict);
    }

    /** The quantities and sums of the position. */
    method UpdatePosition(position: OpenPosition, close: CloseExecution, reason: string, longClosed: real,
        shortClosed: real, evidenceComplete: bool)
      modifies position
      ensures position.Held() == ApplyClose(old(position.Held()), close, longClosed, shortClosed, evidenceComplete)
      ensures position.buckets == Bucketed(old(position.buckets), reason, close, evidenceComplete)
      ensures position.lastRiskActionAt == old(position.lastRiskActionAt)
    {
      position.matchedQuantity := Max(position.matchedQuantity - Min(longClosed, shortClosed), 0.0);
      position.longQuantity := Max(position.longQuantity - longClosed, 0.0);
      position.shortQuantity := Max(position.shortQuantity - shortClosed, 0.0);
      if evidenceComplete {
        var fee := close.longFee + close.shortFee;
        position.realizedPricePnl := position.realizedPricePnl + close.realizedPricePnl;
        position.realizedExitFee := position.realizedExitFee + fee;
        var b := position.buckets;
        if IsRiskReason(reason) {
          position.buckets := b.(riskPnl := b.riskPnl + close.realizedPricePnl, riskFee := b.riskFee + fee);
        } else if IsProtectionReason(reason) {
          position.buckets := b.(protectionPnl := b.protectionPnl + close.realizedPricePnl,
              protectionFee := b.protectionFee + fee);
        }
        position.currentNet := position.currentNet + close.net;
      }
    }

    /** _writeback_to_state. */
    method WritebackToState(state: EngineState, position: OpenPosition, close: CloseExecution, reason: string,
        longClosed: real, shortClosed: real, longUncertain: bool, shortUncertain: bool, now: int,
        evidenceComplete: bool)
      modifies state`pendingCloses, state`openPositions, position, journal
      ensures position.Held() == ApplyClose(old(position.Held()), close, longClosed, shortClosed, evidenceComplete)
      ensures position.buckets == Bucketed(old(position.buckets), reason, close, evidenceComplete)
      ensures position.lastRiskActionAt ==
                if QTY_EPS <= position.matchedQuantity < DUST_QUANTITY then now else old(position.lastRiskActionAt)
      ensures state.openPositions ==
                if position.matchedQuantity < QTY_EPS then old(state.openPositions) - {position.facts.positionId}
                else old(state.openPositions)
      ensures state.pendingCloses ==
                WithPending(old(state.pendingCloses), position.facts.positionId, now, longClosed, shortClosed,
                    longUncertain, shortUncertain)
      ensures journal.events == old(journal.events) +
                if Min(longClosed, shortClosed) > QTY_EPS && position.matchedQuantity > QTY_EPS
                then [PartialClosed(position.facts.positionId, position.matchedQuantity, evidenceComplete)] else []
      ensures BookOf(journal.events) == old(BookOf(journal.events))
    {
      UpdatePosition(position, close, reason, longClosed, shortClosed, evidenceComplete);
      var matchedClosed := Min(longClosed, shortClosed);
      var id := position.facts.positionId;
      if longUncertain || shortUncertain {
        state.pendingCloses := state.pendingCloses[(id, now) := PendingClose(id, longClosed, shortClosed,
            longUncertain, shortUncertain)];
      }
      if matchedClosed > QTY_EPS && position.matchedQuantity > QTY_EPS {
        BookAppend(journal.events, PartialClosed(id, position.matchedQuantity, evidenceComplete));
        journal.Append(PartialClosed(id, position.matchedQuantity, evidenceComplete));
      }
      if position.matchedQuantity < QTY_EPS {
        state.openPositions := state.openPositions - {id};
      } else if position.matchedQuantity < DUST_QUANTITY {
        position.lastRiskActionAt := now;
      }
    }

    /** Registers a close whose bill is not complete. */
    method Register(position: OpenPosition, state: EngineState, shortLedger: LegLedger, longLedger: LegLedger, now: int,
        source: Source, gaps: seq<Gap>, ghost start: Trail)
      requires UnresolvedKnown(start, exchange.Trail(), position.facts, shortLedger.View(), longLedger.View())
      modifies state`queue, journal
      ensures Recorded(old(state.queue), state.queue, old(Registrations(journal.events)),
          Registrations(journal.events), false, start, exchange.Trail(),
                position.facts, shortLedger.View(), longLedger.View())
      ensures Bills(journal.events) == old(Bills(journal.events))
      ensures var r := Registrations(journal.events)[|old(Registrations(journal.events))|];
              && r.source == source && r.closedAt == now
              && Describes(r, position.facts, position.Held(), longLedger.legs, shortLedger.legs, gaps,
                   longLedger.clientOrderIds, shortLedger.clientOrderIds, longLedger.identities, shortLedger.identities)
    {
      ghost var before := journal.events;
      var r := RegisterReconciliation(state, journal, position, longLedger, shortLedger, now, source, gaps);
      RegistrationCoversUnresolved(r, start, exchange.Trail(), position.facts, position.Held(), gaps,
        shortLedger.View(), longLedger.View(), shortLedger.clientOrderIds, longLedger.clientOrderIds);
      RegistrationTells(r, position.facts, position.Held(), gaps, shortLedger.View(), longLedger.View(),
        shortLedger.clientOrderIds, longLedger.clientOrderIds);
      BookAppend(before, ReconciliationRegistered(r));
    }

    /** Keeps what is known when compensation could not prove the venues flat. */
    method PersistTruthGap(position: OpenPosition, state: EngineState?, shortLedger: LegLedger, longLedger: LegLedger,
        now: int, ghost start: Trail)
      requires UnresolvedKnown(start, exchange.Trail(), position.facts, shortLedger.View(), longLedger.View())
      modifies Objects(state)`queue, journal
      ensures Bills(journal.events) == old(Bills(journal.events))
      ensures if state == null then journal.events == old(journal.events)
              else
                && Recorded(old(state.queue), state.queue, old(Registrations(journal.events)),
                    Registrations(journal.events), false, start, exchange.Trail(),
                     position.facts, shortLedger.View(), longLedger.View())
                && Registrations(journal.events)[|old(Registrations(journal.events))|].source
                   == CompensationTruthUnavailable
    {
      if state != null {
        Register(position, state, shortLedger, longLedger, now, CompensationTruthUnavailable,
          EvidenceGaps(position.facts, longLedger.legs, shortLedger.legs, longLedger.Unresolved(),
              shortLedger.Unresolved()), start);
      }
    }

    /** The bill: final when the evidence is complete. */
    method EmitBill(facts: PositionFacts, close: CloseExecution, gaps: seq<Gap>, longUncertain: bool,
        shortUncertain: bool, hasState: bool)
      modifies journal
      ensures journal.events == old(journal.events) +
                if ClosedSomething(close) && gaps == [] then
                  [ExitClosed(facts.positionId, close.longCloseQty, close.shortCloseQty, longUncertain, shortUncertain,
                      AttributedNet(facts, close))]
                else if ClosedSomething(close) && !hasState then [BillingEvidenceUnavailable(facts.positionId, gaps)]
                else []
      ensures Bills(journal.events) == old(Bills(journal.events)) +
                if gaps == [] && ClosedSomething(close) then
                  [ExitClosed(facts.positionId, close.longCloseQty, close.shortCloseQty, longUncertain, shortUncertain,
                      AttributedNet(facts, close))]
                else []
      ensures Registrations(journal.events) == old(Registrations(journal.events))
    {
      var event;
      if ClosedSomething(close) && gaps == [] {
        event := ExitClosed(facts.positionId, close.longCloseQty, close.shortCloseQty, longUncertain, shortUncertain,
            AttributedNet(facts, close));
      } else if ClosedSomething(close) && !hasState {
        event := BillingEvidenceUnavailable(facts.positionId, gaps);
      } else {
        return;
      }
      BookAppend(journal.events, event);
      journal.Append(event);
    }

    /** Registers an incomplete bill, replaces the residual task, and writes the position back. */
    method RecordInState(position: OpenPosition, state: EngineState, shortLedger: LegLedger, longLedger: LegLedger,
        close: CloseExecution, reason: string, gaps: seq<Gap>, now: int, ghost start: Trail)
      requires UnresolvedKnown(start, exchange.Trail(), position.facts, shortLedger.View(), longLedger.View())
      requires gaps == [] <==> FinalBill(position.facts, shortLedger.View(), longLedger.View())
      modifies position, journal, state`queue, state`residualRepairs, state`pendingCloses, state`openPositions
      ensures Finished(position.facts, close, shortLedger.View(), longLedger.View(), Occasion(reason, now), start,
                exchange.Trail(), old(BooksOf(position, state, journal)), BooksOf(position, state, journal))
      ensures Bills(journal.events) == old(Bills(journal.events))
    {
      if gaps == [] {
        FinalBillMeansResolved(start, exchange.Trail(), position.facts, shortLedger.View(), longLedger.View());
      } else {
        Register(position, state, shortLedger, longLedger, now, CloseExecutionSource, gaps, start);
      }
      state.residualRepairs := WithResidual(state.residualRepairs,
        SplitResidual(position.facts, position.matchedQuantity, close.longCloseQty, close.shortCloseQty));
      WritebackToState(state, position, close, reason, close.longCloseQty, close.shortCloseQty,
        longLedger.Unresolved(), shortLedger.Unresolved(), now, gaps == []);
    }

    /** The gaps in the evidence; without any, the bill is final. */
    method AssessEvidence(facts: PositionFacts, shortLedger: LegLedger, longLedger: LegLedger) returns (gaps: seq<Gap>)
      ensures gaps == [] <==> FinalBill(facts, shortLedger.View(), longLedger.View())
      ensures gaps == EvidenceGaps(facts, longLedger.legs, shortLedger.legs, longLedger.Unresolved(),
          shortLedger.Unresolved())
    {
      gaps := EvidenceGaps(facts, longLedger.legs, shortLedger.legs, longLedger.Unresolved(), shortLedger.Unresolved());
      NoGapsMeansCompleteEvidence(facts, longLedger.legs, shortLedger.legs, longLedger.Unresolved(),
          shortLedger.Unresolved());
    }

    /** Everything after the chunk loop when something is on record: accounting, residual, write-back and the bill. */
    method FinishClose(position: OpenPosition, state: EngineState, shortLedger: LegLedger, longLedger: LegLedger,
        reason: string, now: int, ghost start: Trail)
      returns (close: CloseExecution)
      requires UnresolvedKnown(start, exchange.Trail(), position.facts, shortLedger.View(), longLedger.View())
      modifies position, journal, state`queue, state`residualRepairs, state`pendingCloses, state`openPositions
      ensures close == BuildCloseExecution(position.facts, shortLedger.legs, longLedger.legs)
      ensures Concluded(position.facts, Closed(close), shortLedger.View(), longLedger.View(), Occasion(reason, now),
                true, start, exchange.Trail(), old(BooksOf(position, state, journal)),
                BooksOf(position, state, journal))
    {
      var facts := position.facts;
      close := BuildCloseExecution(facts, shortLedger.legs, longLedger.legs);
      var gaps := AssessEvidence(facts, shortLedger, longLedger);
      RecordInState(position, state, shortLedger, longLedger, close, reason, gaps, now, start);
      EmitBill(facts, close, gaps, longLedger.Unresolved(), shortLedger.Unresolved(), true);
    }

    /** The same without a state: the bill, or the notice that there is none yet. */
    method FinishWithoutState(facts: PositionFacts, shortLedger: LegLedger,
        longLedger: LegLedger) returns (close: CloseExecution)
      modifies journal
      ensures close == BuildCloseExecution(facts, shortLedger.legs, longLedger.legs)
      ensures Bills(journal.events) == old(Bills(journal.events)) + BillsOf(Closed(close), facts, shortLedger.View(),
          longLedger.View())
      ensures Registrations(journal.events) == old(Registrations(journal.events))
    {
      close := BuildCloseExecution(facts, shortLedger.legs, longLedger.legs);
      var gaps := AssessEvidence(facts, shortLedger, longLedger);
      EmitBill(facts, close, gaps, longLedger.Unresolved(), shortLedger.Unresolved(), false);
    }

    /** How the close ends, by how its chunk loop ended. */
    method Conclude(position: OpenPosition, state: EngineState?, shortLedger: LegLedger, longLedger: LegLedger,
        verdict: ChunkVerdict, reason: string, now: int, ghost run: CloseRun, ghost start: Trail)
      returns (outcome: CloseOutcome)
      requires run.short == shortLedger.View() && run.long == longLedger.View() && run.verdict == verdict
      requires UnresolvedKnown(start, exchange.Trail(), position.facts, run.short, run.long)
      modifies position, journal, Objects(state)`queue, Objects(state)`residualRepairs, Objects(state)`pendingCloses,
        Objects(state)`openPositions
      ensures outcome == OutcomeOf(run, position.facts)
      ensures outcome != NothingToClose && (outcome.CompensationAborted? ==> verdict == Aborted)
      ensures Concluded(position.facts, outcome, run.short, run.long, Occasion(reason, now), state != null,
                start, exchange.Trail(), old(BooksOf(position, state, journal)), BooksOf(position, state, journal))
    {
      if verdict == Refused {
        outcome := ShortRejected;
      } else if verdict == Aborted {
        PersistTruthGap(position, state, shortLedger, longLedger, now, start);
        outcome := CompensationAborted(BuildCloseExecution(position.facts, shortLedger.legs, longLedger.legs));
      } else {
        outcome := ConcludeLoop(position, state, shortLedger, longLedger, reason, now, start);
      }
    }

    /** After the chunk loop, or a compensation that left the venues flat. */
    method ConcludeLoop(position: OpenPosition, state: EngineState?, shortLedger: LegLedger, longLedger: LegLedger,
        reason: string, now: int, ghost start: Trail)
      returns (outcome: CloseOutcome)
      requires UnresolvedKnown(start, exchange.Trail(), position.facts, shortLedger.View(), longLedger.View())
      modifies position, journal, Objects(state)`queue, Objects(state)`residualRepairs, Objects(state)`pendingCloses,
        Objects(state)`openPositions
      ensures outcome == if NothingOnRecord(shortLedger.View(), longLedger.View()) then NoConfirmedFills
                         else Closed(BuildCloseExecution(position.facts, shortLedger.legs, longLedger.legs))
      ensures Concluded(position.facts, outcome, shortLedger.View(), longLedger.View(), Occasion(reason, now),
                state != null, start, exchange.Trail(), old(BooksOf(position, state, journal)),
                BooksOf(position, state, journal))
    {
      if shortLedger.legs == [] && longLedger.legs == [] && !shortLedger.Unresolved() && !longLedger.Unresolved() {
        BookAppend(journal.events, CloseFailed(position.facts.positionId));
        journal.Append(CloseFailed(position.facts.positionId));
        outcome := NoConfirmedFills;
      } else {
        var close := FinishAny(position, state, shortLedger, longLedger, reason, now, start);
        outcome := Closed(close);
      }
    }

    /** With a state or without. */
    method FinishAny(position: OpenPosition, state: EngineState?, shortLedger: LegLedger, longLedger: LegLedger,
        reason: string, now: int, ghost start: Trail)
      returns (close: CloseExecution)
      requires UnresolvedKnown(start, exchange.Trail(), position.facts, shortLedger.View(), longLedger.View())
      modifies position, journal, Objects(state)`queue, Objects(state)`residualRepairs, Objects(state)`pendingCloses,
        Objects(state)`openPositions
      ensures close == BuildCloseExecution(position.facts, shortLedger.legs, longLedger.legs)
      ensures Concluded(position.facts, Closed(close), shortLedger.View(), longLedger.View(), Occasion(reason, now),
                state != null, start, exchange.Trail(), old(BooksOf(position, state, journal)),
                BooksOf(position, state, journal))
    {
      if state == null {
        close := FinishWithoutState(position.facts, shortLedger, longLedger);
      } else {
        close := FinishClose(position, state, shortLedger, longLedger, reason, now, start);
      }
    }

    /** execute_close. Whatever the venues answer: every order and reconciliation is accounted for on the records of
        the legs; the run goes as planned, or ends as the answers make it end; and a close with a state is billed
        exactly when its evidence is complete, else registered, unless the short leg is refused. */
    method ExecuteClose(position: OpenPosition, reason: string, now: int, longPrice: real, shortPrice: real,
        requested: Option<real>, state: EngineState?)
      returns (outcome: CloseOutcome, ghost run: CloseRun)
      modifies exchange, journal, position, Objects(state)
      ensures Accounted(old(exchange.Trail()), exchange.Trail(), position.facts, run.short, run.long, maxCloseRetries)
      ensures requested.GetOr(old(position.matchedQuantity)) <= 0.0 <==> outcome == NothingToClose
      ensures outcome == NothingToClose ==>
                exchange.Trail() == old(exchange.Trail()) && journal.events == old(journal.events)
                  && BooksOf(position, state, journal) == old(BooksOf(position, state, journal))
      ensures outcome != NothingToClose ==>
                && outcome == OutcomeOf(run, position.facts)
                && RunAsPlanned(run, old(exchange.Trail()), exchange.Trail(), exchange.adapters, position.facts,
                     requested.GetOr(old(position.matchedQuantity)), longPrice, shortPrice, chunkMaxNotional,
                     reason != "", maxCloseRetries)
                && Concluded(position.facts, outcome, run.short, run.long, Occasion(reason, now), state != null,
                     old(exchange.Trail()), exchange.Trail(), old(BooksOf(position, state, journal)),
                     BooksOf(position, state, journal))
      ensures outcome.CompensationAborted? && state != null ==> state.failClosed
    {
      var total := requested.GetOr(position.matchedQuantity);
      run := CloseRun(LegView([], [], false), LegView([], [], false), [], NextChunk);
      if total <= 0.0 {
        NothingAccounted(exchange.Trail(), position.facts, maxCloseRetries);
        return NothingToClose, run;
      }
      outcome, run := CloseQuantity(position, reason, now, longPrice, shortPrice, total, state);
    }

    /** The close of a positive quantity. */
    method CloseQuantity(position: OpenPosition, reason: string, now: int, longPrice: real, shortPrice: real,
        total: real, state: EngineState?)
      returns (outcome: CloseOutcome, ghost run: CloseRun)
      requires total > 0.0
      modifies exchange, journal, position, Objects(state)
      ensures Accounted(old(exchange.Trail()), exchange.Trail(), position.facts, run.short, run.long, maxCloseRetries)
      ensures outcome == OutcomeOf(run, position.facts)
      ensures outcome != NothingToClose
      ensures RunAsPlanned(run, old(exchange.Trail()), exchange.Trail(), exchange.adapters, position.facts,
                total, longPrice, shortPrice, chunkMaxNotional, reason != "", maxCloseRetries)
      ensures Concluded(position.facts, outcome, run.short, run.long, Occasion(reason, now), state != null,
                old(exchange.Trail()), exchange.Trail(), old(BooksOf(position, state, journal)),
                BooksOf(position, state, journal))
      ensures outcome.CompensationAborted? && state != null ==> state.failClosed
    {
      ghost var start := exchange.Trail();
      var shortLedger, longLedger, verdict;
      shortLedger, longLedger, verdict, run := PlanAndRun(position, state, reason != "", total, shortPrice, longPrice,
          now);
      AccountedKnowsUnresolved(start, exchange.Trail(), position.facts, run.short, run.long, maxCloseRetries);
      outcome := Conclude(position, state, shortLedger, longLedger, verdict, reason, now, run, start);
    }
  }
}
