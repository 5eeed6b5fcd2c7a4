/** Which residual exposures a journal shows as settled, and which opened positions as closed. */
module RecoveryFold {
  import opened Domain

  /** What a journal event says. Everything that plays no part in the summary is Other. */
  datatype Kind =
    | Opened
    | PassiveCloseUnhedged
    | ResidualWork
    | ResidualCompleted
    | ResidualTerminal(hasReason: bool)
    | LifecycleTerminal(flat: bool)
    | PassiveCloseResolved(hasPosition: bool, longClosed: Option<real>, shortClosed: Option<real>,
                           inPassiveClose: bool, hasDecision: bool)
    | ClosedFlat
    | DriftCorrected(toFlat: bool)
    | Other

  /** `owner` is the first identifier of the event that is not empty; identifiers and symbols may be empty. */
  datatype Event = Event(at: int, kind: Kind, owner: string, symbol: string) {
    function Key(): string {
      if owner != "" then owner else symbol
    }

    predicate FlatTerminal() {
      match kind
      case LifecycleTerminal(flat) => flat
      case PassiveCloseResolved(hasPosition, long, short, inPassiveClose, hasDecision) =>
        hasPosition
          && ((long.Some? && short.Some? && BothClosed(long.value, short.value)) || inPassiveClose || hasDecision)
      case ClosedFlat => true
      case DriftCorrected(toFlat) => toFlat
      case _ => false
    }

    predicate Completion() {
      kind.ResidualCompleted? || (kind.ResidualTerminal? && kind.hasReason)
    }

    predicate Transient() {
      kind.PassiveCloseUnhedged?
    }

    predicate Lifecycle() {
      Transient() || kind.ResidualWork? || kind.ResidualCompleted? || kind.ResidualTerminal?
    }
  }

  predicate BothClosed(long: real, short: real) {
    && long > FLAT_EPS
    && short > FLAT_EPS
    && Abs(long - short) <= Max(FLAT_EPS, Max(Abs(long), Abs(short)) * FLAT_EPS)
  }

  /** When an event happened: by time, then by position in the journal. */
  datatype Order = Order(at: int, index: nat)

  predicate NotAfter(a: Order, b: Order) {
    a.at < b.at || (a.at == b.at && a.index <= b.index)
  }

  function OrderOf(events: seq<Event>, i: nat): Order
    requires i < |events|
  {
    Order(events[i].at, i)
  }

  /** What an event can be to a residual key. */
  datatype Role = Marks | MarksForReal | MarksInPassing | Completes | Ends | CompletesAll

  predicate MarksKey(e: Event, key: string) {
    key != "" && e.Key() == key && e.Lifecycle() && !e.Completion()
  }

  predicate Plays(e: Event, role: Role, key: string) {
    match role
    case Marks => MarksKey(e, key)
    case MarksForReal => MarksKey(e, key) && !e.Transient()
    case MarksInPassing => MarksKey(e, key) && e.Transient()
    case Completes => key != "" && (e.Key() == key || e.symbol == key) && e.Completion()
    case Ends => key != "" && e.Key() != "" && (e.Key() == key || e.symbol == key) && e.FlatTerminal()
    case CompletesAll => e.Key() == "" && e.Completion()
  }

  predicate Has(events: seq<Event>, role: Role, key: string) {
    exists i :: 0 <= i < |events| && Plays(events[i], role, key)
  }

  /** Event j is at or after every event of the role. */
  predicate Settles(events: seq<Event>, j: nat, role: Role, key: string)
    requires j < |events|
  {
    forall i :: 0 <= i < |events| && Plays(events[i], role, key) ==> NotAfter(OrderOf(events, i), OrderOf(events, j))
  }

  /** A completion of the key, or one without a key, at or after every event of the role. */
  predicate CompletedSince(events: seq<Event>, role: Role, key: string) {
    exists j :: 0 <= j < |events| && (Plays(events[j], Completes, key) || Plays(events[j], CompletesAll, key))
                && Settles(events, j, role, key)
  }

  predicate EndedSinceMarked(events: seq<Event>, key: string) {
    exists j :: 0 <= j < |events| && Plays(events[j], Ends, key) && Settles(events, j, Marks, key)
  }

  /** Settled only because the position ended: a retry marker is forgotten then, a repair is not. */
  predicate ClosedInPassing(events: seq<Event>, key: string) {
    && !CompletedSince(events, Marks, key)
    && Has(events, MarksInPassing, key)
    && (Has(events, MarksForReal, key) ==> CompletedSince(events, MarksForReal, key))
    && EndedSinceMarked(events, key)
  }

  predicate Closed(events: seq<Event>, key: string) {
    CompletedSince(events, Marks, key) || ClosedInPassing(events, key)
  }

  // --- opened positions ---

  predicate Opens(e: Event, key: string) {
    key != "" && e.kind.Opened? && e.Key() == key
  }

  predicate HasOpened(events: seq<Event>, key: string) {
    exists i :: 0 <= i < |events| && Opens(events[i], key)
  }

  /** The last opening of the key that names a symbol names this one. */
  ghost predicate OpenedOn(events: seq<Event>, key: string, symbol: string) {
    symbol != "" && exists i :: OpenedOnAt(events, key, symbol, i)
  }

  predicate OpenedOnAt(events: seq<Event>, key: string, symbol: string, i: int) {
    && 0 <= i < |events| && Opens(events[i], key) && events[i].symbol == symbol
    && forall j :: i < j < |events| && Opens(events[j], key) ==> events[j].symbol == ""
  }

  predicate EndsKey(e: Event, key: string) {
    key != "" && e.Key() == key && e.FlatTerminal()
  }

  predicate EndsOn(e: Event, symbol: string) {
    symbol != "" && e.Key() != "" && e.symbol == symbol && e.FlatTerminal()
  }

  predicate KeyEnded(events: seq<Event>, key: string) {
    exists i :: 0 <= i < |events| && EndsKey(events[i], key)
  }

  predicate EndedOn(events: seq<Event>, symbol: string) {
    exists i :: 0 <= i < |events| && EndsOn(events[i], symbol)
  }

  /** Reported closed: some position of its key ended, or some position on its symbol, before or after it was opened. */
  ghost predicate OpenedAndClosed(events: seq<Event>, key: string) {
    KeyEnded(events, key) || exists symbol :: OpenedOn(events, key, symbol) && EndedOn(events, symbol)
  }

  // ---------------------------------------------------------------------------------------------
  // Latest orders
  // ---------------------------------------------------------------------------------------------

  /** The order of the last event of the role. */
  predicate IsLast(order: Order, events: seq<Event>, role: Role, key: string) {
    && order.index < |events|
    && order == OrderOf(events, order.index)
    && Plays(events[order.index], role, key)
    && Settles(events, order.index, role, key)
  }

  /** `latest` holds, for each key that has an event of the role, the last such event. */
  ghost predicate Tracks(latest: map<string, Order>, events: seq<Event>, role: Role) {
    && (forall k :: k in latest <==> Has(events, role, k))
    && (forall k :: k in latest ==> IsLast(latest[k], events, role, k))
  }

  ghost predicate TracksAll(latest: Option<Order>, events: seq<Event>) {
    && (latest.Some? <==> Has(events, CompletesAll, ""))
    && (latest.Some? ==> IsLast(latest.value, events, CompletesAll, ""))
  }

  function Later(a: Order, b: Order): Order {
    if NotAfter(a, b) then b else a
  }

  function Raise(latest: map<string, Order>, keys: set<string>, order: Order): map<string, Order> {
    map k | k in latest.Keys + keys ::
      if k !in keys then latest[k] else if k in latest then Later(latest[k], order) else order
  }

  lemma HasMore(events: seq<Event>, e: Event, role: Role, key: string)
    ensures Has(events + [e], role, key) <==> Has(events, role, key) || Plays(e, role, key)
  {
    var more := events + [e];
    assert more[|events|] == e;
    assert forall i :: 0 <= i < |events| ==> more[i] == events[i];
  }

  /** One more event: the last order of a role stays, moves to the new event, or begins with it. */
  lemma LastWithOneMore(order: Order, events: seq<Event>, e: Event, role: Role, key: string)
    ensures var more, last := events + [e], Order(e.at, |events|);
            && (IsLast(order, events, role, key) && !Plays(e, role, key) ==> IsLast(order, more, role, key))
            && (IsLast(order, events, role, key) && Plays(e, role, key) ==> IsLast(Later(order, last), more, role, key))
            && (!Has(events, role, key) && Plays(e, role, key) ==> IsLast(last, more, role, key))
  {
    var more := events + [e];
    assert more[|events|] == e;
    assert forall i :: 0 <= i < |events| ==> more[i] == events[i] && OrderOf(more, i) == OrderOf(events, i);
  }

  lemma RaiseTracks(latest: map<string, Order>, events: seq<Event>, e: Event, keys: set<string>, role: Role)
    requires Tracks(latest, events, role)
    requires forall k :: k in keys <==> Plays(e, role, k)
    ensures Tracks(Raise(latest, keys, Order(e.at, |events|)), events + [e], role)
  {
    var last := Order(e.at, |events|);
    var raised := Raise(latest, keys, last);
    forall k
      ensures k in raised <==> Has(events + [e], role, k)
    {
      HasMore(events, e, role, k);
    }
    forall k | k in raised
      ensures IsLast(raised[k], events + [e], role, k)
    {
      LastWithOneMore(if k in latest then latest[k] else last, events, e, role, k);
    }
  }

  lemma RaiseAllTracks(latest: Option<Order>, events: seq<Event>, e: Event)
    requires TracksAll(latest, events)
    ensures TracksAll(if !Plays(e, CompletesAll, "") then latest
                      else if latest.Some? then Some(Later(latest.value, Order(e.at, |events|)))
                      else Some(Order(e.at, |events|)), events + [e])
  {
    HasMore(events, e, CompletesAll, "");
    LastWithOneMore(latest.GetOr(Order(e.at, |events|)), events, e, CompletesAll, "");
  }

  /** A tracked order is at or after every event of its role, and belongs to one of them. */
  lemma LastOf(latest: map<string, Order>, events: seq<Event>, role: Role, key: string)
    requires Tracks(latest, events, role)
    ensures forall j ::
        0 <= j < |events| && Plays(events[j], role, key) ==> key in latest && NotAfter(OrderOf(events, j), latest[key])
    ensures key in latest ==> IsLast(latest[key], events, role, key)
  {
    forall j | 0 <= j < |events| && Plays(events[j], role, key)
      ensures key in latest && NotAfter(OrderOf(events, j), latest[key])
    {
      assert Has(events, role, key);
      assert Settles(events, latest[key].index, role, key);
    }
  }

  lemma LastOfAll(latest: Option<Order>, events: seq<Event>)
    requires TracksAll(latest, events)
    ensures forall j ::
        0 <= j < |events| && Plays(events[j], CompletesAll, "") ==>
          latest.Some? && NotAfter(OrderOf(events, j), latest.value)
  {
    forall j | 0 <= j < |events| && Plays(events[j], CompletesAll, "")
      ensures latest.Some? && NotAfter(OrderOf(events, j), latest.value)
    {
      assert Has(events, CompletesAll, "");
      assert Settles(events, latest.value.index, CompletesAll, "");
    }
  }

  /** When i is a last event of a role, j settles the role exactly when it is not before i. */
  lemma LastSettles(events: seq<Event>, i: nat, j: nat, role: Role, key: string)
    requires i < |events| && j < |events|
    requires Plays(events[i], role, key) && Settles(events, i, role, key)
    ensures Settles(events, j, role, key) <==> NotAfter(OrderOf(events, i), OrderOf(events, j))
  {
  }

  // ---------------------------------------------------------------------------------------------
  // The fold
  // ---------------------------------------------------------------------------------------------

  function Names(e: Event): set<string> {
    {e.Key(), e.symbol} - {""}
  }

  /** What was collected of opened positions, and of positions that ended. */
  datatype Openings = Openings(openedKeys: set<string>, symbols: map<string, string>, endedKeys: set<string>,
      endedSymbols: set<string>)
  {
    ghost predicate Of(events: seq<Event>) {
      && (forall k :: k in openedKeys <==> HasOpened(events, k))
      && (forall k, s :: (k in symbols && symbols[k] == s) <==> OpenedOn(events, k, s))
      && (forall k :: k in endedKeys <==> KeyEnded(events, k))
      && (forall s :: s in endedSymbols <==> EndedOn(events, s))
    }
  }

  /** The closing decision over the collected orders. */
  datatype Evidence = Evidence(
    openings: Openings,
    marked: map<string, Order>,
    markedForReal: map<string, Order>,
    inPassing: set<string>,
    completed: map<string, Order>,
    completedAll: Option<Order>,
    ended: map<string, Order>)
  {
    ghost predicate Of(events: seq<Event>) {
      && openings.Of(events)
      && Tracks(marked, events, Marks)
      && Tracks(markedForReal, events, MarksForReal)
      && (forall k :: k in inPassing <==> Has(events, MarksInPassing, k))
      && Tracks(completed, events, Completes)
      && TracksAll(completedAll, events)
      && Tracks(ended, events, Ends)
    }
  }

  predicate DoneSince(evidence: Evidence, key: string, mark: Order) {
    || (key in evidence.completed && NotAfter(mark, evidence.completed[key]))
    || (evidence.completedAll.Some? && NotAfter(mark, evidence.completedAll.value))
  }

  /** Comparing last orders decides whether something was completed since. */
  lemma DoneSinceIsCompletedSince(evidence: Evidence, events: seq<Event>, key: string, role: Role, i: nat)
    requires Tracks(evidence.completed, events, Completes) && TracksAll(evidence.completedAll, events)
    requires i < |events| && IsLast(OrderOf(events, i), events, role, key)
    ensures DoneSince(evidence, key, OrderOf(events, i)) <==> CompletedSince(events, role, key)
  {
    DoneSinceImplies(evidence, events, key, role, i);
    LastOf(evidence.completed, events, Completes, key);
    LastOfAll(evidence.completedAll, events);
    if CompletedSince(events, role, key) {
      var j :| 0 <= j < |events| && (Plays(events[j], Completes, key) || Plays(events[j], CompletesAll, key))
               && Settles(events, j, role, key);
      assert Plays(events[j], CompletesAll, key) ==> Plays(events[j], CompletesAll, "");
      assert NotAfter(OrderOf(events, i), OrderOf(events, j));
    }
  }

  lemma DoneSinceImplies(evidence: Evidence, events: seq<Event>, key: string, role: Role, i: nat)
    requires Tracks(evidence.completed, events, Completes) && TracksAll(evidence.completedAll, events)
    requires i < |events| && IsLast(OrderOf(events, i), events, role, key)
    ensures DoneSince(evidence, key, OrderOf(events, i)) ==> CompletedSince(events, role, key)
  {
    var mark := OrderOf(events, i);
    LastOf(evidence.completed, events, Completes, key);
    if key in evidence.completed && NotAfter(mark, evidence.completed[key]) {
      LastSettles(events, i, evidence.completed[key].index, role, key);
    } else if evidence.completedAll.Some? && NotAfter(mark, evidence.completedAll.value) {
      var j := evidence.completedAll.value.index;
      LastSettles(events, i, j, role, key);
      assert Plays(events[j], CompletesAll, key);
    }
  }

  lemma EndOrderDecides(evidence: Evidence, events: seq<Event>, key: string)
    requires Tracks(evidence.marked, events, Marks) && Tracks(evidence.ended, events, Ends)
    requires key in evidence.marked
    ensures EndedSinceMarked(events, key) <==>
            key in evidence.ended && NotAfter(evidence.marked[key], evidence.ended[key])
  {
    LastOf(evidence.marked, events, Marks, key);
    LastOf(evidence.ended, events, Ends, key);
    var i := evidence.marked[key].index;
    if key in evidence.ended {
      LastSettles(events, i, evidence.ended[key].index, Marks, key);
    }
    if EndedSinceMarked(events, key) {
      var j :| 0 <= j < |events| && Plays(events[j], Ends, key) && Settles(events, j, Marks, key);
      LastSettles(events, i, j, Marks, key);
    }
  }

  /** The keys an event plays a role for. */
  function Affected(e: Event, role: Role): (r: set<string>)
    requires !role.CompletesAll?
    ensures forall k :: k in r <==> Plays(e, role, k)
  {
    set k | k in Names(e) && Plays(e, role, k)
  }

  /** `was` with this event noted. */
  function Noted(was: Openings, e: Event): Openings {
    Openings(
      if e.kind.Opened? && e.Key() != "" then was.openedKeys + {e.Key()} else was.openedKeys,
      if e.kind.Opened? && e.Key() != "" && e.symbol != "" then was.symbols[e.Key() := e.symbol] else was.symbols,
      if e.Key() != "" && e.FlatTerminal() then was.endedKeys + {e.Key()} else was.endedKeys,
      if e.Key() != "" && e.FlatTerminal() && e.symbol != "" then was.endedSymbols + {e.symbol} else was.endedSymbols)
  }

  lemma OpenedMore(events: seq<Event>, e: Event, key: string)
    ensures HasOpened(events + [e], key) <==> HasOpened(events, key) || Opens(e, key)
    ensures KeyEnded(events + [e], key) <==> KeyEnded(events, key) || EndsKey(e, key)
    ensures EndedOn(events + [e], key) <==> EndedOn(events, key) || EndsOn(e, key)
  {
    var more := events + [e];
    assert more[|events|] == e;
    assert forall i :: 0 <= i < |events| ==> more[i] == events[i];
  }

  lemma OpenedOnMore(events: seq<Event>, e: Event, key: string, symbol: string)
    ensures OpenedOn(events + [e], key, symbol) <==>
            symbol != "" && if Opens(e, key) && e.symbol != "" then e.symbol == symbol
                            else OpenedOn(events, key, symbol)
  {
    var more := events + [e];
    assert more[|events|] == e;
    assert forall i :: 0 <= i < |events| ==> more[i] == events[i];
    if OpenedOn(more, key, symbol) {
      var i :| OpenedOnAt(more, key, symbol, i);
      assert i < |events| ==> OpenedOnAt(events, key, symbol, i);
    }
    if Opens(e, key) && e.symbol == symbol && symbol != "" {
      assert OpenedOnAt(more, key, symbol, |events|);
    } else if OpenedOn(events, key, symbol) && !(Opens(e, key) && e.symbol != "") {
      var i :| OpenedOnAt(events, key, symbol, i);
      assert OpenedOnAt(more, key, symbol, i);
    }
  }

  lemma NotedIsOf(was: Openings, seen: seq<Event>, e: Event)
    requires was.Of(seen)
    ensures Noted(was, e).Of(seen + [e])
  {
    var now := Noted(was, e);
    forall k
      ensures k in now.openedKeys <==> HasOpened(seen + [e], k)
      ensures k in now.endedKeys <==> KeyEnded(seen + [e], k)
      ensures k in now.endedSymbols <==> EndedOn(seen + [e], k)
    {
      OpenedMore(seen, e, k);
    }
    forall k, s
      ensures (k in now.symbols && now.symbols[k] == s) <==> OpenedOn(seen + [e], k, s)
    {
      OpenedOnMore(seen, e, k, s);
      assert (k in was.symbols && was.symbols[k] == s) <==> OpenedOn(seen, k, s);
    }
  }

  /** `now` is `was` with the order of this event noted for every key it plays a role for. */
  predicate Raised(was: Evidence, e: Event, order: Order, now: Evidence) {
    && now.openings == Noted(was.openings, e)
    && now.marked == Raise(was.marked, Affected(e, Marks), order)
    && now.markedForReal == Raise(was.markedForReal, Affected(e, MarksForReal), order)
    && now.inPassing == was.inPassing + Affected(e, MarksInPassing)
    && now.completed == Raise(was.completed, Affected(e, Completes), order)
    && now.ended == Raise(was.ended, Affected(e, Ends), order)
    && now.completedAll == (if !Plays(e, CompletesAll, "") then was.completedAll
                            else if was.completedAll.Some? then Some(Later(was.completedAll.value, order))
                            else Some(order))
  }

  lemma AffectedKeys(e: Event)
    ensures Affected(e, Ends) == if e.Key() != "" && e.FlatTerminal() then Names(e) else {}
    ensures Affected(e, Completes) == if e.Completion() then Names(e) else {}
    ensures Affected(e, Marks) == if MarksKey(e, e.Key()) then {e.Key()} else {}
    ensures Affected(e, MarksForReal) == if MarksKey(e, e.Key()) && !e.Transient() then {e.Key()} else {}
    ensures Affected(e, MarksInPassing) == if MarksKey(e, e.Key()) && e.Transient() then {e.Key()} else {}
    ensures Names(e) == {} <==> e.Key() == ""
  {
    assert e.Key() != "" ==> e.Key() in Names(e);
  }

  lemma RaiseNothing(was: Evidence, order: Order)
    ensures Raise(was.ended, {}, order) == was.ended
    ensures Raise(was.completed, {}, order) == was.completed
    ensures Raise(was.marked, {}, order) == was.marked
    ensures Raise(was.markedForReal, {}, order) == was.markedForReal
  {
  }

  lemma CollectOne(was: Evidence, seen: seq<Event>, e: Event, now: Evidence)
    requires was.Of(seen)
    requires Raised(was, e, Order(e.at, |seen|), now)
    ensures now.Of(seen + [e])
  {
    RaiseTracks(was.marked, seen, e, Affected(e, Marks), Marks);
    RaiseTracks(was.markedForReal, seen, e, Affected(e, MarksForReal), MarksForReal);
    RaiseTracks(was.completed, seen, e, Affected(e, Completes), Completes);
    RaiseTracks(was.ended, seen, e, Affected(e, Ends), Ends);
    RaiseAllTracks(was.completedAll, seen, e);
    NotedIsOf(was.openings, seen, e);
    forall k
      ensures k in now.inPassing <==> Has(seen + [e], MarksInPassing, k)
    {
      HasMore(seen, e, MarksInPassing, k);
    }
  }

  /** Collects the last order of every role; the fold of _build_recovery_lifecycle_summary. */
  method Collect(events: seq<Event>) returns (evidence: Evidence)
    ensures evidence.Of(events)
  {
    evidence := NOTHING;
    NothingYet();
    ghost var seen: seq<Event> := [];
    for i := 0 to |events|
      invariant seen == events[..i] && evidence.Of(seen)
    {
      evidence := CollectEvent(evidence, events[i], Order(events[i].at, i), seen);
      seen := seen + [events[i]];
    }
    assert seen == events;
  }

  const NOTHING := Evidence(Openings({}, map[], {}, {}), map[], map[], {}, map[], None, map[])

  lemma NothingYet()
    ensures NOTHING.Of([])
  {
    assert forall role, k :: !Has([], role, k);
  }

  /** One turn of the fold. */
  method CollectEvent(was: Evidence, e: Event, order: Order, ghost seen: seq<Event>) returns (now: Evidence)
    requires was.Of(seen) && order == Order(e.at, |seen|)
    ensures now.Of(seen + [e])
  {
    now := NoteEvent(was, e, order);
    CollectOne(was, seen, e, now);
  }

  method NoteOpening(was: Openings, e: Event) returns (now: Openings)
    ensures now == Noted(was, e)
  {
    now := was;
    if e.kind.Opened? && e.Key() != "" {
      now := now.(openedKeys := now.openedKeys + {e.Key()});
      if e.symbol != "" {
        now := now.(symbols := now.symbols[e.Key() := e.symbol]);
      }
    }
    if e.Key() != "" && e.FlatTerminal() {
      now := now.(endedKeys := now.endedKeys + {e.Key()});
      if e.symbol != "" {
        now := now.(endedSymbols := now.endedSymbols + {e.symbol});
      }
    }
  }

  method NoteEvent(was: Evidence, e: Event, order: Order) returns (now: Evidence)
    ensures Raised(was, e, order, now)
  {
    now := was;
    AffectedKeys(e);
    RaiseNothing(was, order);
    var openings := NoteOpening(was.openings, e);
    now := now.(openings := openings);
    if e.Key() != "" && e.FlatTerminal() {
      now := now.(ended := Raise(now.ended, Names(e), order));
    }
    if e.Lifecycle() && !e.Completion() {
      var key := if e.Key() != "" then e.Key() else e.symbol;
      if key != "" {
        now := now.(marked := Raise(now.marked, {key}, order));
        if e.Transient() {
          now := now.(inPassing := now.inPassing + {key});
        } else {
          now := now.(markedForReal := Raise(now.markedForReal, {key}, order));
        }
      }
    }
    if e.Completion() {
      var names := Names(e);
      if names != {} {
        now := now.(completed := Raise(now.completed, names, order));
      } else {
        now := now.(completedAll := if now.completedAll.Some? then Some(Later(now.completedAll.value, order))
        else Some(order));
      }
    }
  }

  /** What the summary says of opened positions and of residuals. */
  datatype Summary = Summary(openedKeys: set<string>, closedOpen: set<string>, unclosedOpen: set<string>,
      residual: set<string>, closed: set<string>, closedInPassing: set<string>, unclosed: set<string>)

  /** _build_recovery_lifecycle_summary. */
  method SummarizeResiduals(events: seq<Event>) returns (summary: Summary)
    ensures forall k :: k in summary.openedKeys <==> HasOpened(events, k)
    ensures forall k :: k in summary.closedOpen <==> HasOpened(events, k) && OpenedAndClosed(events, k)
    ensures forall k :: k in summary.unclosedOpen <==> HasOpened(events, k) && !OpenedAndClosed(events, k)
    ensures forall k :: k in summary.residual <==> Has(events, Marks, k)
    ensures forall k :: k in summary.closed <==> Has(events, Marks, k) && Closed(events, k)
    ensures forall k :: k in summary.closedInPassing <==> Has(events, Marks, k) && ClosedInPassing(events, k)
    ensures forall k :: k in summary.unclosed <==> Has(events, Marks, k) && !Closed(events, k)
  {
    var evidence := Collect(events);
    var closed, inPassing := CloseResiduals(evidence, events);
    var closedOpen := CloseOpenings(evidence.openings, events);
    var residual, keys := evidence.marked.Keys, evidence.openings.openedKeys;
    summary := Summary(keys, closedOpen, keys - closedOpen, residual, closed, inPassing, residual - closed);
  }

  /** The opened keys that ended, and those whose symbol did. */
  method CloseOpenings(openings: Openings, ghost events: seq<Event>) returns (closedOpen: set<string>)
    requires openings.Of(events)
    ensures forall k :: k in closedOpen <==> HasOpened(events, k) && OpenedAndClosed(events, k)
  {
    var bySymbol := set k | k in openings.openedKeys && k in openings.symbols
                            && openings.symbols[k] in openings.endedSymbols;
    closedOpen := (openings.openedKeys * openings.endedKeys) + bySymbol;
    forall k | k in openings.openedKeys
      ensures k in bySymbol <==> exists symbol :: OpenedOn(events, k, symbol) && EndedOn(events, symbol)
    {
      if k in bySymbol {
        assert OpenedOn(events, k, openings.symbols[k]) && EndedOn(events, openings.symbols[k]);
      }
      forall s | OpenedOn(events, k, s) && EndedOn(events, s)
        ensures k in bySymbol
      {
        assert k in openings.symbols && openings.symbols[k] == s;
      }
    }
  }

  /** The loop over the residual keys. */
  method CloseResiduals(evidence: Evidence, ghost events: seq<Event>)
    returns (closed: set<string>, inPassing: set<string>)
    requires evidence.Of(events)
    ensures forall k :: k in closed <==> Has(events, Marks, k) && Closed(events, k)
    ensures forall k :: k in inPassing <==> Has(events, Marks, k) && ClosedInPassing(events, k)
  {
    var residual := evidence.marked.Keys;
    closed, inPassing := {}, {};
    var rest := residual;
    while rest != {}
      invariant rest <= residual
      invariant forall k :: k in closed <==> k in residual && k !in rest && Closed(events, k)
      invariant forall k :: k in inPassing <==> k in residual && k !in rest && ClosedInPassing(events, k)
    {
      var key :| key in rest;
      rest := rest - {key};
      var how := CloseKey(evidence, key, events);
      if how != StillOpen {
        closed := closed + {key};
      }
      if how == ByEnd {
        inPassing := inPassing + {key};
      }
    }
  }

  datatype Closing = StillOpen | ByCompletion | ByEnd

  /** The decision for one residual key. */
  method CloseKey(evidence: Evidence, key: string, ghost events: seq<Event>) returns (how: Closing)
    requires evidence.Of(events) && key in evidence.marked
    ensures how == if CompletedSince(events, Marks, key) then ByCompletion
                   else if ClosedInPassing(events, key) then ByEnd else StillOpen
  {
    how := StillOpen;
    var mark := evidence.marked[key];
    DoneSinceIsCompletedSince(evidence, events, key, Marks, mark.index);
    if key in evidence.completed && NotAfter(mark, evidence.completed[key]) {
      how := ByCompletion;
    } else if evidence.completedAll.Some? && NotAfter(mark, evidence.completedAll.value) {
      how := ByCompletion;
    } else if key in evidence.inPassing {
      EndOrderDecides(evidence, events, key);
      if key in evidence.markedForReal {
        DoneSinceIsCompletedSince(evidence, events, key, MarksForReal, evidence.markedForReal[key].index);
      }
      if (key in evidence.markedForReal ==> DoneSince(evidence, key, evidence.markedForReal[key]))
         && key in evidence.ended && NotAfter(mark, evidence.ended[key]) {
        how := ByEnd;
      }
    }
  }

  // ---------------------------------------------------------------------------------------------
  // What cannot close a residual
  // ---------------------------------------------------------------------------------------------

  /** An event that names neither the key as its own nor as its symbol, and is no completion without a key. */
  predicate Unrelated(e: Event, key: string) {
    e.Key() != key && e.symbol != key && !Plays(e, CompletesAll, key)
  }

  /** The same journal for this key: other events may differ, or be there where nothing was. */
  predicate AgreeOn(a: seq<Event>, b: seq<Event>, key: string) {
    |a| == |b| && forall i :: 0 <= i < |a| ==> a[i] == b[i] || (Unrelated(a[i], key) && Unrelated(b[i], key))
  }

  lemma CompletedSinceAgrees(a: seq<Event>, b: seq<Event>, role: Role, key: string)
    requires AgreeOn(a, b, key) && role != CompletesAll
    ensures CompletedSince(a, role, key) ==> CompletedSince(b, role, key)
    ensures Has(a, role, key) ==> Has(b, role, key)
    ensures EndedSinceMarked(a, key) ==> EndedSinceMarked(b, key)
  {
    forall i, r | 0 <= i < |a|
      ensures Plays(a[i], r, key) == Plays(b[i], r, key)
      ensures Plays(a[i], r, key) ==> OrderOf(a, i) == OrderOf(b, i)
    {
      assert Unrelated(a[i], key) ==> !Plays(a[i], r, key);
      assert Unrelated(b[i], key) ==> !Plays(b[i], r, key);
    }
    if CompletedSince(a, role, key) {
      var j :| 0 <= j < |a| && (Plays(a[j], Completes, key) || Plays(a[j], CompletesAll, key))
          && Settles(a, j, role, key);
      assert Settles(b, j, role, key);
    }
    if EndedSinceMarked(a, key) {
      var j :| 0 <= j < |a| && Plays(a[j], Ends, key) && Settles(a, j, Marks, key);
      assert Settles(b, j, Marks, key);
    }
  }

  /** Events of other positions, even on the same symbol, never change whether a residual is settled. */
  lemma UnrelatedEventsNeverMatter(a: seq<Event>, b: seq<Event>, key: string)
    requires AgreeOn(a, b, key)
    ensures Has(a, Marks, key) == Has(b, Marks, key)
    ensures Closed(a, key) == Closed(b, key)
    ensures ClosedInPassing(a, key) == ClosedInPassing(b, key)
  {
    forall role | role in {Marks, MarksForReal, MarksInPassing}
      ensures CompletedSince(a, role, key) == CompletedSince(b, role, key)
      ensures Has(a, role, key) == Has(b, role, key)
      ensures EndedSinceMarked(a, key) == EndedSinceMarked(b, key)
    {
      CompletedSinceAgrees(a, b, role, key);
      CompletedSinceAgrees(b, a, role, key);
    }
  }

  /** A terminal event never settles real repair work: without a completion the key stays open. */
  lemma RepairsNeedACompletion(events: seq<Event>, key: string)
    requires Has(events, MarksForReal, key)
    ensures Closed(events, key) ==> CompletedSince(events, MarksForReal, key)
    ensures !CompletedSince(events, MarksForReal, key) ==> !CompletedSince(events, Marks, key)
  {
    if CompletedSince(events, Marks, key) {
      var j :| 0 <= j < |events| && (Plays(events[j], Completes, key) || Plays(events[j], CompletesAll, key))
               && Settles(events, j, Marks, key);
      assert Settles(events, j, MarksForReal, key);
    }
  }

  /** A fresh marker opens the key again, whatever happened before, unless a later event is already there. */
  lemma NewMarkerReopens(events: seq<Event>, e: Event, key: string)
    requires Plays(e, Marks, key)
    requires forall i :: 0 <= i < |events| ==> events[i].at <= e.at
    ensures Has(events + [e], Marks, key) && !Closed(events + [e], key)
  {
    var more := events + [e];
    assert more[|events|] == e;
    forall j | 0 <= j < |more| && Settles(more, j, Marks, key)
      ensures j == |events|
    {
      assert NotAfter(OrderOf(more, |events|), OrderOf(more, j));
    }
  }

  // ---------------------------------------------------------------------------------------------
  // What closes an opened position
  // ---------------------------------------------------------------------------------------------

  /** A position ended under the key, or on the symbol it was last opened on, at or after every opening of the key. */
  ghost predicate EndedSinceOpened(events: seq<Event>, key: string) {
    exists j ::
      && 0 <= j < |events|
      && (EndsKey(events[j], key) || exists symbol :: OpenedOn(events, key, symbol) && EndsOn(events[j], symbol))
      && forall i :: 0 <= i < |events| && Opens(events[i], key) ==> NotAfter(OrderOf(events, i), OrderOf(events, j))
  }

  /** A key that ended once stays reported closed, whatever follows. */
  lemma EndedKeyStaysClosed(events: seq<Event>, more: seq<Event>, key: string)
    requires KeyEnded(events, key)
    ensures OpenedAndClosed(events + more, key)
  {
    var i :| 0 <= i < |events| && EndsKey(events[i], key);
    assert (events + more)[i] == events[i];
  }

  /** A key that ended and is opened again, after all else, is reported closed although nothing ended since; a residual
      that is marked again is open (NewMarkerReopens). */
  lemma ReopenedKeyIsReportedClosed(events: seq<Event>, e: Event, key: string)
    requires KeyEnded(events, key) && Opens(e, key)
    requires forall i :: 0 <= i < |events| ==> events[i].at <= e.at
    ensures HasOpened(events + [e], key) && OpenedAndClosed(events + [e], key)
    ensures !EndedSinceOpened(events + [e], key)
  {
    EndedKeyStaysClosed(events, [e], key);
    var more := events + [e];
    assert more[|events|] == e && Opens(more[|events|], key);
    forall j | 0 <= j < |more| && NotAfter(OrderOf(more, |events|), OrderOf(more, j))
      ensures j == |events|
    {
    }
    assert !e.FlatTerminal();
  }

  /** A position that ended at 1, and another one on its symbol opened at 2: the second is reported closed. */
  lemma EarlierEndClosesLaterPosition()
    ensures var events := [Event(1, ClosedFlat, "first", "BTC"), Event(2, Opened, "second", "BTC")];
            && HasOpened(events, "second") && OpenedAndClosed(events, "second")
            && !KeyEnded(events, "second") && !EndedSinceOpened(events, "second")
  {
    var events := [Event(1, ClosedFlat, "first", "BTC"), Event(2, Opened, "second", "BTC")];
    assert events[0].Key() == "first" && events[1].Key() == "second";
    assert Opens(events[1], "second");
    assert OpenedOnAt(events, "second", "BTC", 1);
    assert EndsOn(events[0], "BTC");
    assert OpenedOn(events, "second", "BTC") && EndedOn(events, "BTC");
    assert !events[1].FlatTerminal();
    assert "first"[0] != "second"[0];
    assert !NotAfter(OrderOf(events, 1), OrderOf(events, 0));
  }
}
