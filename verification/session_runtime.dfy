/** The sessions of tracked pairs: which pairs keep one over any run of calls, and when both legs of a pair are
    ready. */
module SessionRuntime {
  import opened Domain
  import opened Ordering

  const STICKY_LIMIT := 64

  // ---------------------------------------------------------------------------------------------
  // Books and legs
  // ---------------------------------------------------------------------------------------------

  datatype BookStatus = Cold | Bootstrapping | Hot | Degraded | Rebuilding | Suspended | ResumeWaiting

  /** A local book. `structured`: both sides are valid levels. */
  datatype Book = Book(status: BookStatus, observedAt: int, bid: real, ask: real, structured: bool)
  {
    predicate StaleAfter(age: int, now: int) {
      observedAt <= 0 || now - observedAt > age
    }
  }

  datatype LegState = LegArming | LegReady | LegFaulted

  datatype Leg = Leg(symbol: string, state: LegState, seenAt: int)
  {
    predicate Stale(now: int, staleAfter: int) {
      staleAfter > 0 && (seenAt <= 0 || now - seenAt > staleAfter)
    }

    predicate ReadyAt(now: int, staleAfter: int) {
      state.LegReady? && !Stale(now, staleAfter)
    }

    function Faulted(at: int): Leg {
      this.(state := LegFaulted, seenAt := if at > 0 then at else seenAt)
    }
  }

  /** apply_book_readiness_to_leg. */
  function ApplyBook(leg: Leg, book: Option<Book>, now: int, staleAfter: int): Leg {
    if book.None? then leg.(state := LegArming)
    else
      var b := book.value;
      if b.status in {Bootstrapping, Cold, Rebuilding, ResumeWaiting} then leg.(state := LegArming)
      else if b.status == Suspended then leg.Faulted(b.observedAt)
      else if b.observedAt <= 0 then leg.Faulted(0)
      else if staleAfter > 0 && b.StaleAfter(staleAfter, now) then leg.Faulted(b.observedAt)
      else if b.bid >= b.ask && b.ask > 0.0 then leg.Faulted(b.observedAt)
      else if b.StaleAfter(staleAfter, now) || !b.structured then leg.Faulted(b.observedAt)
      else if b.bid <= 0.0 || b.ask <= 0.0 then leg.Faulted(b.observedAt)
      else leg.(state := LegReady, seenAt := b.observedAt)
  }

  /** A book that was good when it was applied, and is not too old yet. */
  predicate Executable(book: Option<Book>, applied: int, now: int, staleAfter: int) {
    && book.Some? && (book.value.status == Hot || book.value.status == Degraded)
    && book.value.observedAt > 0 && book.value.structured && 0.0 < book.value.bid < book.value.ask
    && applied - book.value.observedAt <= staleAfter
    && (staleAfter > 0 ==> now - book.value.observedAt <= staleAfter)
  }

  /** Readiness is a matter of the last book alone: nothing a leg saw before keeps it ready, or from being ready. */
  lemma LegReadyExactly(leg: Leg, book: Option<Book>, applied: int, now: int, staleAfter: int)
    ensures ApplyBook(leg, book, applied, staleAfter).ReadyAt(now, staleAfter)
            <==> Executable(book, applied, now, staleAfter)
  {
  }

  // ---------------------------------------------------------------------------------------------
  // Sessions
  // ---------------------------------------------------------------------------------------------

  datatype SessionState = Arming | Ready | Faulted | Closed

  datatype Session = Session(state: SessionState, legs: map<string, Leg>, primaryAt: int)
  {
    predicate BothReady(now: int, staleAfter: int) {
      |legs| >= 2 && forall v :: v in legs ==> legs[v].ReadyAt(now, staleAfter)
    }

    /** refresh_state. */
    function Refreshed(now: int, staleAfter: int): Session {
      if state == Closed then this
      else if BothReady(now, staleAfter) then this.(state := Ready)
      else if exists v :: v in legs && legs[v].state.LegFaulted? then this.(state := Faulted)
      else this.(state := Arming)
    }
  }

  const NEW_SESSION := Session(Arming, map[], 0)

  /** The local books, by venue and symbol. */
  type Books = map<(string, string), Book>

  function BookFor(books: Books, venue: string, leg: Leg): Option<Book> {
    if (venue, leg.symbol) in books then Some(books[(venue, leg.symbol)]) else None
  }

  /** A session once its books are applied. */
  function WithBooks(session: Session, books: Books, now: int, staleAfter: int): Session {
    session.(legs := map v | v in session.legs ::
                 ApplyBook(session.legs[v], BookFor(books, v, session.legs[v]), now, staleAfter))
           .Refreshed(now, staleAfter)
  }

  /** Both legs of a pair are ready exactly as long as the books last applied were good then, and are not too old. */
  lemma PairReadyExactly(session: Session, books: Books, applied: int, now: int, staleAfter: int)
    ensures WithBooks(session, books, applied, staleAfter).BothReady(now, staleAfter) <==>
            && |session.legs| >= 2
            && forall v :: v in session.legs ==>
                 Executable(BookFor(books, v, session.legs[v]), applied, now, staleAfter)
  {
    var after := WithBooks(session, books, applied, staleAfter);
    assert after.legs.Keys == session.legs.Keys;
    forall v | v in session.legs
      ensures after.legs[v].ReadyAt(now, staleAfter) <==>
              Executable(BookFor(books, v, session.legs[v]), applied, now, staleAfter)
    {
      LegReadyExactly(session.legs[v], BookFor(books, v, session.legs[v]), applied, now, staleAfter);
    }
  }

  datatype Opportunity = Opportunity(pairId: string, symbol: string, longVenue: string, shortVenue: string,
      primary: bool)

  function EnsureLeg(legs: map<string, Leg>, venue: string, symbol: string): map<string, Leg> {
    if venue in legs then legs else legs[venue := Leg(symbol, LegArming, 0)]
  }

  /** The session of a pair once it is tracked. */
  function Tracked(session: Session, o: Opportunity, now: int): Session {
    session.(legs := EnsureLeg(EnsureLeg(session.legs, o.longVenue, o.symbol), o.shortVenue, o.symbol),
             primaryAt := if !o.primary then 0 else if session.primaryAt <= 0 then now else session.primaryAt)
  }

  // ---------------------------------------------------------------------------------------------
  // The sticky set
  // ---------------------------------------------------------------------------------------------

  predicate Less(a: string, b: string) {
    TextLeq(a, b) && a != b
  }

  /** The greatest ids of all of them, as many as are kept. */
  ghost predicate IsTop(top: set<string>, all: set<string>) {
    && top <= all && |top| == (if |all| <= STICKY_LIMIT then |all| else STICKY_LIMIT)
    && forall a, b :: a in top && b in all && b !in top ==> Less(b, a)
  }

  lemma Smaller(a: set<string>, b: set<string>)
    requires a <= b && |a| >= |b|
    ensures a == b
  {
    assert b == a + (b - a);
    assert |b - a| == 0;
  }

  /** One of the same size that differs misses something and has something else. */
  lemma Differ(a: set<string>, b: set<string>) returns (x: string, y: string)
    requires |a| == |b| && a != b
    ensures x in a && x !in b && y in b && y !in a
  {
    if a <= b {
      Smaller(a, b);
    }
    if b <= a {
      Smaller(b, a);
    }
    x :| x in a && x !in b;
    y :| y in b && y !in a;
  }

  lemma TopIsUnique(a: set<string>, b: set<string>, all: set<string>)
    requires IsTop(a, all) && IsTop(b, all)
    ensures a == b
  {
    if a != b {
      var x, y := Differ(a, b);
      TextOrderFacts(x, y, x);
      assert false;
    }
  }

  /** Adding an id to the greatest ones, and keeping the greatest of those, gives the greatest of all. */
  lemma TopGrows(top: set<string>, all: set<string>, p: string, top': set<string>)
    requires IsTop(top, all) && IsTop(top', top + {p})
    ensures IsTop(top', all + {p})
  {
    if |all| <= STICKY_LIMIT {
      Smaller(top, all);
    } else {
      SizeOfTop(top, all, p);
      forall a, b | a in top' && b in all + {p} && b !in top'
        ensures Less(b, a)
      {
        if b !in top + {p} && a !in top {
          EvictedBetween(top, all, p, top', b);
        }
      }
    }
  }

  lemma SizeOfTop(top: set<string>, all: set<string>, p: string)
    requires |all| > STICKY_LIMIT && |top| == STICKY_LIMIT && top <= all
    ensures |all + {p}| > STICKY_LIMIT && |top + {p}| >= STICKY_LIMIT
    ensures p in top ==> top + {p} == top
    ensures p !in top ==> |top + {p}| == STICKY_LIMIT + 1
  {
    if p in all {
      assert all + {p} == all;
    }
    if p in top {
      assert top + {p} == top;
    }
  }

  /** What was left out before is below the one that is left out now, and so below the new one. */
  lemma EvictedBetween(top: set<string>, all: set<string>, p: string, top': set<string>, b: string)
    requires IsTop(top, all) && IsTop(top', top + {p}) && |top| == STICKY_LIMIT
    requires p in top' && p !in top && b in all && b !in top
    ensures Less(b, p)
  {
    assert |top + {p}| == STICKY_LIMIT + 1;
    if top <= top' {
      SubsetSize(top + {p}, top');
    }
    var e :| e in top && e !in top';
    assert Less(b, e) && Less(e, p);
    TextOrderFacts(b, e, p);
    TextOrderFacts(e, b, e);
  }

  /** An id is kept if and only if fewer than 64 greater ones were marked. */
  lemma KeptExactly(top: set<string>, all: set<string>, p: string)
    requires IsTop(top, all) && p in all
    ensures p in top <==> |set q | q in all && Less(p, q)| < STICKY_LIMIT
  {
    var greater := set q | q in all && Less(p, q);
    if p in top {
      forall q | q in greater
        ensures q in top && q != p
      {
        if q !in top {
          TextOrderFacts(p, q, p);
        }
      }
      SubsetSize(greater, top - {p});
    } else {
      assert top <= greater;
      SubsetSize(top, greater);
      if |all| <= STICKY_LIMIT {
        Smaller(top, all);
      }
    }
  }

  lemma SubsetSize(a: set<string>, b: set<string>)
    requires a <= b
    ensures |a| <= |b|
  {
    assert b == a + (b - a);
  }

  /** With 64 greater ids kept, the newest primary is dropped at once. */
  lemma NewestPrimaryIsNotKept(kept: set<string>, p: string, top: set<string>)
    requires |kept| == STICKY_LIMIT && (forall q :: q in kept ==> Less(p, q)) && IsTop(top, kept + {p})
    ensures top == kept
  {
    assert p !in kept;
    assert |kept + {p}| == STICKY_LIMIT + 1;
    assert IsTop(kept, kept + {p});
    TopIsUnique(top, kept, kept + {p});
  }

  // ---------------------------------------------------------------------------------------------
  // The runtime
  // ---------------------------------------------------------------------------------------------

  /** The least of them. */
  method Least(ids: set<string>) returns (least: string)
    requires ids != {}
    ensures least in ids && forall q :: q in ids && q != least ==> Less(least, q)
  {
    least :| least in ids;
    var rest := ids - {least};
    while rest != {}
      invariant rest <= ids && least in ids && least !in rest
      invariant forall q :: q in ids && q !in rest && q != least ==> Less(least, q)
    {
      var q :| q in rest;
      TextOrderFacts(least, q, least);
      rest := rest - {q};
      if TextLeq(q, least) {
        forall r | r in ids && r !in rest && r != q
          ensures Less(q, r)
        {
          TextOrderFacts(q, least, r);
          TextOrderFacts(r, q, least);
        }
        least := q;
      }
    }
  }

  class EntrySessions {
    var sessions: map<string, Session>
    var sticky: set<string>

    constructor ()
      ensures sessions == map[] && sticky == {}
    {
      sessions, sticky := map[], {};
    }

    /** track_opportunity. */
    method Track(o: Opportunity, now: int)
      requires |sticky| <= STICKY_LIMIT
      modifies this
      ensures sessions == old(sessions)[o.pairId :=
          Tracked(if o.pairId in old(sessions) then old(sessions)[o.pairId] else NEW_SESSION, o, now)]
      ensures if o.primary then IsTop(sticky, old(sticky) + {o.pairId}) else sticky == old(sticky)
    {
      var session := if o.pairId in sessions then sessions[o.pairId] else NEW_SESSION;
      sessions := sessions[o.pairId := Tracked(session, o, now)];
      if o.primary {
        MarkSticky(o.pairId);
      }
    }

    /** mark_sticky_prewarm: while there are too many, the least goes. */
    method MarkSticky(pairId: string)
      requires |sticky| <= STICKY_LIMIT
      modifies this`sticky
      ensures IsTop(sticky, old(sticky) + {pairId})
    {
      ghost var all := sticky + {pairId};
      sticky := sticky + {pairId};
      while |sticky| > STICKY_LIMIT
        invariant sticky <= all && (|all| <= STICKY_LIMIT ==> sticky == all)
        invariant |all| > STICKY_LIMIT ==> |sticky| >= STICKY_LIMIT
        invariant forall a, b :: a in sticky && b in all && b !in sticky ==> Less(b, a)
        decreases |sticky|
      {
        var least := Least(sticky);
        sticky := sticky - {least};
      }
      SubsetSize(sticky, all);
    }

    /** close_missing: the sessions of pairs that are neither active nor sticky go. */
    method CloseMissing(active: set<string>)
      modifies this`sessions
      ensures forall p :: p in sessions <==> p in old(sessions) && (p in active || p in sticky)
      ensures forall p :: p in sessions ==> sessions[p] == old(sessions)[p]
    {
      var rest := sessions.Keys;
      while rest != {}
        invariant rest <= old(sessions).Keys
        invariant forall p :: p in sessions <==> p in old(sessions) && (p in active || p in sticky || p in rest)
        invariant forall p :: p in sessions ==> sessions[p] == old(sessions)[p]
        decreases |rest|
      {
        var p :| p in rest;
        rest := rest - {p};
        if p in active || p in sticky {
          continue;
        }
        sessions := sessions - {p};
      }
    }

    /** _refresh_entry_l2_session_readiness: every leg takes its book, and every session its state. */
    method RefreshReadiness(books: Books, now: int, staleAfter: int)
      modifies this`sessions
      ensures sessions.Keys == old(sessions).Keys
      ensures forall p :: p in sessions ==> sessions[p] == WithBooks(old(sessions)[p], books, now, staleAfter)
    {
      var rest := sessions.Keys;
      while rest != {}
        invariant rest <= sessions.Keys == old(sessions).Keys
        invariant forall p :: p in sessions ==>
            sessions[p] == if p in rest then old(sessions)[p] else WithBooks(old(sessions)[p], books, now, staleAfter)
        decreases |rest|
      {
        var p :| p in rest;
        rest := rest - {p};
        sessions := sessions[p := WithBooks(sessions[p], books, now, staleAfter)];
      }
    }

    /** close_session. */
    method CloseSession(pairId: string)
      modifies this`sessions
      ensures sessions == if pairId in old(sessions)
                          then old(sessions)[pairId := old(sessions)[pairId].(state := Closed)] else old(sessions)
    {
      if pairId in sessions {
        sessions := sessions[pairId := sessions[pairId].(state := Closed)];
      }
    }

    /** ready_pair_legs. */
    method ReadyPairLegs(pairId: string, longVenue: string, shortVenue: string, symbol: string, now: int,
        staleAfter: int)
      returns (legs: Option<(Leg, Leg)>)
      ensures legs.Some? <==>
              && pairId in sessions && sessions[pairId].BothReady(now, staleAfter)
              && longVenue in sessions[pairId].legs && shortVenue in sessions[pairId].legs
              && sessions[pairId].legs[longVenue].symbol == symbol && sessions[pairId].legs[shortVenue].symbol == symbol
      ensures legs.Some? ==>
                legs.value == (sessions[pairId].legs[longVenue], sessions[pairId].legs[shortVenue])
    {
      if pairId !in sessions || !sessions[pairId].BothReady(now, staleAfter) {
        return None;
      }
      var session := sessions[pairId];
      if longVenue !in session.legs || shortVenue !in session.legs {
        return None;
      }
      var long, short := session.legs[longVenue], session.legs[shortVenue];
      if long.symbol != symbol || short.symbol != symbol {
        return None;
      }
      return Some((long, short));
    }
  }

  // ---------------------------------------------------------------------------------------------
  // Over any run
  // ---------------------------------------------------------------------------------------------

  datatype Call =
    | TrackCall(o: Opportunity, now: int)
    | MarkCall(pairId: string)
    | MissingCall(active: set<string>)
    | CloseCall(pairId: string)
    | RefreshCall(books: Books, now: int, staleAfter: int)

  datatype View = View(sessions: map<string, Session>, sticky: set<string>)

  /** What a call makes of the runtime, as the methods promise. */
  ghost predicate Step(was: View, call: Call, now: View) {
    match call
    case TrackCall(o, at) =>
      && now.sessions == was.sessions[o.pairId :=
           Tracked(if o.pairId in was.sessions then was.sessions[o.pairId] else NEW_SESSION, o, at)]
      && if o.primary then IsTop(now.sticky, was.sticky + {o.pairId}) else now.sticky == was.sticky
    case MarkCall(p) => now.sessions == was.sessions && IsTop(now.sticky, was.sticky + {p})
    case MissingCall(active) =>
      && now.sticky == was.sticky
      && (forall p :: p in now.sessions <==> p in was.sessions && (p in active || p in was.sticky))
      && (forall p :: p in now.sessions ==> now.sessions[p] == was.sessions[p])
    case CloseCall(p) =>
      && now.sticky == was.sticky
      && now.sessions == if p in was.sessions then was.sessions[p := was.sessions[p].(state := Closed)]
                         else was.sessions
    case RefreshCall(books, at, staleAfter) =>
      && now.sticky == was.sticky && now.sessions.Keys == was.sessions.Keys
      && forall p :: p in now.sessions ==> now.sessions[p] == WithBooks(was.sessions[p], books, at, staleAfter)
  }

  /** A run from the empty runtime: the view before each call, and the last one. */
  ghost predicate Run(views: seq<View>, calls: seq<Call>) {
    && |views| == |calls| + 1 && views[0] == View(map[], {})
    && forall i :: 0 <= i < |calls| ==> Step(views[i], calls[i], views[i + 1])
  }

  /** The pairs that were ever primary, or promoted. */
  function Marked(calls: seq<Call>): set<string> {
    if calls == [] then {}
    else
      var last := calls[|calls| - 1];
      Marked(calls[..|calls| - 1])
      + match last
        case TrackCall(o, _) => if o.primary then {o.pairId} else {}
        case MarkCall(p) => {p}
        case _ => {}
  }

  lemma RunPrefix(views: seq<View>, calls: seq<Call>)
    requires Run(views, calls) && calls != []
    ensures Run(views[..|calls|], calls[..|calls| - 1])
    ensures Step(views[|calls| - 1], calls[|calls| - 1], views[|calls|])
  {
  }

  /** After any run, the sticky pairs are the 64 greatest names that were ever marked: by name, not by age. */
  lemma {:induction false} StickyIsTopOfMarked(views: seq<View>, calls: seq<Call>)
    requires Run(views, calls)
    ensures IsTop(views[|calls|].sticky, Marked(calls))
    decreases |calls|
  {
    if calls != [] {
      var init, last := calls[..|calls| - 1], calls[|calls| - 1];
      RunPrefix(views, calls);
      StickyIsTopOfMarked(views[..|calls|], init);
      var was, now := views[|calls| - 1], views[|calls|];
      match last
      case TrackCall(o, _) =>
        if o.primary {
          TopGrows(was.sticky, Marked(init), o.pairId, now.sticky);
        }
      case MarkCall(p) => TopGrows(was.sticky, Marked(init), p, now.sticky);
      case _ =>
    }
  }

  predicate Tracks(call: Call, p: string) {
    call.TrackCall? && call.o.pairId == p
  }

  /** The pair was in scope or sticky whenever the missing were closed after call i. */
  ghost predicate InScopeSince(views: seq<View>, calls: seq<Call>, p: string, i: int)
    requires |views| == |calls| + 1
  {
    forall j :: 0 <= i < j < |calls| && calls[j].MissingCall? ==> p in calls[j].active || p in views[j].sticky
  }

  /** After any run, a pair has a session if and only if it was tracked, and in scope or sticky ever since. */
  lemma {:induction false} SessionHeldExactly(views: seq<View>, calls: seq<Call>, p: string)
    requires Run(views, calls)
    ensures p in views[|calls|].sessions <==>
            exists i :: 0 <= i < |calls| && Tracks(calls[i], p) && InScopeSince(views, calls, p, i)
    decreases |calls|
  {
    if calls != [] {
      var n := |calls| - 1;
      var before, init := views[..|calls|], calls[..n];
      RunPrefix(views, calls);
      SessionHeldExactly(before, init, p);
      if Tracks(calls[n], p) {
        assert InScopeSince(views, calls, p, n);
      }
      var here := !calls[n].MissingCall? || p in calls[n].active || p in views[n].sticky;
      forall i | 0 <= i < n
        ensures InScopeSince(views, calls, p, i) <==> InScopeSince(before, init, p, i) && here
      {
        ScopeWithOneMore(views, calls, p, i);
      }
    }
  }

  lemma ScopeWithOneMore(views: seq<View>, calls: seq<Call>, p: string, i: nat)
    requires |views| == |calls| + 1 && i < |calls| - 1
    ensures var n := |calls| - 1;
            InScopeSince(views, calls, p, i) <==>
            && InScopeSince(views[..|calls|], calls[..n], p, i)
            && (!calls[n].MissingCall? || p in calls[n].active || p in views[n].sticky)
  {
    var n := |calls| - 1;
    assert forall j :: 0 <= j < n ==> calls[..n][j] == calls[j] && views[..|calls|][j] == views[j];
  }

  /** Right after the missing are closed there are at most 64 sessions beside those in scope. */
  lemma SessionsAreBounded(views: seq<View>, calls: seq<Call>)
    requires Run(views, calls) && calls != [] && calls[|calls| - 1].MissingCall?
    ensures |views[|calls|].sessions.Keys - calls[|calls| - 1].active| <= STICKY_LIMIT
  {
    RunPrefix(views, calls);
    StickyIsTopOfMarked(views, calls);
    SubsetSize(views[|calls|].sessions.Keys - calls[|calls| - 1].active, views[|calls|].sticky);
  }

  /** The pair was closed by call i, and its session was held from then on. */
  ghost predicate ClosedAt(views: seq<View>, calls: seq<Call>, p: string, i: int)
    requires |views| == |calls| + 1
  {
    && 0 <= i < |calls| && calls[i] == CloseCall(p)
    && forall j :: i <= j < |views| ==> p in views[j].sessions
  }

  /** One call closes the session if it is the close of the pair, opens none, and begins none closed. */
  lemma ClosedByStep(was: View, call: Call, now: View, p: string)
    requires Step(was, call, now) && p in now.sessions
    ensures now.sessions[p].state == Closed <==>
            p in was.sessions && (call == CloseCall(p) || was.sessions[p].state == Closed)
  {
  }

  /** After any run, a session is closed if and only if it was closed since it was begun: neither tracking nor
      refreshing opens it again, only dropping and tracking anew does. */
  lemma {:induction false} ClosedExactly(views: seq<View>, calls: seq<Call>, p: string)
    requires Run(views, calls) && p in views[|calls|].sessions
    ensures views[|calls|].sessions[p].state == Closed <==> exists i :: ClosedAt(views, calls, p, i)
    decreases |calls|
  {
    if calls != [] {
      var n := |calls| - 1;
      RunPrefix(views, calls);
      ClosedByStep(views[n], calls[n], views[n + 1], p);
      if p !in views[n].sessions {
        assert !exists i :: ClosedAt(views, calls, p, i);
      } else if calls[n] == CloseCall(p) {
        assert ClosedAt(views, calls, p, n);
      } else {
        ClosedExactly(views[..|calls|], calls[..n], p);
        SameClosing(views, calls, views[..|calls|], calls[..n], p);
      }
    }
  }

  lemma SameClosing(views: seq<View>, calls: seq<Call>, before: seq<View>, init: seq<Call>, p: string)
    requires Run(views, calls) && calls != [] && p in views[|calls|].sessions && calls[|calls| - 1] != CloseCall(p)
    requires before == views[..|calls|] && init == calls[..|calls| - 1]
    ensures (exists i :: ClosedAt(views, calls, p, i)) <==> (exists i :: ClosedAt(before, init, p, i))
  {
    forall i | ClosedAt(views, calls, p, i)
      ensures ClosedAt(before, init, p, i)
    {
    }
    forall i | ClosedAt(before, init, p, i)
      ensures ClosedAt(views, calls, p, i)
    {
      assert forall j :: i <= j < |views| - 1 ==> views[j] == before[j];
    }
  }

  /** A closed pair whose books are good is handed out all the same: its state is not asked. */
  lemma ClosedPairIsHandedOut(session: Session, books: Books, applied: int, now: int, staleAfter: int)
    requires session.state == Closed && |session.legs| >= 2
    requires forall v :: v in session.legs ==>
        Executable(BookFor(books, v, session.legs[v]), applied, now, staleAfter)
    ensures WithBooks(session, books, applied, staleAfter).state == Closed
    ensures WithBooks(session, books, applied, staleAfter).BothReady(now, staleAfter)
  {
    PairReadyExactly(session, books, applied, now, staleAfter);
  }
}
