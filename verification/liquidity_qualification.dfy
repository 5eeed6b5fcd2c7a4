/** Which venue and symbol pairs are too illiquid to enter, and for how long that judgement stands. */
module LiquidityQualification {
  import opened Domain
  import opened Ordering

  datatype Eligibility = Eligible | TemporaryBelowFloor | StructuralIneligibility | DataUnavailable

  /** Venue in lower case, symbol in upper case. */
  datatype Key = Key(venue: string, symbol: string)

  datatype Window = Window(
    failures: int,
    lastFailureAt: Option<int>,
    suppressUntil: Option<int>,
    lastClass: Option<Eligibility>,
    openInterest: Option<int>,
    openInterestAt: Option<int>,
    lastProbeAt: Option<int>)

  const FRESH: Window := Window(0, None, None, None, None, None, None)

  function AtLeast(x: int, floor: int): int {
    if x < floor then floor else x
  }

  function WindowOf(windows: map<Key, Window>, key: Key): Window {
    if key in windows then windows[key] else FRESH
  }

  // ---------------------------------------------------------------------------------------------
  // Calls
  // ---------------------------------------------------------------------------------------------

  /** The calls that change the state. A class that is not recognised is None; so is an open interest
      that is not finite or negative. */
  datatype Call =
    | Result(key: Key, given: Option<Eligibility>, at: int, threshold: int, suppressFor: int)
    | Probe(key: Key, at: int, interval: int)
    | Observe(key: Key, quote: Option<int>, at: int)
  {
    function Class(): Eligibility
      requires Result?
    {
      given.GetOr(Eligible)
    }

    function End(): int
      requires Result?
    {
      at + AtLeast(suppressFor, 0)
    }
  }

  function AfterResult(w: Window, call: Call): Window
    requires call.Result?
  {
    match call.Class()
    case Eligible =>
      w.(lastClass := Some(Eligible), failures := 0, lastFailureAt := None, suppressUntil := None, lastProbeAt := None)
    case TemporaryBelowFloor =>
      var failures := AtLeast(w.failures, 0) + 1;
      var counted := w.(failures := failures, lastFailureAt := Some(call.at));
      if failures >= AtLeast(call.threshold, 1)
      then counted.(suppressUntil := Some(call.End()), lastClass := Some(StructuralIneligibility))
      else counted.(lastClass := Some(TemporaryBelowFloor))
    case StructuralIneligibility =>
      w.(failures := AtLeast(w.failures, 0) + 1, lastFailureAt := Some(call.at), suppressUntil := Some(call.End()),
         lastClass := Some(StructuralIneligibility), lastProbeAt := None)
    case DataUnavailable =>
      w.(lastFailureAt := Some(call.at), lastClass := Some(DataUnavailable))
  }

  predicate Suppressed(w: Window, now: int) {
    w.suppressUntil.Some? && w.suppressUntil.value >= now
  }

  /** Suppressed, and nothing else was seen since. */
  predicate UnderProbe(w: Window, now: int) {
    Suppressed(w, now) && w.lastClass == Some(StructuralIneligibility)
  }

  predicate Granted(w: Window, call: Call)
    requires call.Probe?
  {
    !UnderProbe(w, call.at) || w.lastProbeAt.None? || call.at - w.lastProbeAt.value >= AtLeast(call.interval, 0)
  }

  function AfterProbe(w: Window, call: Call): Window
    requires call.Probe?
  {
    if UnderProbe(w, call.at) && Granted(w, call) then w.(lastProbeAt := Some(call.at)) else w
  }

  function After(windows: map<Key, Window>, call: Call): map<Key, Window> {
    var w := WindowOf(windows, call.key);
    match call
    case Result(_, _, _, _, _) => windows[call.key := AfterResult(w, call)]
    case Probe(_, _, _) => windows[call.key := AfterProbe(w, call)]
    case Observe(_, quote, at) =>
      if quote.None? then windows
      else windows[call.key := w.(openInterest := quote, openInterestAt := Some(AtLeast(at, 0)))]
  }

  /** The windows after a run of calls on a new state. */
  function Run(calls: seq<Call>): map<Key, Window> {
    if calls == [] then map[] else After(Run(calls[..|calls| - 1]), calls[|calls| - 1])
  }

  // ---------------------------------------------------------------------------------------------
  // What the trace says
  // ---------------------------------------------------------------------------------------------

  predicate IsResult(call: Call, key: Key, class_: Eligibility) {
    call.Result? && call.key == key && call.Class() == class_
  }

  predicate Fails(call: Call, key: Key) {
    IsResult(call, key, TemporaryBelowFloor) || IsResult(call, key, StructuralIneligibility)
  }

  /** An eligible result for the key comes after call i. */
  predicate ClearedAfter(calls: seq<Call>, key: Key, i: int) {
    exists j :: i < j < |calls| && 0 <= j && IsResult(calls[j], key, Eligible)
  }

  /** The failures since the last eligible result. */
  function Failures(calls: seq<Call>, key: Key): set<int> {
    set i | 0 <= i < |calls| && Fails(calls[i], key) && !ClearedAfter(calls, key, i)
  }

  datatype Mark = Trouble | Escalation

  /** Trouble is any result but eligible; an escalation is structural, or as many failures as the threshold. */
  predicate Marks(calls: seq<Call>, key: Key, mark: Mark, i: nat)
    requires i < |calls|
  {
    match mark
    case Trouble => Fails(calls[i], key) || IsResult(calls[i], key, DataUnavailable)
    case Escalation =>
      || IsResult(calls[i], key, StructuralIneligibility)
      || (IsResult(calls[i], key, TemporaryBelowFloor)
          && |Failures(calls[..i + 1], key)| >= AtLeast(calls[i].threshold, 1))
  }

  /** The last such result, with no eligible one after it. */
  predicate Stands(calls: seq<Call>, key: Key, mark: Mark, i: int) {
    && 0 <= i < |calls|
    && Marks(calls, key, mark, i)
    && !ClearedAfter(calls, key, i)
    && forall j :: i < j < |calls| ==> !Marks(calls, key, mark, j)
  }

  lemma ClearedByOneMore(calls: seq<Call>, call: Call, key: Key, i: int)
    requires i < |calls|
    ensures ClearedAfter(calls + [call], key, i) <==> ClearedAfter(calls, key, i) || IsResult(call, key, Eligible)
    ensures !ClearedAfter(calls + [call], key, |calls|)
  {
    var more := calls + [call];
    assert more[|calls|] == call;
    if ClearedAfter(calls, key, i) {
      var j :| i < j < |calls| && 0 <= j && IsResult(calls[j], key, Eligible);
      assert IsResult(more[j], key, Eligible);
    }
  }

  lemma FailuresWithOneMore(calls: seq<Call>, call: Call, key: Key)
    ensures Failures(calls + [call], key) ==
            if IsResult(call, key, Eligible) then {}
            else Failures(calls, key) + if Fails(call, key) then {|calls|} else {}
  {
    var more := calls + [call];
    forall i | 0 <= i < |more|
      ensures i in Failures(more, key) <==>
              !IsResult(call, key, Eligible) && (i in Failures(calls, key) || (i == |calls| && Fails(call, key)))
    {
      ClearedByOneMore(calls, call, key, if i < |calls| then i else -1);
    }
  }

  lemma CountWithOneMore(calls: seq<Call>, call: Call, key: Key)
    ensures |Failures(calls + [call], key)| ==
            if IsResult(call, key, Eligible) then 0
            else if Fails(call, key) then |Failures(calls, key)| + 1 else |Failures(calls, key)|
  {
    FailuresWithOneMore(calls, call, key);
    assert |calls| !in Failures(calls, key);
  }

  lemma MarksWithOneMore(calls: seq<Call>, call: Call, key: Key, mark: Mark, i: nat)
    requires i < |calls|
    ensures Marks(calls + [call], key, mark, i) == Marks(calls, key, mark, i)
  {
    assert (calls + [call])[..i + 1] == calls[..i + 1];
  }

  lemma StandsWithOneMore(calls: seq<Call>, call: Call, key: Key, mark: Mark, i: int)
    ensures Stands(calls + [call], key, mark, i) <==>
            if i == |calls| then Marks(calls + [call], key, mark, i)
            else
              && Stands(calls, key, mark, i) && !IsResult(call, key, Eligible)
              && !Marks(calls + [call], key, mark, |calls|)
  {
    var more := calls + [call];
    if 0 <= i < |calls| {
      ClearedByOneMore(calls, call, key, i);
      forall j | 0 <= j < |calls|
        ensures Marks(more, key, mark, j) == Marks(calls, key, mark, j)
      {
        MarksWithOneMore(calls, call, key, mark, j);
      }
    } else if i == |calls| {
      ClearedByOneMore(calls, call, key, -1);
    }
  }

  /** A field holds the value that the standing mark gave it, and is empty without one. */
  ghost predicate Holds(field: Option<int>, calls: seq<Call>, key: Key, mark: Mark) {
    && (field.None? ==> forall i :: !Stands(calls, key, mark, i))
    && (field.Some? ==> exists i :: Stands(calls, key, mark, i)
                         && field.value == if mark.Trouble? then calls[i].at else calls[i].End())
  }

  lemma HoldsWithOneMore(field: Option<int>, calls: seq<Call>, call: Call, key: Key, mark: Mark)
    requires Holds(field, calls, key, mark)
    ensures var more := calls + [call];
            Holds(if Marks(more, key, mark, |calls|) then Some(if mark.Trouble? then call.at else call.End())
                  else if IsResult(call, key, Eligible) then None else field, more, key, mark)
  {
    var more := calls + [call];
    assert more[|calls|] == call;
    forall i
      ensures Stands(more, key, mark, i) <==>
              if i == |calls| then Marks(more, key, mark, i)
              else Stands(calls, key, mark, i) && !IsResult(call, key, Eligible) && !Marks(more, key, mark, |calls|)
    {
      StandsWithOneMore(calls, call, key, mark, i);
    }
    if field.Some? {
      var i :| Stands(calls, key, mark, i) && field.value == if mark.Trouble? then calls[i].at else calls[i].End();
      assert more[i] == calls[i];
    }
  }

  /** What one more call does to the traced fields, in terms of the trace. */
  lemma FieldsWithOneMore(w: Window, calls: seq<Call>, call: Call, key: Key)
    requires w.failures == |Failures(calls, key)|
    ensures var more, next := calls + [call], if call.key == key then WindowOf(After(map[key := w], call), key) else w;
            && next.failures == |Failures(more, key)|
            && next.lastFailureAt == (if Marks(more, key, Trouble, |calls|) then Some(call.at)
                                      else if IsResult(call, key, Eligible) then None else w.lastFailureAt)
            && next.suppressUntil == (if Marks(more, key, Escalation, |calls|) then Some(call.End())
                                      else if IsResult(call, key, Eligible) then None else w.suppressUntil)
  {
    var more := calls + [call];
    assert more[|calls|] == call && more[..|calls| + 1] == more;
    CountWithOneMore(calls, call, key);
  }

  /** After any run of calls: failures are counted since the last eligible result, missing data neither
      counts nor resets, and suppression ends where the last escalation put it. */
  lemma {:induction false} SuppressionTrace(calls: seq<Call>, key: Key)
    ensures var w := WindowOf(Run(calls), key);
            && w.failures == |Failures(calls, key)|
            && Holds(w.lastFailureAt, calls, key, Trouble)
            && Holds(w.suppressUntil, calls, key, Escalation)
  {
    if calls != [] {
      var init, call := calls[..|calls| - 1], calls[|calls| - 1];
      assert calls == init + [call];
      SuppressionTrace(init, key);
      var w := WindowOf(Run(init), key);
      FieldsWithOneMore(w, init, call, key);
      HoldsWithOneMore(w.lastFailureAt, init, call, key, Trouble);
      HoldsWithOneMore(w.suppressUntil, init, call, key, Escalation);
      assert WindowOf(Run(calls), key) == if call.key == key then WindowOf(After(map[key := w], call), key) else w;
    }
  }

  function CurrentClassOf(windows: map<Key, Window>, key: Key, now: int): Eligibility {
    if key !in windows then Eligible
    else if Suppressed(windows[key], now) then StructuralIneligibility
    else if windows[key].lastClass == Some(StructuralIneligibility) then Eligible
    else windows[key].lastClass.GetOr(Eligible)
  }

  /** A pair is structurally ineligible exactly until the end that its standing escalation set. */
  lemma SuppressedExactlyUntilEnd(calls: seq<Call>, key: Key, now: int)
    ensures CurrentClassOf(Run(calls), key, now) == StructuralIneligibility <==>
            exists i :: Stands(calls, key, Escalation, i) && calls[i].End() >= now
  {
    SuppressionTrace(calls, key);
    var end := WindowOf(Run(calls), key).suppressUntil;
    if end.Some? {
      var i :| Stands(calls, key, Escalation, i) && end.value == calls[i].End();
      forall j | Stands(calls, key, Escalation, j)
        ensures j == i
      {
      }
    }
  }

  /** Calls for other keys change nothing. */
  lemma {:induction false} OtherKeysDoNotMatter(calls: seq<Call>, more: seq<Call>, key: Key)
    requires forall i :: 0 <= i < |more| ==> more[i].key != key
    ensures WindowOf(Run(calls + more), key) == WindowOf(Run(calls), key)
    ensures key in Run(calls + more) <==> key in Run(calls)
    decreases |more|
  {
    if more == [] {
      assert calls + more == calls;
    } else {
      assert (calls + more)[..|calls + more| - 1] == calls + more[..|more| - 1];
      OtherKeysDoNotMatter(calls, more[..|more| - 1], key);
    }
  }

  // ---------------------------------------------------------------------------------------------
  // Probes
  // ---------------------------------------------------------------------------------------------

  /** Call i is a probe of the key that was granted although the key was suppressed. */
  predicate Probed(calls: seq<Call>, key: Key, i: nat) {
    && i < |calls| && calls[i].Probe? && calls[i].key == key
    && var w := WindowOf(Run(calls[..i]), key); Suppressed(w, calls[i].at) && Granted(w, calls[i])
  }

  predicate IsLastResult(calls: seq<Call>, key: Key, i: int) {
    && 0 <= i < |calls| && calls[i].Result? && calls[i].key == key
    && forall j :: i < j < |calls| ==> !(calls[j].Result? && calls[j].key == key)
  }

  /** The last result of the key is an escalation. */
  predicate Escalated(calls: seq<Call>, key: Key) {
    exists i :: 0 <= i < |calls| && IsLastResult(calls, key, i) && Marks(calls, key, Escalation, i)
  }

  lemma LastResultWithOneMore(calls: seq<Call>, call: Call, key: Key, i: int)
    ensures IsLastResult(calls + [call], key, i) <==>
            if call.Result? && call.key == key then i == |calls| else IsLastResult(calls, key, i)
  {
    var more := calls + [call];
    assert more[|calls|] == call;
    assert forall j :: 0 <= j < |calls| ==> more[j] == calls[j];
  }

  lemma EscalatedWithOneMore(calls: seq<Call>, call: Call, key: Key)
    ensures Escalated(calls + [call], key) <==>
            if call.Result? && call.key == key then Marks(calls + [call], key, Escalation, |calls|)
            else Escalated(calls, key)
  {
    var more := calls + [call];
    forall i
      ensures IsLastResult(more, key, i) <==>
              if call.Result? && call.key == key then i == |calls| else IsLastResult(calls, key, i)
    {
      LastResultWithOneMore(calls, call, key, i);
    }
    forall i: nat | i < |calls|
      ensures Marks(more, key, Escalation, i) == Marks(calls, key, Escalation, i)
    {
      MarksWithOneMore(calls, call, key, Escalation, i);
    }
    if call.Result? && call.key == key && Marks(more, key, Escalation, |calls|) {
      assert IsLastResult(more, key, |calls|);
    }
  }

  /** The class on record is structural exactly when the last result of the key is an escalation. */
  lemma {:induction false} LastClassTrace(calls: seq<Call>, key: Key)
    ensures WindowOf(Run(calls), key).lastClass == Some(StructuralIneligibility) <==> Escalated(calls, key)
  {
    if calls != [] {
      var init, call := calls[..|calls| - 1], calls[|calls| - 1];
      assert calls == init + [call];
      LastClassTrace(init, key);
      SuppressionTrace(init, key);
      EscalatedWithOneMore(init, call, key);
      if call.key == key {
        ClassWithOneMore(WindowOf(Run(init), key), init, call, key);
      }
      assert WindowOf(Run(calls), key) ==
             if call.key == key then WindowOf(After(map[key := WindowOf(Run(init), key)], call), key)
             else WindowOf(Run(init), key);
    }
  }

  lemma ClassWithOneMore(w: Window, calls: seq<Call>, call: Call, key: Key)
    requires w.failures == |Failures(calls, key)| && call.key == key
    ensures var next := WindowOf(After(map[key := w], call), key).lastClass == Some(StructuralIneligibility);
            if call.Result? then next <==> Marks(calls + [call], key, Escalation, |calls|)
            else next <==> w.lastClass == Some(StructuralIneligibility)
  {
    var more := calls + [call];
    assert more[|calls|] == call && more[..|calls| + 1] == more;
    CountWithOneMore(calls, call, key);
  }

  /** The time on record is that of the last granted probe under an escalation, unless an eligible or
      structural result came after it. */
  predicate ProbeStands(calls: seq<Call>, key: Key, i: nat) {
    && i < |calls| && Probed(calls, key, i) && Escalated(calls[..i], key)
    && forall j :: i < j < |calls| ==>
         && !(Probed(calls, key, j) && Escalated(calls[..j], key))
         && !IsResult(calls[j], key, Eligible) && !IsResult(calls[j], key, StructuralIneligibility)
  }

  lemma ProbeStandsWithOneMore(calls: seq<Call>, call: Call, key: Key, i: nat)
    requires i <= |calls|
    ensures var more := calls + [call];
            var noted := Probed(more, key, |calls|) && Escalated(calls, key);
            ProbeStands(more, key, i) <==>
            if i == |calls| then noted
            else
              && ProbeStands(calls, key, i) && !noted && !IsResult(call, key, Eligible)
              && !IsResult(call, key, StructuralIneligibility)
  {
    var more := calls + [call];
    assert more[|calls|] == call && more[..|calls|] == calls;
    assert forall j :: 0 <= j < |calls| ==> more[j] == calls[j] && more[..j] == calls[..j];
  }

  lemma {:induction false} LastProbeTrace(calls: seq<Call>, key: Key)
    ensures var last := WindowOf(Run(calls), key).lastProbeAt;
            && (last.None? ==> forall i: nat :: !ProbeStands(calls, key, i))
            && (last.Some? ==> exists i: nat :: ProbeStands(calls, key, i) && last.value == calls[i].at)
  {
    if calls != [] {
      var init, call := calls[..|calls| - 1], calls[|calls| - 1];
      assert calls == init + [call];
      LastProbeTrace(init, key);
      LastClassTrace(init, key);
      forall i: nat | i <= |init|
        ensures var noted := Probed(calls, key, |init|) && Escalated(init, key);
                ProbeStands(calls, key, i) <==>
                if i == |init| then noted
                else
                  && ProbeStands(init, key, i) && !noted && !IsResult(call, key, Eligible)
                  && !IsResult(call, key, StructuralIneligibility)
      {
        ProbeStandsWithOneMore(init, call, key, i);
      }
      ProbeWithOneMore(calls, init, call, key);
    }
  }

  /** What one more call does to the time on record. */
  lemma ProbeWithOneMore(calls: seq<Call>, init: seq<Call>, call: Call, key: Key)
    requires calls == init + [call]
    ensures var w, next := WindowOf(Run(init), key), WindowOf(Run(calls), key);
            next.lastProbeAt ==
            if Probed(calls, key, |init|) && Escalated(init, key) then Some(call.at)
            else if IsResult(call, key, Eligible) || IsResult(call, key, StructuralIneligibility) then None
            else w.lastProbeAt
  {
    assert calls[..|calls| - 1] == init && calls[..|init|] == init && calls[|init|] == call;
    LastClassTrace(init, key);
  }

  predicate NoResultBetween(calls: seq<Call>, key: Key, i: nat, n: nat) {
    forall m :: i < m < n && m < |calls| ==> !(calls[m].Result? && calls[m].key == key)
  }

  lemma {:induction false} StillEscalated(calls: seq<Call>, key: Key, i: nat, n: nat)
    requires i < n <= |calls| && !(calls[i].Result? && calls[i].key == key) && NoResultBetween(calls, key, i, n)
    ensures Escalated(calls[..n], key) <==> Escalated(calls[..i], key)
    decreases n
  {
    assert calls[..n] == calls[..n - 1] + [calls[n - 1]];
    EscalatedWithOneMore(calls[..n - 1], calls[n - 1], key);
    if n > i + 1 {
      StillEscalated(calls, key, i, n - 1);
    }
  }

  lemma {:induction false} LastProbeIsNotBefore(calls: seq<Call>, key: Key, i: nat, n: nat)
    requires Probed(calls, key, i) && Escalated(calls[..i], key) && i < n <= |calls|
        && NoResultBetween(calls, key, i, n)
    ensures var last := WindowOf(Run(calls[..n]), key).lastProbeAt; last.Some? && last.value >= calls[i].at
    decreases n
  {
    assert calls[..n][..n - 1] == calls[..n - 1];
    if n > i + 1 {
      LastProbeIsNotBefore(calls, key, i, n - 1);
    } else {
      LastClassTrace(calls[..i], key);
    }
  }

  /** Under suppression, while the last result of the key is the escalation, granted probes with no result
      between them are at least the interval apart. */
  lemma ProbesKeepTheirDistance(calls: seq<Call>, key: Key, i: nat, j: nat)
    requires i < j && Probed(calls, key, i) && Probed(calls, key, j) && NoResultBetween(calls, key, i, j)
    requires Escalated(calls[..i], key)
    ensures calls[j].at - calls[i].at >= AtLeast(calls[j].interval, 0)
  {
    StillEscalated(calls, key, i, j);
    LastClassTrace(calls[..j], key);
    LastProbeIsNotBefore(calls, key, i, j);
  }

  /** Two probes in a row after these calls, both granted under suppression, keep the interval of the second. */
  predicate PairKeepsInterval(calls: seq<Call>, key: Key, first: int, second: int, interval: int) {
    var w := WindowOf(Run(calls), key);
    var w' := AfterProbe(w, Probe(key, first, interval));
    Suppressed(w, first) && Suppressed(w', second) && Granted(w, Probe(key, first, interval))
      && Granted(w', Probe(key, second, interval))
    ==> second - first >= AtLeast(interval, 0)
  }

  /** Whatever came before: for a suppressed key, granted probes keep every interval if and only if the last
      result of the key is an escalation. Any other result, even missing data, lifts the limit. */
  lemma ProbesKeepEveryIntervalExactly(calls: seq<Call>, key: Key)
    requires WindowOf(Run(calls), key).suppressUntil.Some?
    ensures (forall first, second, interval :: PairKeepsInterval(calls, key, first, second, interval)) <==>
        Escalated(calls, key)
  {
    LastClassTrace(calls, key);
    var w := WindowOf(Run(calls), key);
    if !Escalated(calls, key) {
      assert !PairKeepsInterval(calls, key, w.suppressUntil.value, w.suppressUntil.value, 1);
    }
  }

  /** A structural result, missing data, and two probes one millisecond apart: both are granted although the
      key is still suppressed and the interval is 60. */
  lemma MissingDataLiftsTheProbeLimit(key: Key)
    ensures var calls := [Result(key, Some(StructuralIneligibility), 0, 3, 100),
        Result(key, Some(DataUnavailable), 1, 3, 100),
                          Probe(key, 2, 60), Probe(key, 3, 60)];
            && CurrentClassOf(Run(calls[..2]), key, 2) == StructuralIneligibility
            && CurrentClassOf(Run(calls[..3]), key, 3) == StructuralIneligibility
            && Probed(calls, key, 2) && Probed(calls, key, 3) && NoResultBetween(calls, key, 2, 3)
            && calls[3].at - calls[2].at < calls[3].interval
  {
    var calls := [Result(key, Some(StructuralIneligibility), 0, 3, 100), Result(key, Some(DataUnavailable), 1, 3, 100),
                  Probe(key, 2, 60), Probe(key, 3, 60)];
    assert calls[..3][..2] == calls[..2] && calls[..2][..1] == calls[..1] && calls[..1][..0] == [];
    assert Run(calls[..0]) == map[];
    assert Run(calls[..1]) == After(map[], calls[0]);
    assert Run(calls[..2]) == After(Run(calls[..1]), calls[1]);
    assert Run(calls[..3]) == After(Run(calls[..2]), calls[2]);
  }

  // ---------------------------------------------------------------------------------------------
  // Records
  // ---------------------------------------------------------------------------------------------

  datatype Record = Record(key: Key, window: Window)

  predicate KeyLeq(a: Key, b: Key) {
    if a.venue == b.venue then TextLeq(a.symbol, b.symbol) else TextLeq(a.venue, b.venue)
  }

  predicate Named(key: Key) {
    key.venue != "" && key.symbol != ""
  }

  /** What from_records makes of a list of records: the last one of a key wins, those without a name are dropped. */
  function Loaded(records: seq<Record>): map<Key, Window> {
    if records == [] then map[]
    else
      var init, last := Loaded(records[..|records| - 1]), records[|records| - 1];
      if Named(last.key) then init[last.key := last.window.(failures := AtLeast(last.window.failures, 0))] else init
  }

  /** A list that names every window once. */
  ghost predicate Lists(records: seq<Record>, windows: map<Key, Window>) {
    && (forall i :: 0 <= i < |records| ==> records[i].key in windows && records[i].window == windows[records[i].key])
    && (forall i, j :: 0 <= i < j < |records| ==> records[i].key != records[j].key)
    && (forall k :: k in windows ==> exists i :: 0 <= i < |records| && records[i].key == k)
  }

  lemma {:induction false} LoadedAt(records: seq<Record>, windows: map<Key, Window>, key: Key)
    requires forall i ::
        0 <= i < |records| ==> records[i].key in windows && records[i].window == windows[records[i].key]
    ensures key in Loaded(records) <==> Named(key) && exists i :: 0 <= i < |records| && records[i].key == key
    ensures key in Loaded(records) ==>
        key in windows && Loaded(records)[key] == windows[key].(failures := AtLeast(windows[key].failures, 0))
  {
    if records != [] {
      var init := records[..|records| - 1];
      LoadedAt(init, windows, key);
      assert forall i :: 0 <= i < |init| ==> init[i] == records[i];
      assert records[|records| - 1].key == key ==> exists i :: 0 <= i < |records| && records[i].key == key;
    }
  }

  lemma FailuresAreNotNegative(calls: seq<Call>)
    ensures forall k :: k in Run(calls) ==> Run(calls)[k].failures >= 0
  {
    forall k | k in Run(calls)
      ensures Run(calls)[k].failures >= 0
    {
      SuppressionTrace(calls, k);
    }
  }

  /** Saving and loading the windows of any run, in any order of records, keeps every named key as it was. */
  lemma RoundTrip(calls: seq<Call>, records: seq<Record>)
    requires Lists(records, Run(calls))
    ensures Loaded(records) == map k | k in Run(calls) && Named(k) :: Run(calls)[k]
  {
    var windows := Run(calls);
    FailuresAreNotNegative(calls);
    forall k
      ensures k in Loaded(records) <==> k in windows && Named(k)
      ensures k in Loaded(records) ==> Loaded(records)[k] == windows[k]
    {
      LoadedAt(records, windows, k);
    }
  }

  /** EntryLiquidityQualificationState. */
  class QualificationState {
    var windows: map<Key, Window>

    /** from_records. */
    constructor (records: seq<Record>)
      ensures windows == Loaded(records)
    {
      var loaded: map<Key, Window> := map[];
      for i := 0 to |records|
        invariant loaded == Loaded(records[..i])
      {
        assert records[..i + 1][..i] == records[..i];
        var r := records[i];
        if r.key.venue == "" || r.key.symbol == "" {
          continue;
        }
        loaded := loaded[r.key := r.window.(failures := AtLeast(r.window.failures, 0))];
      }
      assert records[..|records|] == records;
      windows := loaded;
    }

    /** record_result. */
    method RecordResult(key: Key, given: Option<Eligibility>, at: int, threshold: int, suppressFor: int)
      returns (class_: Eligibility)
      modifies this
      ensures windows == After(old(windows), Result(key, given, at, threshold, suppressFor))
      ensures Some(class_) == windows[key].lastClass
    {
      class_ := given.GetOr(Eligible);
      var w := WindowOf(windows, key).(lastClass := Some(class_));
      match class_ {
        case Eligible =>
          w := w.(failures := 0, lastFailureAt := None, suppressUntil := None, lastProbeAt := None);
        case TemporaryBelowFloor =>
          w := w.(failures := AtLeast(w.failures, 0) + 1, lastFailureAt := Some(at));
          if w.failures >= AtLeast(threshold, 1) {
            class_ := StructuralIneligibility;
            w := w.(suppressUntil := Some(at + AtLeast(suppressFor, 0)), lastClass := Some(class_));
          }
        case StructuralIneligibility =>
          w := w.(failures := AtLeast(w.failures, 0) + 1, lastFailureAt := Some(at));
          w := w.(suppressUntil := Some(at + AtLeast(suppressFor, 0)), lastProbeAt := None);
        case DataUnavailable =>
          w := w.(lastFailureAt := Some(at));
      }
      windows := windows[key := w];
    }

    /** should_probe_structural. */
    method ShouldProbe(key: Key, now: int, interval: int) returns (granted: bool)
      modifies this
      ensures windows == After(old(windows), Probe(key, now, interval))
      ensures granted == Granted(WindowOf(old(windows), key), Probe(key, now, interval))
    {
      var w := WindowOf(windows, key);
      windows := windows[key := w];
      var active := w.suppressUntil.Some? && w.suppressUntil.value >= now
          && w.lastClass == Some(StructuralIneligibility);
      if !active {
        granted := true;
      } else if w.lastProbeAt.Some? && now - w.lastProbeAt.value < AtLeast(interval, 0) {
        granted := false;
      } else {
        granted := true;
        windows := windows[key := w.(lastProbeAt := Some(now))];
      }
    }

    /** note_open_interest_observation. */
    method NoteOpenInterest(key: Key, quote: Option<int>, at: int)
      modifies this
      ensures windows == After(old(windows), Observe(key, quote, at))
    {
      if quote.Some? {
        windows := windows[key := WindowOf(windows, key).(openInterest := quote,
            openInterestAt := Some(AtLeast(at, 0)))];
      }
    }

    /** current_class. */
    method CurrentClass(key: Key, now: int) returns (class_: Eligibility)
      ensures class_ == CurrentClassOf(windows, key, now)
      ensures class_ == StructuralIneligibility <==> Suppressed(WindowOf(windows, key), now)
    {
      if key !in windows {
        return Eligible;
      }
      var w := windows[key];
      if w.suppressUntil.Some? && w.suppressUntil.value >= now {
        return StructuralIneligibility;
      }
      class_ := if w.lastClass == Some(StructuralIneligibility) then Eligible else w.lastClass.GetOr(Eligible);
    }

    /** to_records: every window once, in order of venue and symbol. */
    method ToRecords() returns (records: seq<Record>)
      ensures Lists(records, windows)
      ensures forall i, j :: 0 <= i < j < |records| ==> KeyLeq(records[i].key, records[j].key)
    {
      KeyOrder();
      var sorted := SortSet(windows.Keys, KeyLeq);
      records := [];
      for i := 0 to |sorted|
        invariant |records| == i
        invariant forall j :: 0 <= j < i ==> records[j] == Record(sorted[j], windows[sorted[j]])
      {
        records := records + [Record(sorted[i], windows[sorted[i]])];
      }
      EnumerationLists(sorted, windows, records);
    }
  }

  lemma EnumerationLists(keys: seq<Key>, windows: map<Key, Window>, records: seq<Record>)
    requires Arranges(keys, windows.Keys, KeyLeq) && |records| == |keys|
    requires forall i :: 0 <= i < |keys| ==> records[i] == Record(keys[i], windows[keys[i]])
    ensures Lists(records, windows)
  {
    forall k | k in windows
      ensures exists i :: 0 <= i < |records| && records[i].key == k
    {
      var i :| 0 <= i < |keys| && keys[i] == k;
      assert records[i].key == k;
    }
  }

  lemma KeyOrder()
    ensures TotalOrder(KeyLeq)
  {
    forall a: Key, b: Key, c: Key
      ensures KeyLeq(a, b) || KeyLeq(b, a)
      ensures KeyLeq(a, b) && KeyLeq(b, a) ==> a == b
      ensures KeyLeq(a, b) && KeyLeq(b, c) ==> KeyLeq(a, c)
    {
      TextOrderFacts(a.venue, b.venue, c.venue);
      TextOrderFacts(b.venue, c.venue, a.venue);
      TextOrderFacts(c.venue, a.venue, b.venue);
      TextOrderFacts(a.symbol, b.symbol, c.symbol);
    }
  }
}
