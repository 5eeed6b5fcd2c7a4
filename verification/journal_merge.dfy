/** Merging journal rotations, newest first, within one record budget. */
module JournalMerge {
  import opened Domain

  /** The run and the sequence number of an event, when it has both. */
  datatype EventKey = EventKey(run: string, sequence: int)

  /** A decoded journal record. A timestamp that is not a number is None; a missing one is zero. */
  datatype Record = Record(timestamp: Option<int>, key: Option<EventKey>, body: string)

  /** A rotation: when it was last modified (None if it cannot be read), and its records, newest first. */
  datatype EventFile = EventFile(modifiedAt: Option<int>, records: seq<Record>)

  function Time(r: Record): int {
    r.timestamp.GetOr(0)
  }

  // ---------------------------------------------------------------------------------------------
  // Window and identity
  // ---------------------------------------------------------------------------------------------

  /** In the window that starts at `since`; zero means no window. */
  predicate InWindow(r: Record, since: int) {
    r.timestamp.Some? && (since == 0 || r.timestamp.value >= since)
  }

  function Window(records: seq<Record>, since: int): seq<Record> {
    if records == [] then []
    else
      var last := records[|records| - 1];
      Window(records[..|records| - 1], since) + if InWindow(last, since) then [last] else []
  }

  function Keys(records: seq<Record>): set<EventKey> {
    set r | r in records && r.key.Some? :: r.key.value
  }

  /** Keeps the first record of every key; records without a key are all kept. */
  function Distinct(records: seq<Record>): seq<Record> {
    if records == [] then []
    else
      var init, last := records[..|records| - 1], records[|records| - 1];
      Distinct(init) + if last.key.Some? && last.key.value in Keys(init) then [] else [last]
  }

  lemma Last<T>(s: seq<T>, x: T)
    ensures (s + [x])[..|s + [x]| - 1] == s
  {
  }

  lemma KeysOfMore(records: seq<Record>, r: Record)
    ensures Keys(records + [r]) == Keys(records) + if r.key.Some? then {r.key.value} else {}
  {
    assert forall x :: x in records + [r] <==> x in records || x == r;
  }

  lemma {:induction false} WindowConcat(a: seq<Record>, b: seq<Record>, since: int)
    ensures Window(a + b, since) == Window(a, since) + Window(b, since)
    decreases |b|
  {
    if b == [] {
      assert a + b == a;
    } else {
      WindowConcat(a, b[..|b| - 1], since);
      assert (a + b)[..|a + b| - 1] == a + b[..|b| - 1];
    }
  }

  lemma {:induction false} DistinctGrows(a: seq<Record>, b: seq<Record>)
    ensures Distinct(a) <= Distinct(a + b)
    decreases |b|
  {
    if b == [] {
      assert a + b == a;
    } else {
      DistinctGrows(a, b[..|b| - 1]);
      assert (a + b)[..|a + b| - 1] == a + b[..|b| - 1];
    }
  }

  /** No key occurs twice. */
  predicate NoRepeats(records: seq<Record>) {
    forall i, j :: 0 <= i < j < |records| && records[i].key.Some? ==> records[i].key != records[j].key
  }

  lemma {:induction false} DistinctHasNoRepeats(records: seq<Record>)
    ensures NoRepeats(Distinct(records)) && Keys(Distinct(records)) == Keys(records)
    ensures forall r :: r in Distinct(records) ==> r in records
  {
    if records != [] {
      var init, last := records[..|records| - 1], records[|records| - 1];
      DistinctHasNoRepeats(init);
      assert records == init + [last];
      KeysOfMore(init, last);
      KeysOfMore(Distinct(init), last);
      assert forall i ::
        0 <= i < |Distinct(init)| && Distinct(init)[i].key.Some? ==>
          Distinct(init)[i].key.value in Keys(Distinct(init));
    }
  }

  lemma {:induction false} DistinctOfDistinct(records: seq<Record>)
    requires NoRepeats(records)
    ensures Distinct(records) == records
  {
    if records != [] {
      var init, last := records[..|records| - 1], records[|records| - 1];
      DistinctOfDistinct(init);
      assert forall i :: 0 <= i < |init| ==> records[i].key != last.key || last.key.None?;
    }
  }

  // ---------------------------------------------------------------------------------------------
  // Stable order by time
  // ---------------------------------------------------------------------------------------------

  predicate SortedByTime(records: seq<Record>) {
    forall i, j :: 0 <= i < j < |records| ==> Time(records[i]) <= Time(records[j])
  }

  /** Places a record after all that are not later. */
  function Insert(sorted: seq<Record>, r: Record): seq<Record> {
    if sorted == [] || Time(sorted[|sorted| - 1]) <= Time(r) then sorted + [r]
    else Insert(sorted[..|sorted| - 1], r) + [sorted[|sorted| - 1]]
  }

  /** A stable sort by time. */
  function SortByTime(records: seq<Record>): seq<Record> {
    if records == [] then []
    else Insert(SortByTime(records[..|records| - 1]), records[|records| - 1])
  }

  function At(records: seq<Record>, t: int): seq<Record> {
    if records == [] then []
    else
      var last := records[|records| - 1];
      At(records[..|records| - 1], t) + if Time(last) == t then [last] else []
  }

  lemma {:induction false} InsertAddsOne(sorted: seq<Record>, r: Record)
    ensures multiset(Insert(sorted, r)) == multiset(sorted) + multiset{r}
  {
    if sorted != [] {
      var init, last := sorted[..|sorted| - 1], sorted[|sorted| - 1];
      assert sorted == init + [last];
      InsertAddsOne(init, r);
    }
  }

  lemma InsertedAre(sorted: seq<Record>, r: Record)
    ensures forall x :: x in Insert(sorted, r) ==> x == r || x in sorted
  {
    InsertAddsOne(sorted, r);
    forall x | x in Insert(sorted, r)
      ensures x == r || x in sorted
    {
      assert x in multiset(Insert(sorted, r));
      assert x == r || x in multiset(sorted);
    }
  }

  lemma {:induction false} InsertSorts(sorted: seq<Record>, r: Record)
    requires SortedByTime(sorted)
    ensures SortedByTime(Insert(sorted, r))
  {
    if sorted != [] && Time(sorted[|sorted| - 1]) > Time(r) {
      var init, last := sorted[..|sorted| - 1], sorted[|sorted| - 1];
      InsertSorts(init, r);
      InsertedAre(init, r);
      assert forall x :: x in Insert(init, r) ==> Time(x) <= Time(last);
    }
  }

  lemma {:induction false} InsertIsStable(sorted: seq<Record>, r: Record, t: int)
    ensures At(Insert(sorted, r), t) == At(sorted, t) + if Time(r) == t then [r] else []
  {
    if sorted == [] || Time(sorted[|sorted| - 1]) <= Time(r) {
      Last(sorted, r);
    } else {
      var init, last := sorted[..|sorted| - 1], sorted[|sorted| - 1];
      InsertIsStable(init, r, t);
      Last(Insert(init, r), last);
    }
  }

  /** The sort orders by time and keeps the order of records of the same time; so it is a permutation. */
  lemma {:induction false} SortIsStable(records: seq<Record>)
    ensures SortedByTime(SortByTime(records))
    ensures multiset(SortByTime(records)) == multiset(records)
    ensures forall t :: At(SortByTime(records), t) == At(records, t)
  {
    if records != [] {
      var init, last := records[..|records| - 1], records[|records| - 1];
      assert records == init + [last];
      SortIsStable(init);
      InsertSorts(SortByTime(init), last);
      InsertAddsOne(SortByTime(init), last);
      forall t
        ensures At(SortByTime(records), t) == At(records, t)
      {
        InsertIsStable(SortByTime(init), last, t);
      }
    }
  }

  lemma {:induction false} SortOfSorted(records: seq<Record>)
    requires SortedByTime(records)
    ensures SortByTime(records) == records
  {
    if records != [] {
      SortOfSorted(records[..|records| - 1]);
    }
  }

  lemma TwiceInMultiset(s: seq<Record>, i: nat, j: nat)
    requires i < j < |s| && s[i] == s[j]
    ensures multiset(s)[s[i]] >= 2
  {
    assert s == s[..j] + [s[j]] + s[j + 1..];
    assert s[..j][i] in multiset(s[..j]);
  }

  lemma {:induction false} AtMostOnce(s: seq<Record>, r: Record)
    requires NoRepeats(s) && r.key.Some?
    ensures multiset(s)[r] <= 1
  {
    if s != [] {
      var init, last := s[..|s| - 1], s[|s| - 1];
      assert s == init + [last];
      AtMostOnce(init, r);
      if last == r {
        assert forall i :: 0 <= i < |init| ==> init[i] == s[i] && s[i] != r;
        assert r !in multiset(init);
      }
    }
  }

  lemma PermutationHasNoRepeats(a: seq<Record>, b: seq<Record>)
    requires NoRepeats(a) && multiset(a) == multiset(b)
    ensures NoRepeats(b)
  {
    forall i, j | 0 <= i < j < |b| && b[i].key.Some?
      ensures b[i].key != b[j].key
    {
      assert b[i] in multiset(a) && b[j] in multiset(a);
      var m :| 0 <= m < |a| && a[m] == b[i];
      var n :| 0 <= n < |a| && a[n] == b[j];
      AtMostOnce(a, b[i]);
      if b[i] == b[j] {
        TwiceInMultiset(b, i, j);
      }
    }
  }

  // ---------------------------------------------------------------------------------------------
  // Deduplicate and sort
  // ---------------------------------------------------------------------------------------------

  /** _deduplicate_and_sort_events. */
  method DeduplicateAndSort(events: seq<Record>) returns (r: seq<Record>)
    ensures r == SortByTime(Distinct(events))
  {
    var deduplicated: seq<Record> := [];
    var seen: set<EventKey> := {};
    for i := 0 to |events|
      invariant deduplicated == Distinct(events[..i])
      invariant seen == Keys(events[..i])
    {
      var record := events[i];
      assert events[..i + 1] == events[..i] + [record];
      Last(events[..i], record);
      KeysOfMore(events[..i], record);
      if record.key.Some? {
        if record.key.value in seen {
          continue;
        }
        seen := seen + {record.key.value};
      }
      deduplicated := deduplicated + [record];
    }
    assert events[..|events|] == events;
    r := SortByTime(deduplicated);
  }

  /** Doing it again changes nothing. */
  lemma DeduplicateAndSortIsIdempotent(events: seq<Record>)
    ensures SortByTime(Distinct(SortByTime(Distinct(events)))) == SortByTime(Distinct(events))
  {
    DistinctHasNoRepeats(events);
    SortIsStable(Distinct(events));
    PermutationHasNoRepeats(Distinct(events), SortByTime(Distinct(events)));
    DistinctOfDistinct(SortByTime(Distinct(events)));
    SortOfSorted(SortByTime(Distinct(events)));
  }

  // ---------------------------------------------------------------------------------------------
  // The merge
  // ---------------------------------------------------------------------------------------------

  /** All readable records, newest rotation first. */
  function AllRecords(files: seq<EventFile>): seq<Record> {
    if files == [] then []
    else
      var last := files[|files| - 1];
      AllRecords(files[..|files| - 1]) + if last.modifiedAt.Some? then last.records else []
  }

  /** A rotation last modified before the window began is skipped. */
  predicate Stale(file: EventFile, since: int) {
    file.modifiedAt.Some? && since != 0 && file.modifiedAt.value < since
  }

  predicate IsRead(file: EventFile, since: int) {
    file.modifiedAt.Some? && !Stale(file, since)
  }

  /** The records of the rotations that are read. */
  function ReadRecords(files: seq<EventFile>, since: int): seq<Record> {
    if files == [] then []
    else
      var last := files[|files| - 1];
      ReadRecords(files[..|files| - 1], since) + if IsRead(last, since) then last.records else []
  }

  /** The distinct records of the window, newest first. */
  function Qualifying(files: seq<EventFile>, since: int): seq<Record> {
    Distinct(Window(ReadRecords(files, since), since))
  }

  /** A rotation not modified since the window began holds nothing in the window. */
  predicate StaleFilesAreEmpty(files: seq<EventFile>, since: int) {
    forall f, r :: f in files && Stale(f, since) && r in f.records ==> !InWindow(r, since)
  }

  lemma {:induction false} NothingInWindow(records: seq<Record>, since: int)
    requires forall r :: r in records ==> !InWindow(r, since)
    ensures Window(records, since) == []
  {
    if records != [] {
      assert records[|records| - 1] in records;
      NothingInWindow(records[..|records| - 1], since);
    }
  }

  lemma {:induction false} SomethingInWindow(records: seq<Record>, since: int)
    requires Window(records, since) == []
    ensures forall r :: r in records ==> !InWindow(r, since)
  {
    if records != [] {
      SomethingInWindow(records[..|records| - 1], since);
    }
  }

  /** How many records of the window the skipped rotations hold. */
  function Skipped(files: seq<EventFile>, since: int): nat {
    if files == [] then 0
    else
      var last := files[|files| - 1];
      Skipped(files[..|files| - 1], since) + if Stale(last, since) then |Window(last.records, since)| else 0
  }

  lemma {:induction false} SkippedIsMissing(files: seq<EventFile>, since: int)
    ensures |Window(AllRecords(files), since)| == |Window(ReadRecords(files, since), since)| + Skipped(files, since)
    ensures Skipped(files, since) == 0 <==> StaleFilesAreEmpty(files, since)
    ensures Skipped(files, since) == 0 ==> Window(AllRecords(files), since) == Window(ReadRecords(files, since), since)
  {
    if files != [] {
      var init, last := files[..|files| - 1], files[|files| - 1];
      assert forall f :: f in files <==> f in init || f == last;
      SkippedIsMissing(init, since);
      WindowConcat(AllRecords(init), if last.modifiedAt.Some? then last.records else [], since);
      WindowConcat(ReadRecords(init, since), if IsRead(last, since) then last.records else [], since);
      StaleFileIsEmpty(last, since);
    }
  }

  lemma StaleFileIsEmpty(file: EventFile, since: int)
    ensures |Window(file.records, since)| == 0 <==> forall r :: r in file.records ==> !InWindow(r, since)
  {
    if Window(file.records, since) == [] {
      SomethingInWindow(file.records, since);
    }
    if forall r :: r in file.records ==> !InWindow(r, since) {
      NothingInWindow(file.records, since);
    }
  }

  /** Skipping by modification time loses nothing exactly when no skipped rotation holds a record of the window. */
  lemma SkippingIsHarmlessExactly(files: seq<EventFile>, since: int)
    ensures Window(ReadRecords(files, since), since) == Window(AllRecords(files), since) <==>
        StaleFilesAreEmpty(files, since)
  {
    SkippedIsMissing(files, since);
  }

  lemma {:induction false} ReadRecordsGrow(files: seq<EventFile>, since: int, n: nat)
    requires n <= |files|
    ensures ReadRecords(files[..n], since) <= ReadRecords(files, since)
  {
    if n == |files| {
      assert files[..n] == files;
    } else {
      ReadRecordsGrow(files[..|files| - 1], since, n);
      assert files[..|files| - 1][..n] == files[..n];
    }
  }

  lemma QualifyingGrows(done: seq<Record>, files: seq<EventFile>, since: int)
    requires done <= ReadRecords(files, since)
    ensures Distinct(Window(done, since)) <= Qualifying(files, since)
  {
    var rest := ReadRecords(files, since)[|done|..];
    assert ReadRecords(files, since) == done + rest;
    WindowConcat(done, rest, since);
    DistinctGrows(Window(done, since), Window(rest, since));
  }

  function Take(records: seq<Record>, limit: nat): seq<Record> {
    if |records| <= limit then records else records[..limit]
  }

  lemma OneFile(files: seq<EventFile>, i: nat, since: int)
    requires i < |files|
    ensures ReadRecords(files[..i + 1], since) == ReadRecords(files[..i], since) + if IsRead(files[i],
        since) then files[i].records else []
  {
    assert files[..i + 1] == files[..i] + [files[i]];
    Last(files[..i], files[i]);
  }

  /** What one more record changes. */
  lemma OneRecord(done: seq<Record>, r: Record, since: int)
    ensures var had := Window(done, since);
            var window := Window(done + [r], since);
            && (!InWindow(r, since) ==> window == had)
            && (InWindow(r, since) ==>
                  && Keys(window) == Keys(had) + (if r.key.Some? then {r.key.value} else {})
                  && Distinct(window) == Distinct(had) + if r.key.Some? && r.key.value in Keys(had) then [] else [r])
  {
    Last(done, r);
    Last(Window(done, since), r);
    KeysOfMore(Window(done, since), r);
  }

  /** _collect_recent_journal_events: the first `maxRecords` distinct records of the window over the rotations
      that are read, in order of time, and whether there were more. */
  method CollectRecentEvents(files: seq<EventFile>, maxRecords: int, since: int) returns (events: seq<Record>,
      capped: bool)
    ensures maxRecords <= 0 ==> events == [] && (capped <==> files != [])
    ensures maxRecords > 0 ==> events == SortByTime(Take(Qualifying(files, since), maxRecords))
    ensures maxRecords > 0 ==> (capped <==> |Qualifying(files, since)| > maxRecords)
  {
    if maxRecords <= 0 {
      return [], files != [];
    }
    var records: seq<Record> := [];
    var seen: set<EventKey> := {};
    for i := 0 to |files|
      invariant ReadSoFar(records, seen, ReadRecords(files[..i], since), since) && |records| <= maxRecords
    {
      ghost var before := ReadRecords(files[..i], since);
      OneFile(files, i, since);
      if files[i].modifiedAt.None? || Stale(files[i], since) {
        assert before + [] == before;
        continue;
      }
      var full;
      records, seen, full := ReadFile(records, seen, files[i].records, maxRecords, since, before);
      if full {
        ReadRecordsGrow(files, since, i + 1);
        QualifyingGrows(before + files[i].records, files, since);
        DeduplicatedPrefix(records, Qualifying(files, since), maxRecords);
        events := DeduplicateAndSort(records);
        return events, true;
      }
    }
    assert files[..|files|] == files;
    DistinctHasNoRepeats(Window(ReadRecords(files, since), since));
    DistinctOfDistinct(records);
    events := DeduplicateAndSort(records);
    capped := false;
  }

  /** `records` and `seen` are what reading `done` leaves. */
  predicate ReadSoFar(records: seq<Record>, seen: set<EventKey>, done: seq<Record>, since: int) {
    records == Distinct(Window(done, since)) && seen == Keys(Window(done, since))
  }

  predicate IsNew(r: Record, seen: set<EventKey>, since: int) {
    InWindow(r, since) && !(r.key.Some? && r.key.value in seen)
  }

  lemma ReadOne(records: seq<Record>, seen: set<EventKey>, done: seq<Record>, r: Record, since: int)
    requires ReadSoFar(records, seen, done, since)
    ensures if IsNew(r, seen, since)
            then ReadSoFar(records + [r], if r.key.Some? then seen + {r.key.value} else seen, done + [r], since)
            else ReadSoFar(records, seen, done + [r], since)
  {
    OneRecord(done, r, since);
  }

  /** The budget is spent, and `done` holds a distinct record more. */
  predicate CutShort(records: seq<Record>, limit: nat, done: seq<Record>, since: int) {
    |records| == limit && records < Distinct(Window(done, since))
  }

  /** One record of a rotation. */
  method ReadRecord(records: seq<Record>, seen: set<EventKey>, record: Record, limit: nat, since: int,
      ghost done: seq<Record>)
    returns (after: seq<Record>, seenAfter: set<EventKey>, full: bool)
    requires ReadSoFar(records, seen, done, since) && |records| <= limit
    ensures |after| <= limit
    ensures !full ==> ReadSoFar(after, seenAfter, done + [record], since)
    ensures full ==> CutShort(after, limit, done + [record], since)
  {
    after, seenAfter, full := records, seen, false;
    ReadOne(records, seen, done, record, since);
    if IsNew(record, seen, since) {
      if record.key.Some? {
        seenAfter := seen + {record.key.value};
      }
      if |records| >= limit {
        full := true;
      } else {
        after := records + [record];
      }
    }
  }

  /** The records of one rotation; full means one more distinct record was found than the budget holds. */
  method ReadFile(records: seq<Record>, seen: set<EventKey>, file: seq<Record>, limit: nat, since: int,
      ghost before: seq<Record>)
    returns (after: seq<Record>, seenAfter: set<EventKey>, full: bool)
    requires ReadSoFar(records, seen, before, since) && |records| <= limit
    ensures |after| <= limit
    ensures !full ==> ReadSoFar(after, seenAfter, before + file, since)
    ensures full ==> CutShort(after, limit, before + file, since)
  {
    after, seenAfter, full := records, seen, false;
    ghost var done := before;
    for i := 0 to |file|
      invariant done == before + file[..i] && |after| <= limit
      invariant !full && ReadSoFar(after, seenAfter, done, since)
    {
      after, seenAfter, full := ReadRecord(after, seenAfter, file[i], limit, since, done);
      done := done + [file[i]];
      if full {
        OneMore(before, file, i + 1, since);
        assert done == before + file[..i + 1];
        return;
      }
    }
    assert done == before + file;
  }

  lemma OneMore(before: seq<Record>, file: seq<Record>, n: nat, since: int)
    requires n <= |file|
    ensures Distinct(Window(before + file[..n], since)) <= Distinct(Window(before + file, since))
  {
    assert before + file == (before + file[..n]) + file[n..];
    WindowConcat(before + file[..n], file[n..], since);
    DistinctGrows(Window(before + file[..n], since), Window(file[n..], since));
  }

  lemma DeduplicatedPrefix(records: seq<Record>, all: seq<Record>, limit: nat)
    requires exists source :: all == Distinct(source)
    requires |records| == limit && records < all
    ensures Distinct(records) == records == Take(all, limit)
  {
    var source :| all == Distinct(source);
    DistinctHasNoRepeats(source);
    assert NoRepeats(records);
    DistinctOfDistinct(records);
  }
}
