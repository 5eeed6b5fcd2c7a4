/** The symbols of the day: the most liquid ones over all venue pairs that may be traded. */
module UniverseSelection {
  import opened Domain
  import opened Ordering

  /** Volume and open interest in quote currency; None stands for a number that is not finite. */
  datatype Row = Row(volume: Option<real>, interest: Option<real>)

  /** Public market rows by venue (lower case) and symbol (upper case), and the floors for entering. */
  datatype Market = Market(
    rows: map<string, map<string, Row>>,
    volumeFloors: map<string, real>,
    volumeFloor: real,
    interestFloors: map<string, real>,
    interestFloor: real)
  {
    function VolumeFloor(venue: string): real {
      if venue in volumeFloors then volumeFloors[venue] else volumeFloor
    }

    function InterestFloor(venue: string): real {
      if venue in interestFloors then interestFloors[venue] else interestFloor
    }
  }

  /** A direction of trade; no symbols means every symbol. */
  datatype Pair = Pair(long: string, short: string, symbols: seq<string>)

  datatype Score = Score(volume: real, interest: real)

  const NOTHING: Score := Score(-1.0, -1.0)

  datatype Item = Item(symbol: string, score: Score)

  predicate Above(a: Score, b: Score) {
    a.volume > b.volume || (a.volume == b.volume && a.interest > b.interest)
  }

  /** Higher scores first, then symbols in order. */
  predicate ItemLeq(a: Item, b: Item) {
    Above(a.score, b.score) || (a.score == b.score && TextLeq(a.symbol, b.symbol))
  }

  lemma ItemOrder()
    ensures TotalOrder(ItemLeq)
  {
    forall a: Item, b: Item, c: Item
      ensures ItemLeq(a, b) || ItemLeq(b, a)
      ensures ItemLeq(a, b) && ItemLeq(b, a) ==> a == b
      ensures ItemLeq(a, b) && ItemLeq(b, c) ==> ItemLeq(a, c)
    {
      TextOrderFacts(a.symbol, b.symbol, c.symbol);
    }
  }

  // ---------------------------------------------------------------------------------------------
  // Pairs
  // ---------------------------------------------------------------------------------------------

  function Uppered(symbols: seq<string>): (r: seq<string>)
    ensures |r| == |symbols|
  {
    seq(|symbols|, i requires 0 <= i < |symbols| => Upper(symbols[i]))
  }

  function Once(venues: seq<string>): (r: seq<string>)
    ensures forall v :: v in r <==> exists i :: 0 <= i < |venues| && v == Lower(venues[i])
  {
    if venues == [] then []
    else
      var init, last := Once(venues[..|venues| - 1]), Lower(venues[|venues| - 1]);
      if last in init then init else init + [last]
  }

  function PairsOf(long: string, shorts: seq<string>): (r: seq<Pair>)
    ensures forall p :: p in r <==> p.long == long && p.short in shorts && p.short != long && p.symbols == []
  {
    if shorts == [] then []
    else (if shorts[0] != long then [Pair(long, shorts[0], [])] else []) + PairsOf(long, shorts[1..])
  }

  function AllPairs(longs: seq<string>, shorts: seq<string>): (r: seq<Pair>)
    ensures forall p :: p in r <==> p.long in longs && p.short in shorts && p.short != p.long && p.symbols == []
  {
    if longs == [] then [] else PairsOf(longs[0], shorts) + AllPairs(longs[1..], shorts)
  }

  /** _directed_pairs_or_all. */
  function DirectedPairsOrAll(directed: seq<Pair>, venues: seq<string>): seq<Pair> {
    if directed != [] then
      seq(|directed|, i requires 0 <= i < |directed| =>
        Pair(Lower(directed[i].long), Lower(directed[i].short), directed[i].symbols))
    else AllPairs(Once(venues), Once(venues))
  }

  predicate Usable(m: Market, p: Pair) {
    p.long in m.rows && p.short in m.rows
  }

  /** The score of a symbol on one pair, if both legs have it and clear their floors. */
  function ScoreOf(m: Market, p: Pair, symbol: string): Option<Score> {
    if !Usable(m, p) || (p.symbols != [] && symbol !in Uppered(p.symbols)) then None
    else if symbol !in m.rows[p.long] || symbol !in m.rows[p.short] then None
    else Combined(m, p, m.rows[p.long][symbol], m.rows[p.short][symbol])
  }

  function Combined(m: Market, p: Pair, long: Row, short: Row): Option<Score> {
    if long.volume.None? || short.volume.None? || long.interest.None? || short.interest.None? then None
    else if long.volume.value < m.VolumeFloor(p.long) || short.volume.value < m.VolumeFloor(p.short)
            || long.interest.value < m.InterestFloor(p.long)
              || short.interest.value < m.InterestFloor(p.short) then None
    else Some(Score(Min(long.volume.value, short.volume.value), Min(long.interest.value, short.interest.value)))
  }

  // ---------------------------------------------------------------------------------------------
  // The best score of a symbol
  // ---------------------------------------------------------------------------------------------

  function Better(best: Option<Score>, other: Option<Score>): Option<Score> {
    if other.Some? && Above(other.value, best.GetOr(NOTHING)) then other else best
  }

  function Best(m: Market, pairs: seq<Pair>, symbol: string): Option<Score> {
    if pairs == [] then None
    else Better(Best(m, pairs[..|pairs| - 1], symbol), ScoreOf(m, pairs[|pairs| - 1], symbol))
  }

  /** The highest score over all pairs, above nothing at all. */
  predicate IsBest(m: Market, pairs: seq<Pair>, symbol: string, score: Score) {
    && Above(score, NOTHING)
    && (exists p :: p in pairs && ScoreOf(m, p, symbol) == Some(score))
    && (forall p :: p in pairs && ScoreOf(m, p, symbol).Some? ==> !Above(ScoreOf(m, p, symbol).value, score))
  }

  lemma {:induction false} BestIsHighest(m: Market, pairs: seq<Pair>, symbol: string)
    ensures Best(m, pairs, symbol).Some? ==> IsBest(m, pairs, symbol, Best(m, pairs, symbol).value)
    ensures Best(m, pairs, symbol).None? ==>
              forall p :: p in pairs && ScoreOf(m, p, symbol).Some? ==> !Above(ScoreOf(m, p, symbol).value, NOTHING)
  {
    if pairs != [] {
      var init, last := pairs[..|pairs| - 1], pairs[|pairs| - 1];
      assert pairs == init + [last];
      BestIsHighest(m, init, symbol);
      assert forall p :: p in pairs <==> p in init || p == last;
    }
  }

  lemma BestIsIt(m: Market, pairs: seq<Pair>, symbol: string, score: Score)
    ensures Best(m, pairs, symbol) == Some(score) <==> IsBest(m, pairs, symbol, score)
  {
    BestIsHighest(m, pairs, symbol);
  }

  predicate SamePairs(a: seq<Pair>, b: seq<Pair>) {
    (forall p :: p in a ==> p in b) && (forall p :: p in b ==> p in a)
  }

  lemma BestIgnoresOrder(m: Market, a: seq<Pair>, b: seq<Pair>, symbol: string)
    requires SamePairs(a, b)
    ensures Best(m, a, symbol) == Best(m, b, symbol)
  {
    BestIsHighest(m, a, symbol);
    BestIsHighest(m, b, symbol);
  }

  /** With floors that are not negative, every symbol that clears them somewhere is scored. */
  lemma EveryQualifierIsScored(m: Market, pairs: seq<Pair>, symbol: string)
    requires forall v :: m.VolumeFloor(v) >= 0.0 && m.InterestFloor(v) >= 0.0
    ensures Best(m, pairs, symbol).Some? <==> exists p :: p in pairs && ScoreOf(m, p, symbol).Some?
  {
    BestIsHighest(m, pairs, symbol);
    forall p | p in pairs && ScoreOf(m, p, symbol).Some?
      ensures Above(ScoreOf(m, p, symbol).value, NOTHING)
    {
      assert m.VolumeFloor(p.long) >= 0.0 && m.VolumeFloor(p.short) >= 0.0;
    }
  }

  // ---------------------------------------------------------------------------------------------
  // Selection
  // ---------------------------------------------------------------------------------------------

  /** The symbols of the source that were scored, with their best scores. */
  function Items(m: Market, pairs: seq<Pair>, source: seq<string>): set<Item> {
    set s | s in Uppered(source) && Best(m, pairs, s).Some? :: Item(s, Best(m, pairs, s).value)
  }

  function Symbols(items: seq<Item>): (r: seq<string>)
    ensures |r| == |items|
    ensures forall i :: 0 <= i < |items| ==> r[i] == items[i].symbol
  {
    seq(|items|, i requires 0 <= i < |items| => items[i].symbol)
  }

  /** `symbols` is the head of the one ranking of all scored symbols. */
  ghost predicate IsSelection(m: Market, pairs: seq<Pair>, source: seq<string>, limit: int, symbols: seq<string>) {
    exists ranking :: Arranges(ranking, Items(m, pairs, source), ItemLeq) && symbols == Symbols(UpTo(ranking, limit))
  }

  datatype Selection = Selected(symbols: seq<string>) | NoUsablePair

  /** _select_daily_universe_symbols. */
  method SelectDailyUniverse(source: seq<string>, directed: seq<Pair>, venues: seq<string>, m: Market, limit: int)
    returns (r: Selection)
    ensures var pairs := DirectedPairsOrAll(directed, venues);
            if pairs == [] then r == Selected(UpTo(source, limit))
            else if forall p :: p in pairs ==> !Usable(m, p) then r == NoUsablePair
            else r.Selected? && IsSelection(m, pairs, source, limit, r.symbols)
  {
    var pairs := DirectedPairsOrAll(directed, venues);
    if pairs == [] {
      return Selected(UpTo(source, limit));
    }
    var canonical := Uppered(source);
    var scored: map<string, Score> := map[];
    var usable := 0;
    for i := 0 to |pairs|
      invariant ScoredBy(scored, m, pairs[..i], canonical)
      invariant usable >= 0 && (usable == 0 <==> forall p :: p in pairs[..i] ==> !Usable(m, p))
    {
      var p := pairs[i];
      assert pairs[..i + 1] == pairs[..i] + [p];
      assert pairs[..i + 1][..i] == pairs[..i];
      if !Usable(m, p) {
        continue;
      }
      usable := usable + 1;
      scored := ScorePair(scored, m, pairs[..i], p, canonical);
    }
    assert pairs[..|pairs|] == pairs;
    if usable == 0 {
      return NoUsablePair;
    }
    var items := set s | s in scored :: Item(s, scored[s]);
    assert items == Items(m, pairs, source);
    ItemOrder();
    var ranked := SortSet(items, ItemLeq);
    r := Selected(Symbols(UpTo(ranked, limit)));
  }

  ghost predicate ScoredBy(scored: map<string, Score>, m: Market, pairs: seq<Pair>, canonical: seq<string>) {
    && (forall s :: s in scored <==> s in canonical && Best(m, pairs, s).Some?)
    && (forall s :: s in scored ==> Best(m, pairs, s) == Some(scored[s]))
  }

  function Get(scored: map<string, Score>, symbol: string): Option<Score> {
    if symbol in scored then Some(scored[symbol]) else None
  }

  /** The inner loop: one pair, over the symbols it allows. */
  method ScorePair(before: map<string, Score>, m: Market, ghost done: seq<Pair>, p: Pair, canonical: seq<string>)
    returns (scored: map<string, Score>)
    requires ScoredBy(before, m, done, canonical) && Usable(m, p)
    ensures ScoredBy(scored, m, done + [p], canonical)
  {
    scored := before;
    var allowed := if p.symbols != [] then Uppered(p.symbols) else canonical;
    for j := 0 to |allowed|
      invariant forall s :: Get(scored, s) == if s in canonical && s in allowed[..j]
                                              then Better(Get(before, s), ScoreOf(m, p, s)) else Get(before, s)
    {
      var s := allowed[j];
      assert allowed[..j + 1] == allowed[..j] + [s];
      if s !in canonical || s !in m.rows[p.long] || s !in m.rows[p.short] {
        continue;
      }
      var score := Combined(m, p, m.rows[p.long][s], m.rows[p.short][s]);
      assert score == ScoreOf(m, p, s);
      if score.Some? && Above(score.value, Get(scored, s).GetOr(NOTHING)) {
        scored := scored[s := score.value];
      }
    }
    assert (done + [p])[..|done|] == done;
    assert allowed[..|allowed|] == allowed;
    ScoredWithOneMore(before, scored, m, done, p, canonical, allowed);
  }

  lemma ScoredWithOneMore(before: map<string, Score>, scored: map<string, Score>, m: Market, done: seq<Pair>, p: Pair,
                          canonical: seq<string>, allowed: seq<string>)
    requires ScoredBy(before, m, done, canonical)
    requires allowed == if p.symbols != [] then Uppered(p.symbols) else canonical
    requires forall s :: Get(scored, s) == if s in canonical && s in allowed
                                           then Better(Get(before, s), ScoreOf(m, p, s)) else Get(before, s)
    ensures ScoredBy(scored, m, done + [p], canonical)
  {
    forall s
      ensures Get(scored, s) == if s in canonical then Best(m, done + [p], s) else None
    {
      assert (done + [p])[..|done|] == done;
      assert Get(before, s) == if s in canonical then Best(m, done, s) else None;
      assert s in canonical && s !in allowed ==> ScoreOf(m, p, s) == None;
    }
    forall s
      ensures s in scored <==> s in canonical && Best(m, done + [p], s).Some?
      ensures s in scored ==> Best(m, done + [p], s) == Some(scored[s])
    {
      assert s in scored <==> Get(scored, s).Some?;
    }
  }

  // ---------------------------------------------------------------------------------------------
  // What the selection is
  // ---------------------------------------------------------------------------------------------

  /** Symbol a goes before symbol b. */
  predicate Outranks(m: Market, pairs: seq<Pair>, a: string, b: string) {
    && Best(m, pairs, a).Some? && Best(m, pairs, b).Some?
    && a != b && ItemLeq(Item(a, Best(m, pairs, a).value), Item(b, Best(m, pairs, b).value))
  }

  predicate Scored(m: Market, pairs: seq<Pair>, source: seq<string>, s: string) {
    s in Uppered(source) && Best(m, pairs, s).Some?
  }

  /** The chosen symbols are in strict order, are scored, and outrank every scored symbol that was not chosen. */
  lemma SelectionIsTop(m: Market, pairs: seq<Pair>, source: seq<string>, limit: nat, symbols: seq<string>)
    requires IsSelection(m, pairs, source, limit, symbols)
    ensures forall i, j :: 0 <= i < j < |symbols| ==> Outranks(m, pairs, symbols[i], symbols[j])
    ensures forall s :: s in symbols ==> Scored(m, pairs, source, s)
    ensures forall s, t :: s in symbols && Scored(m, pairs, source, t) && t !in symbols ==> Outranks(m, pairs, s, t)
    ensures |symbols| <= limit
    ensures |symbols| < limit ==> forall t :: Scored(m, pairs, source, t) ==> t in symbols
  {
    var items := Items(m, pairs, source);
    var ranking: seq<Item> :| Arranges(ranking, items, ItemLeq) && symbols == Symbols(UpTo(ranking, limit));
    forall i | 0 <= i < |ranking|
      ensures ranking[i] == Item(ranking[i].symbol, Best(m, pairs, ranking[i].symbol).GetOr(NOTHING))
      ensures Scored(m, pairs, source, ranking[i].symbol)
    {
      assert ranking[i] in items;
    }
    forall i, j | 0 <= i < j < |ranking|
      ensures Outranks(m, pairs, ranking[i].symbol, ranking[j].symbol)
    {
    }
    forall t | Scored(m, pairs, source, t)
      ensures exists j :: 0 <= j < |ranking| && ranking[j].symbol == t
    {
      assert Item(t, Best(m, pairs, t).value) in items;
      assert Item(t, Best(m, pairs, t).value) in ranking;
    }
    forall t | Scored(m, pairs, source, t) && t !in symbols
      ensures |symbols| == limit && forall s :: s in symbols ==> Outranks(m, pairs, s, t)
    {
      var j :| 0 <= j < |ranking| && ranking[j].symbol == t;
      assert j >= |symbols|;
    }
  }

  /** The order of the pairs, and repeats among them, do not matter; nor does the order of the source. */
  lemma SelectionIgnoresOrder(m: Market, a: seq<Pair>, b: seq<Pair>, sourceA: seq<string>, sourceB: seq<string>,
      limit: int,
                              x: seq<string>, y: seq<string>)
    requires SamePairs(a, b)
    requires forall s :: s in Uppered(sourceA) <==> s in Uppered(sourceB)
    requires IsSelection(m, a, sourceA, limit, x) && IsSelection(m, b, sourceB, limit, y)
    ensures x == y
  {
    forall s
      ensures Best(m, a, s) == Best(m, b, s)
    {
      BestIgnoresOrder(m, a, b, s);
    }
    assert Items(m, a, sourceA) == Items(m, b, sourceB);
    var p: seq<Item> :| Arranges(p, Items(m, a, sourceA), ItemLeq) && x == Symbols(UpTo(p, limit));
    var q: seq<Item> :| Arranges(q, Items(m, b, sourceB), ItemLeq) && y == Symbols(UpTo(q, limit));
    ItemOrder();
    ArrangementIsUnique(p, q, Items(m, a, sourceA), ItemLeq);
  }
}
