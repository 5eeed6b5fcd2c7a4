/** Chunk planning of a large close. */
module CloseChunks {
  import opened Domain

  /** Venues whose reduce-only closes are exempt from the minimum notional. */
  predicate ExemptsMinNotional(venue: Venue) {
    venue == Aster || venue == Binance || venue == Gate
  }

  function Total(chunks: seq<real>): real {
    if chunks == [] then 0.0 else Total(chunks[..|chunks| - 1]) + chunks[|chunks| - 1]
  }

  /** n equal parts of a quantity stay within the cap on the dearer leg. */
  predicate Fits(total: real, n: nat, price: real, cap: real) {
    n > 0 && total / n as real * price <= cap
  }

  /** The number of chunks is the least that fits. */
  predicate LeastFitting(n: nat, total: real, price: real, cap: real) {
    Fits(total, n, price, cap) && forall m: nat :: m < n ==> !Fits(total, m, price, cap)
  }

  lemma DivideBound(a: real, b: real, k: real)
    requires b > 0.0
    ensures a / b * b == a
    ensures a / b <= k <==> a <= k * b
    ensures a / b < k <==> a < k * b
  {
    var q := a / b;
    assert q * b == a;
    assert q < k ==> q * b < k * b;
    assert q > k ==> q * b > k * b;
  }

  lemma FitsIffEnough(total: real, n: nat, price: real, cap: real)
    requires total > 0.0 && price > 0.0 && cap > 0.0 && n > 0
    ensures Fits(total, n, price, cap) <==> total * price / cap <= n as real
  {
    assert total / n as real * price == total * price / n as real;
    DivideBound(total * price, n as real, cap);
    DivideBound(total * price, cap, n as real);
  }

  lemma CeilIsLeastFitting(total: real, price: real, cap: real)
    requires total > 0.0 && price > 0.0 && cap > 0.0
    ensures Ceil(total * price / cap) > 0
    ensures LeastFitting(Ceil(total * price / cap), total, price, cap)
  {
    var n := Ceil(total * price / cap);
    assert total * price / cap > 0.0;
    FitsIffEnough(total, n, price, cap);
    forall m: nat | m < n
      ensures !Fits(total, m, price, cap)
    {
      if m > 0 {
        FitsIffEnough(total, m, price, cap);
      }
    }
  }

  /** The count the minimum notional would prefer never survives the cap: fewer chunks exceed the cap, and
      the cap check then restores the original count. */
  lemma MinNotionalNeverChangesCount(total: real, price: real, cap: real, minAllowed: real, n: nat)
    requires total > 0.0 && price > 0.0 && cap > 0.0 && minAllowed > 0.0
    requires total * price > cap && n == Ceil(total * price / cap)
    requires total / n as real < minAllowed
    ensures var fewer := (total / minAllowed).Floor;
            var count := if fewer < 1 then 1 else fewer;
            count as real * (cap / price) < total
    ensures Ceil(total / (cap / price)) == n
  {
    assert total / (cap / price) == total * price / cap;
    var x := total * price / cap;
    DivideBound(total * price, cap, 1.0);
    assert n >= 2;
    var fewer := (total / minAllowed).Floor;
    var k := n as real;
    DivideBound(total, k, minAllowed);
    DivideBound(total, minAllowed, k);
    var count := if fewer < 1 then 1 else fewer;
    assert count <= n - 1;
    assert count as real < x;
    assert x * (cap / price) == total;
    DivideBound(cap, price, 0.0);
    DivideBound(total, cap / price, count as real);
  }

  lemma OneChunk(total: real)
    ensures Total([total]) == total
  {
    assert [total][..0] == [];
  }

  lemma BothLegsWithinCap(c: real, longPrice: real, shortPrice: real, cap: real)
    requires c > 0.0 && c * Max(longPrice, shortPrice) <= cap
    ensures c * longPrice <= cap && c * shortPrice <= cap
  {
    assert c * longPrice <= c * Max(longPrice, shortPrice);
    assert c * shortPrice <= c * Max(longPrice, shortPrice);
  }

  /** Every chunk is an equal part, and none exceeds the cap on either leg. */
  predicate IsPlan(chunks: seq<real>, total: real, longPrice: real, shortPrice: real, cap: real) {
    && LeastFitting(|chunks|, total, Max(longPrice, shortPrice), cap)
    && forall c :: c in chunks ==> c * longPrice <= cap && c * shortPrice <= cap
  }

  /** compute_close_chunks. The minimum notionals and the venues have no influence on the result: none of
      them occurs in what is promised. */
  method ComputeCloseChunks(total: real, longPrice: real, shortPrice: real, cap: real,
      minLongNotional: real, minShortNotional: real, venues: Option<(Venue, Venue)>)
    returns (chunks: seq<real>)
    ensures total <= 0.0 ==> chunks == []
    ensures total > 0.0 ==> chunks != [] && Total(chunks) == total
    ensures forall c :: c in chunks ==> c == total / |chunks| as real && c > 0.0
    ensures total > 0.0 && (cap <= 0.0 || Max(longPrice, shortPrice) <= 0.0) ==> chunks == [total]
    ensures total > 0.0 && cap > 0.0 && Max(longPrice, shortPrice) > 0.0 ==>
        IsPlan(chunks, total, longPrice, shortPrice, cap)
  {
    if total <= 0.0 {
      return [];
    }
    OneChunk(total);
    var price := Max(longPrice, shortPrice);
    if cap <= 0.0 || price <= 0.0 {
      return [total];
    }
    if total * price <= cap {
      assert Fits(total, 1, price, cap);
      BothLegsWithinCap(total, longPrice, shortPrice, cap);
      return [total];
    }
    chunks := SplitChunks(total, longPrice, shortPrice, cap, minLongNotional, minShortNotional, venues);
  }

  method SplitChunks(total: real, longPrice: real, shortPrice: real, cap: real,
      minLongNotional: real, minShortNotional: real, venues: Option<(Venue, Venue)>)
    returns (chunks: seq<real>)
    requires total > 0.0 && cap > 0.0 && Max(longPrice, shortPrice) > 0.0
    requires total * Max(longPrice, shortPrice) > cap
    ensures chunks != [] && Total(chunks) == total
    ensures forall c :: c in chunks ==> c == total / |chunks| as real && c > 0.0
    ensures IsPlan(chunks, total, longPrice, shortPrice, cap)
  {
    var price := Max(longPrice, shortPrice);
    CeilIsLeastFitting(total, price, cap);
    var count: nat := Ceil(total * price / cap);
    if venues.Some? {
      var minAllowed := MinAllowed(longPrice, shortPrice, minLongNotional, minShortNotional, venues.value);
      count := RespectMinNotional(total, price, cap, minAllowed, count);
    }
    chunks := FillChunks(total, count);
    EqualPartsArePlanned(chunks, total, longPrice, shortPrice, cap);
  }

  lemma EqualPartsArePlanned(chunks: seq<real>, total: real, longPrice: real, shortPrice: real, cap: real)
    requires LeastFitting(|chunks|, total, Max(longPrice, shortPrice), cap)
    requires forall c :: c in chunks ==> c == total / |chunks| as real && c > 0.0
    ensures IsPlan(chunks, total, longPrice, shortPrice, cap)
  {
    forall c | c in chunks
      ensures c * longPrice <= cap && c * shortPrice <= cap
    {
      BothLegsWithinCap(c, longPrice, shortPrice, cap);
    }
  }

  /** The smallest quantity either leg may trade; legs exempt on reduce-only closes do not count. */
  function MinAllowed(longPrice: real, shortPrice: real, minLongNotional: real, minShortNotional: real,
      venues: (Venue, Venue)): real {
    Max(LegMinAllowed(longPrice, minLongNotional, venues.0), LegMinAllowed(shortPrice, minShortNotional, venues.1))
  }

  function LegMinAllowed(price: real, minNotional: real, venue: Venue): real {
    if minNotional > 0.0 && !ExemptsMinNotional(venue) && price > 0.0 then minNotional / price else 0.0
  }

  /** Falls back to fewer chunks when a chunk is below the minimum, unless that exceeds the cap:
      which it always does. */
  method RespectMinNotional(total: real, price: real, cap: real, minAllowed: real, planned: nat)
    returns (count: nat)
    requires total > 0.0 && cap > 0.0 && price > 0.0 && total * price > cap
    requires planned == Ceil(total * price / cap) > 0
    ensures count == planned
  {
    count := planned;
    if minAllowed > 0.0 && total / count as real < minAllowed {
      MinNotionalNeverChangesCount(total, price, cap, minAllowed, count);
      var fewer := (total / minAllowed).Floor;
      count := if fewer < 1 then 1 else fewer;
      DivideBound(cap, price, 0.0);
      var maxPerChunk := cap / price;
      if count as real * maxPerChunk < total {
        count := Ceil(total / maxPerChunk);
      }
    }
  }

  /** The chunk loop: equal parts, and whatever remains as the last. */
  method FillChunks(total: real, count: nat) returns (chunks: seq<real>)
    requires count > 0 && total > 0.0
    ensures |chunks| == count && Total(chunks) == total
    ensures forall c :: c in chunks ==> c == total / count as real && c > 0.0
  {
    chunks := [];
    var base := total / count as real;
    DivideBound(total, count as real, 0.0);
    var remaining := total;
    for i := 0 to count
      invariant |chunks| == i
      invariant forall c :: c in chunks ==> c == base
      invariant i < count ==> Total(chunks) == total - remaining && remaining == (count - i) as real * base
      invariant i == count ==> Total(chunks) == total
    {
      ghost var had := chunks;
      if i == count - 1 {
        chunks := chunks + [remaining];
      } else {
        chunks := chunks + [base];
        remaining := remaining - base;
        assert (count - i) as real * base - base == (count - i - 1) as real * base;
      }
      assert chunks[..|chunks| - 1] == had;
    }
  }
}
