/** The entry planner: how much of an entry the maker leg posts first, and how much is left to hedge. */
module ExecutionPlanner {
  import opened Domain

  datatype Reason =
    | TargetNotPositive
    | TargetBelowChunk
    | MakerClipExceedsTarget
    | MakerClipTooCloseToTarget
    | HedgeRemainderBelowMinNotional

  datatype Route = PassiveIncremental | FallbackToStandard | RejectedRoute

  datatype Plan = Plan(route: Route, full: real, initial: real, makerClip: Option<real>, reason: Option<Reason>)

  /** A chunk of zero makes the hedge branch divide by zero. */
  datatype PlanResult = Planned(plan: Plan) | DivisionByZero

  function Rejection(reason: Reason): PlanResult {
    Planned(Plan(RejectedRoute, 0.0, 0.0, None, Some(reason)))
  }

  // ---------------------------------------------------------------------------------------------
  // Grid arithmetic
  // ---------------------------------------------------------------------------------------------

  /** n chunks. */
  function Grid(n: int, chunk: real): real {
    n as real * chunk
  }

  lemma GridOrder(a: int, b: int, chunk: real)
    requires chunk > 0.0
    ensures a <= b <==> Grid(a, chunk) <= Grid(b, chunk)
    ensures Grid(a, chunk) - Grid(b, chunk) == Grid(a - b, chunk)
  {
    var d := (a - b) as real;
    assert d <= 0.0 ==> d * chunk <= 0.0;
    assert d > 0.0 ==> d * chunk > 0.0;
    assert Grid(a, chunk) - Grid(b, chunk) == d * chunk;
  }

  /** On a grid coarser than the tolerance, comparisons up to the tolerance are exact. */
  lemma GridTolerance(a: int, b: int, chunk: real)
    requires chunk > FLAT_EPS
    ensures Grid(a, chunk) >= Grid(b, chunk) - FLAT_EPS <==> a >= b
    ensures Grid(a, chunk) - Grid(b, chunk) >= FLAT_EPS <==> a > b
    ensures Grid(a, chunk) - Grid(b, chunk) <= FLAT_EPS <==> a <= b
  {
    GridOrder(a, b, chunk);
    var d := a - b;
    GridOrder(d, 1, chunk);
    GridOrder(d, -1, chunk);
    assert Grid(1, chunk) == chunk && Grid(-1, chunk) == -chunk;
    GridOrder(d, 0, chunk);
    assert Grid(0, chunk) == 0.0;
  }

  lemma Quotient(x: real, chunk: real)
    requires chunk > 0.0
    ensures Grid((x / chunk).Floor, chunk) <= x < Grid((x / chunk).Floor + 1, chunk)
    ensures Grid(Ceil(x / chunk) - 1, chunk) < x <= Grid(Ceil(x / chunk), chunk)
  {
    var q := x / chunk;
    assert q * chunk == x;
    QuotientBound(q, q.Floor, chunk);
    QuotientBound(q, q.Floor + 1, chunk);
    QuotientBound(q, Ceil(q), chunk);
    QuotientBound(q, Ceil(q) - 1, chunk);
  }

  lemma QuotientBound(q: real, n: int, chunk: real)
    requires chunk > 0.0
    ensures n as real <= q ==> Grid(n, chunk) <= q * chunk
    ensures n as real >= q ==> Grid(n, chunk) >= q * chunk
    ensures n as real < q ==> Grid(n, chunk) < q * chunk
    ensures n as real > q ==> Grid(n, chunk) > q * chunk
  {
    var d := n as real - q;
    assert d * chunk == Grid(n, chunk) - q * chunk;
    assert d > 0.0 ==> d * chunk > 0.0;
    assert d < 0.0 ==> d * chunk < 0.0;
  }

  lemma QuotientOfGrid(n: int, chunk: real)
    requires chunk > 0.0
    ensures (Grid(n, chunk) / chunk).Floor == n
  {
    Quotient(Grid(n, chunk), chunk);
    var f := (Grid(n, chunk) / chunk).Floor;
    GridOrder(f, n, chunk);
    GridOrder(f + 1, n, chunk);
  }

  // ---------------------------------------------------------------------------------------------
  // The aligned quantities
  // ---------------------------------------------------------------------------------------------

  function AlignDownToChunk(quantity: real, chunk: real): real {
    if quantity <= 0.0 then 0.0
    else if chunk <= FLAT_EPS then Max(quantity, 0.0)
    else if (quantity / chunk).Floor <= 0 then 0.0
    else Grid((quantity / chunk).Floor, chunk)
  }

  function AlignUpToStep(quantity: real, step: real): real {
    if quantity <= 0.0 then 0.0
    else if step <= QTY_EPS then quantity
    else Grid(Ceil(quantity / step), step)
  }

  /** Rounding down gives the greatest multiple that fits, rounding up the least that suffices. */
  lemma AlignmentIsTight(quantity: real, chunk: real, n: int)
    requires quantity > 0.0 && chunk > FLAT_EPS && n >= 0
    ensures Grid(n, chunk) <= quantity ==> Grid(n, chunk) <= AlignDownToChunk(quantity, chunk)
    ensures AlignDownToChunk(quantity, chunk) <= quantity
    ensures Grid(n, chunk) >= quantity ==> Grid(n, chunk) >= AlignUpToStep(quantity, chunk)
    ensures AlignUpToStep(quantity, chunk) >= quantity
  {
    Quotient(quantity, chunk);
    GridOrder(n, (quantity / chunk).Floor, chunk);
    GridOrder(n, (quantity / chunk).Floor + 1, chunk);
    GridOrder(n, Ceil(quantity / chunk), chunk);
    GridOrder(n, Ceil(quantity / chunk) - 1, chunk);
    GridOrder(0, n, chunk);
    assert Grid(0, chunk) == 0.0;
  }

  /** min_hedgeable_chunk_from_notional; None stands for its two exceptions. */
  function MinHedgeableChunk(minBase: real, minNotional: real, step: real, price: Option<real>): Option<real> {
    if minNotional > 0.0 && (price.None? || price.value <= 0.0) then None
    else
      var fromNotional := if minNotional > 0.0 then minNotional / price.value else 0.0;
      var chunk := AlignUpToStep(Max(Max(minBase, 0.0), fromNotional), Max(step, 0.0));
      if chunk <= FLAT_EPS then None else Some(chunk)
  }

  /** A hedgeable chunk meets the minimum quantity and the minimum notional. */
  lemma HedgeableChunkMeetsMinimums(minBase: real, minNotional: real, step: real, price: Option<real>)
    requires MinHedgeableChunk(minBase, minNotional, step, price).Some?
    ensures var chunk := MinHedgeableChunk(minBase, minNotional, step, price).value;
            && chunk > FLAT_EPS && chunk >= minBase
            && (minNotional > 0.0 ==> chunk * price.value >= minNotional)
  {
    var fromNotional := if minNotional > 0.0 then minNotional / price.value else 0.0;
    var raw := Max(Max(minBase, 0.0), fromNotional);
    if raw > 0.0 && Max(step, 0.0) > QTY_EPS {
      Quotient(raw, step);
    }
    var chunk := AlignUpToStep(raw, Max(step, 0.0));
    assert chunk >= raw;
    if minNotional > 0.0 {
      MeetsNotional(chunk, minNotional, price.value);
    }
  }

  /** A quantity the hedge venue may trade: on its step, and meeting both minimums. */
  ghost predicate Hedgeable(quantity: real, minBase: real, minNotional: real, step: real, price: Option<real>) {
    && quantity >= minBase && quantity >= 0.0
    && (minNotional > 0.0 ==> price.Some? && quantity * price.value >= minNotional)
    && (step > QTY_EPS ==> exists k :: quantity == Grid(k, step))
  }

  /** The chunk is the least quantity the hedge venue may trade. */
  lemma HedgeableChunkIsLeast(minBase: real, minNotional: real, step: real, price: Option<real>)
    requires MinHedgeableChunk(minBase, minNotional, step, price).Some?
    ensures var chunk := MinHedgeableChunk(minBase, minNotional, step, price).value;
            && Hedgeable(chunk, minBase, minNotional, step, price)
            && forall q :: Hedgeable(q, minBase, minNotional, step, price) ==> q >= chunk
  {
    HedgeableChunkMeetsMinimums(minBase, minNotional, step, price);
    var fromNotional := if minNotional > 0.0 then minNotional / price.value else 0.0;
    var raw := Max(Max(minBase, 0.0), fromNotional);
    var chunk := AlignUpToStep(raw, Max(step, 0.0));
    forall q | Hedgeable(q, minBase, minNotional, step, price)
      ensures q >= chunk
    {
      if minNotional > 0.0 {
        NotionalNeeds(q, minNotional, price.value);
      }
      assert q >= raw;
      if step > QTY_EPS && raw > 0.0 {
        var k :| q == Grid(k, step);
        Quotient(raw, step);
        GridOrder(k, Ceil(raw / step) - 1, step);
        GridOrder(Ceil(raw / step), k, step);
      }
    }
  }

  lemma NotionalNeeds(quantity: real, notional: real, price: real)
    requires price > 0.0 && quantity * price >= notional
    ensures quantity >= notional / price
  {
    var d := notional / price - quantity;
    assert d * price == notional - quantity * price;
    assert d > 0.0 ==> d * price > 0.0;
  }

  lemma MeetsNotional(quantity: real, notional: real, price: real)
    requires price > 0.0 && quantity >= notional / price
    ensures quantity * price >= notional
  {
    var d := quantity - notional / price;
    assert d * price >= 0.0;
    assert notional / price * price == notional;
  }

  function BoundedInitialTarget(target: real, sliceRatio: real): real {
    var t := Max(target, 0.0);
    if t <= FLAT_EPS || sliceRatio >= 1.0 - FLAT_EPS then t
    else
      var sliced := Max(t * sliceRatio, 0.0);
      if sliced <= FLAT_EPS || sliced >= t - FLAT_EPS then t else sliced
  }

  /** maker_min_valid_clip_quantity: the smallest part of the entry that meets a minimum notional. */
  function MinValidClip(minNotional: real, price: Option<real>, chunk: real, full: real): Option<real> {
    if minNotional <= 0.0 || price.None? || price.value <= 0.0 then None
    else
      var raw := minNotional / price.value;
      if raw <= FLAT_EPS then None
      else if chunk > FLAT_EPS then Some(Min(Grid(Ceil(raw / chunk), chunk), Max(full, raw)))
      else Some(raw)
  }

  /** A clip is a number of chunks within the target, or exceeds the target. */
  predicate ClipShape(clip: real, chunk: real, n: int, k: int) {
    (1 <= k <= n && clip == Grid(k, chunk)) || clip > Grid(n, chunk)
  }

  lemma ClipIsGridOrTooLarge(minNotional: real, price: Option<real>, chunk: real, n: int) returns (k: int)
    requires chunk > FLAT_EPS && n >= 1
    requires MinValidClip(minNotional, price, chunk, Grid(n, chunk)).Some?
    ensures ClipShape(MinValidClip(minNotional, price, chunk, Grid(n, chunk)).value, chunk, n, k)
    ensures MinValidClip(minNotional, price, chunk, Grid(n, chunk)).value >= minNotional / price.value > FLAT_EPS
  {
    var raw := minNotional / price.value;
    k := Ceil(raw / chunk);
    Quotient(raw, chunk);
    GridOrder(k, 0, chunk);
    assert Grid(0, chunk) == 0.0;
    GridOrder(k, n, chunk);
    GridOrder(n, k - 1, chunk);
  }

  // ---------------------------------------------------------------------------------------------
  // The split
  // ---------------------------------------------------------------------------------------------

  /** j chunks for the maker and the rest for the hedge, both large enough. */
  predicate IsSplit(j: int, n: int, chunk: real, makerClip: real, hedgeClip: real) {
    j >= 1 && Grid(j, chunk) >= makerClip && Grid(n, chunk) - Grid(j, chunk) >= hedgeClip
  }

  ghost predicate HasSplit(n: int, chunk: real, makerClip: real, hedgeClip: real) {
    exists j :: IsSplit(j, n, chunk, makerClip, hedgeClip)
  }

  /** The hedge branch comes to reduce the maker quantity, which divides by the chunk. */
  predicate MustReduce(full: real, initial: real, makerClip: real, hedgeClip: real) {
    var remainder := Max(full - initial, 0.0);
    if remainder <= FLAT_EPS then full - hedgeClip >= FLAT_EPS
    else remainder < hedgeClip - FLAT_EPS && full - hedgeClip >= makerClip - FLAT_EPS
  }

  /** The hedge branch: the initial maker quantity to use, or None to fall back. */
  function FitHedge(full: real, chunk: real, initial: real, makerClip: real, hedgeClip: real): Option<real>
    requires MustReduce(full, initial, makerClip, hedgeClip) ==> chunk != 0.0
  {
    var remainder := Max(full - initial, 0.0);
    if MustReduce(full, initial, makerClip, hedgeClip) then
      var reduced := Grid(((full - hedgeClip) / chunk).Floor, chunk);
      if remainder <= FLAT_EPS then
        if reduced >= makerClip - FLAT_EPS then Some(Max(reduced, 0.0)) else None
      else
        if reduced >= FLAT_EPS then Some(reduced) else None
    else if remainder <= FLAT_EPS || remainder < hedgeClip - FLAT_EPS then None
    else Some(initial)
  }

  /** The hedge branch finds a split exactly when there is one, when all clips are on the grid. */
  lemma FitHedgeOnGrid(n: int, chunk: real, i: int, k: int, h: int)
    requires chunk > FLAT_EPS && 1 <= i <= n && 0 <= k <= i && 1 <= h <= n
    ensures var fitted := FitHedge(Grid(n, chunk), chunk, Grid(i, chunk), Grid(k, chunk), Grid(h, chunk));
            && (fitted.Some? <==> HasSplit(n, chunk, Grid(k, chunk), Grid(h, chunk)))
            && (fitted.Some? ==>
              exists j :: fitted == Some(Grid(j, chunk)) && IsSplit(j, n, chunk, Grid(k, chunk), Grid(h, chunk)))
            && (IsSplit(i, n, chunk, Grid(k, chunk), Grid(h, chunk)) ==> fitted == Some(Grid(i, chunk)))
            && (!IsSplit(i, n, chunk, Grid(k, chunk), Grid(h, chunk)) && fitted.Some? ==>
                  forall j :: IsSplit(j, n, chunk, Grid(k, chunk), Grid(h, chunk)) ==> Grid(j, chunk) <= fitted.value)
  {
    var fitted := FitHedge(Grid(n, chunk), chunk, Grid(i, chunk), Grid(k, chunk), Grid(h, chunk));
    GridOrder(n, h, chunk);
    QuotientOfGrid(n - h, chunk);
    assert Grid(0, chunk) == 0.0;
    GridTolerance(n, i, chunk);
    GridTolerance(n, h, chunk);
    GridTolerance(n - h, k, chunk);
    GridTolerance(n - h, 0, chunk);
    GridOrder(n, i, chunk);
    GridTolerance(n - i, h, chunk);
    GridOrder(n - h, 0, chunk);
    SplitsOnGrid(n, chunk, k, h);
    var j := if n - i < h then n - h else i;
    IsSplitOnGrid(i, n, chunk, k, h);
    if n - h >= 1 && n - h >= k {
      assert fitted == Some(Grid(j, chunk));
      IsSplitOnGrid(j, n, chunk, k, h);
      forall m | IsSplit(m, n, chunk, Grid(k, chunk), Grid(h, chunk))
        ensures m <= n - h
        ensures Grid(m, chunk) <= Grid(n - h, chunk)
      {
        IsSplitOnGrid(m, n, chunk, k, h);
        GridOrder(m, n - h, chunk);
      }
    }
  }

  /** When a clip exceeds the target there is no split, and none is found. */
  lemma FitHedgeTooLarge(n: int, chunk: real, initial: real, makerClip: real, hedgeClip: real)
    requires chunk > FLAT_EPS && n >= 1 && hedgeClip > FLAT_EPS && makerClip >= 0.0
    requires (initial == makerClip > Grid(n, chunk)) || (hedgeClip > Grid(n, chunk) && initial >= chunk)
    ensures FitHedge(Grid(n, chunk), chunk, initial, makerClip, hedgeClip).None?
    ensures !HasSplit(n, chunk, makerClip, hedgeClip)
  {
    assert Grid(0, chunk) == 0.0;
    var room := Grid(n, chunk) - hedgeClip;
    Quotient(room, chunk);
    GridOrder(0, (room / chunk).Floor, chunk);
    forall j
      ensures !IsSplit(j, n, chunk, makerClip, hedgeClip)
    {
      GridOrder(0, j, chunk);
    }
  }

  /** What the planner has reached when it comes to the hedge branch. */
  ghost predicate ReadyForHedge(n: int, chunk: real, initial: real, makerClip: real, i: int, k: int) {
    && chunk > FLAT_EPS && n >= 1
    && ((1 <= i <= n && 0 <= k <= i && initial == Grid(i, chunk) && makerClip == Grid(k, chunk))
        || initial == makerClip > Grid(n, chunk))
  }

  /** The decision of the planner, relative to the splits that exist. */
  ghost predicate ExactDecision(fitted: Option<real>, n: int, chunk: real, initial: real, makerClip: real,
      hedgeClip: real) {
    && (fitted.Some? <==> HasSplit(n, chunk, makerClip, hedgeClip))
    && (fitted.Some? ==> exists j :: fitted == Some(Grid(j, chunk)) && IsSplit(j, n, chunk, makerClip, hedgeClip))
    && (forall i :: initial == Grid(i, chunk) && IsSplit(i, n, chunk, makerClip, hedgeClip) ==> fitted == Some(initial))
    && (fitted.Some? && fitted.value != initial ==>
          forall j :: IsSplit(j, n, chunk, makerClip, hedgeClip) ==> Grid(j, chunk) <= fitted.value)
  }

  lemma FitHedgeIsExact(n: int, chunk: real, initial: real, makerClip: real, hedgeClip: real, i: int, k: int, h: int)
    requires ReadyForHedge(n, chunk, initial, makerClip, i, k)
    requires ClipShape(hedgeClip, chunk, n, h) && hedgeClip > FLAT_EPS
    ensures ExactDecision(FitHedge(Grid(n, chunk), chunk, initial, makerClip, hedgeClip), n, chunk, initial, makerClip,
        hedgeClip)
  {
    GridOrder(0, n, chunk);
    assert Grid(0, chunk) == 0.0;
    if initial == makerClip > Grid(n, chunk) {
      FitHedgeTooLarge(n, chunk, initial, makerClip, hedgeClip);
    } else {
      GridOrder(0, k, chunk);
      GridOrder(1, i, chunk);
      assert Grid(1, chunk) == chunk;
      if hedgeClip > Grid(n, chunk) {
        FitHedgeTooLarge(n, chunk, initial, makerClip, hedgeClip);
      } else {
        FitHedgeOnGrid(n, chunk, i, k, h);
        forall m | initial == Grid(m, chunk)
          ensures m == i
        {
          GridOrder(m, i, chunk);
          GridOrder(i, m, chunk);
        }
      }
    }
  }

  /** Both parts of a split meet their minimum notionals. */
  lemma SplitMeetsNotionals(j: int, n: int, chunk: real, makerNotional: real, makerPrice: Option<real>,
      hedgeNotional: real, hedgePrice: Option<real>)
    requires chunk > FLAT_EPS && n >= 1
    requires var full := Grid(n, chunk);
             var maker := MinValidClip(makerNotional, makerPrice, chunk, full);
             var hedge := MinValidClip(hedgeNotional, hedgePrice, chunk, full);
             hedge.Some? && IsSplit(j, n, chunk, maker.GetOr(0.0), hedge.value)
    ensures MinValidClip(makerNotional, makerPrice, chunk, Grid(n, chunk)).Some? ==>
        Grid(j, chunk) * makerPrice.value >= makerNotional
    ensures (Grid(n, chunk) - Grid(j, chunk)) * hedgePrice.value >= hedgeNotional
  {
    var full := Grid(n, chunk);
    var _ := ClipIsGridOrTooLarge(hedgeNotional, hedgePrice, chunk, n);
    MeetsNotional(full - Grid(j, chunk), hedgeNotional, hedgePrice.value);
    if MinValidClip(makerNotional, makerPrice, chunk, full).Some? {
      var _ := ClipIsGridOrTooLarge(makerNotional, makerPrice, chunk, n);
      MeetsNotional(Grid(j, chunk), makerNotional, makerPrice.value);
    }
  }

  // ---------------------------------------------------------------------------------------------
  // The planner
  // ---------------------------------------------------------------------------------------------

  function EffectiveRatio(maxRatio: real): real {
    Min(if maxRatio > 0.0 then maxRatio else 0.8, 1.0)
  }

  /** Whole chunks of the bounded first slice, at least one. */
  function InitialChunks(n: int, chunk: real, sliceRatio: real): int
    requires chunk > FLAT_EPS
  {
    var i := (BoundedInitialTarget(Grid(n, chunk), sliceRatio) / chunk).Floor;
    if i <= 0 then 1 else i
  }

  /** The clip takes too large a share of the (positive) target. */
  predicate ClipTooClose(clip: real, full: real, maxRatio: real) {
    full > 0.0 && clip / full > EffectiveRatio(maxRatio) + FLAT_EPS
  }

  /** The first slice: whole chunks of the aligned target, or the bounded target itself without chunks. */
  function FirstSlice(target: real, chunk: real, sliceRatio: real): real {
    if chunk <= FLAT_EPS then BoundedInitialTarget(target, sliceRatio)
    else Grid(InitialChunks((target / chunk).Floor, chunk, sliceRatio), chunk)
  }

  lemma InitialChunksWithinTarget(n: int, chunk: real, sliceRatio: real)
    requires chunk > FLAT_EPS && n >= 1
    ensures 1 <= InitialChunks(n, chunk, sliceRatio) <= n
  {
    GridOrder(0, n, chunk);
    assert Grid(0, chunk) == 0.0;
    var bounded := BoundedInitialTarget(Grid(n, chunk), sliceRatio);
    assert bounded <= Grid(n, chunk);
    Quotient(bounded, chunk);
    GridOrder((bounded / chunk).Floor, n, chunk);
  }

  /** The target in whole chunks and its first slice; None when the target is less than one chunk. */
  method AlignTarget(target: real, chunk: real, sliceRatio: real) returns (aligned: Option<(real, real)>, ghost n: int,
      ghost i: int)
    requires target > FLAT_EPS
    ensures aligned.None? <==> chunk > FLAT_EPS && target < chunk
    ensures aligned.Some? ==>
        aligned.value == (AlignDownToChunk(target, chunk), FirstSlice(target, chunk, sliceRatio))
          && aligned.value.0 > 0.0
    ensures aligned.Some? && chunk > FLAT_EPS ==>
              && n == (target / chunk).Floor && 1 <= i <= n && i == InitialChunks(n, chunk, sliceRatio)
              && aligned.value == (Grid(n, chunk), Grid(i, chunk))
  {
    n, i := 0, 0;
    if chunk <= FLAT_EPS {
      return Some((Max(target, 0.0), BoundedInitialTarget(target, sliceRatio))), n, i;
    }
    var fullChunks := (target / chunk).Floor;
    ChunksInTarget(target, chunk);
    if fullChunks <= 0 {
      return None, n, i;
    }
    var full := Grid(fullChunks, chunk);
    var initialChunks := (BoundedInitialTarget(full, sliceRatio) / chunk).Floor;
    InitialChunksWithinTarget(fullChunks, chunk, sliceRatio);
    n, i := fullChunks, InitialChunks(fullChunks, chunk, sliceRatio);
    GridOrder(i, n, chunk);
    assert Grid(1, chunk) == chunk;
    aligned := Some((full, if initialChunks <= 0 then Min(chunk, full) else Min(Grid(initialChunks, chunk), full)));
  }

  /** What a plan decided once no maker test fired: an initial quantity, or to fall back. */
  function Decision(plan: Plan): Option<real> {
    if plan.route == PassiveIncremental then Some(plan.initial) else None
  }

  /** The plan of such a decision: passive with the quantity, or the first slice left to the standard route. */
  function SplitPlan(full: real, start: real, maker: Option<real>, decision: Option<real>): Plan {
    if decision.Some? then Plan(PassiveIncremental, full, decision.value, maker, None)
    else Plan(FallbackToStandard, full, start, maker, Some(HedgeRemainderBelowMinNotional))
  }

  /** plan_incremental_entry_execution. */
  method PlanIncrementalEntryExecution(target: real, sliceRatio: real, chunk: real,
      makerNotional: real, makerPrice: Option<real>, maxRatio: real, hedgeNotional: real, hedgePrice: Option<real>)
    returns (r: PlanResult)
    ensures target <= FLAT_EPS <==> r == Rejection(TargetNotPositive)
    ensures target > FLAT_EPS && chunk > FLAT_EPS && target < chunk <==> r == Rejection(TargetBelowChunk)
    ensures r.DivisionByZero? <==>
              && target > FLAT_EPS && chunk == 0.0
              && var maker := MinValidClip(makerNotional, makerPrice, chunk, target);
                 var hedge := MinValidClip(hedgeNotional, hedgePrice, chunk, target);
                 && !(maker.Some? && (maker.value > target + FLAT_EPS || ClipTooClose(maker.value, target, maxRatio)))
                 && hedge.Some?
                 && MustReduce(target, Max(BoundedInitialTarget(target, sliceRatio), maker.GetOr(0.0)),
                     maker.GetOr(0.0), hedge.value)
    ensures target > FLAT_EPS && !(chunk > FLAT_EPS && target < chunk) && r.Planned? ==>
              var full := AlignDownToChunk(target, chunk);
              var maker := MinValidClip(makerNotional, makerPrice, chunk, full);
              var hedge := MinValidClip(hedgeNotional, hedgePrice, chunk, full);
              var start := Max(FirstSlice(target, chunk, sliceRatio), maker.GetOr(0.0));
              if maker.Some? && maker.value > full + FLAT_EPS then
                r.plan == Plan(RejectedRoute, full, 0.0, maker, Some(MakerClipExceedsTarget))
              else if maker.Some? && ClipTooClose(maker.value, full, maxRatio) then
                r.plan == Plan(FallbackToStandard, full, maker.value, maker, Some(MakerClipTooCloseToTarget))
              else
                && r.plan == SplitPlan(full, start, maker, Decision(r.plan))
                && (hedge.None? ==> Decision(r.plan) == Some(start))
                && (hedge.Some? && chunk <= FLAT_EPS ==>
                      Decision(r.plan) == FitHedge(full, chunk, start, maker.GetOr(0.0), hedge.value))
                && (hedge.Some? && chunk > FLAT_EPS ==>
                      ExactDecision(Decision(r.plan), (target / chunk).Floor, chunk, start, maker.GetOr(0.0),
                          hedge.value))
  {
    if target <= FLAT_EPS {
      return Rejection(TargetNotPositive);
    }
    ghost var n, i;
    var aligned;
    aligned, n, i := AlignTarget(target, chunk, sliceRatio);
    if aligned.None? {
      return Rejection(TargetBelowChunk);
    }
    var (full, initial) := aligned.value;
    var maker := MinValidClip(makerNotional, makerPrice, chunk, full);
    ghost var k := 0;
    if chunk > FLAT_EPS && maker.Some? {
      k := ClipIsGridOrTooLarge(makerNotional, makerPrice, chunk, n);
    }
    if maker.Some? {
      if maker.value > full + FLAT_EPS {
        return Planned(Plan(RejectedRoute, full, 0.0, maker, Some(MakerClipExceedsTarget)));
      }
      if ClipTooClose(maker.value, full, maxRatio) {
        return Planned(Plan(FallbackToStandard, full, maker.value, maker, Some(MakerClipTooCloseToTarget)));
      }
      initial := Max(initial, maker.value);
    }
    if chunk > FLAT_EPS {
      ReadyAfterMakerClip(n, chunk, i, k, maker);
      i := if i < k then k else i;
    }
    r := PlanSplit(full, chunk, initial, maker, hedgeNotional, hedgePrice, n, i, k);
  }

  /** The hedge side of the plan, from the first slice. */
  method PlanSplit(full: real, chunk: real, start: real, maker: Option<real>, hedgeNotional: real,
      hedgePrice: Option<real>,
      ghost n: int, ghost i: int, ghost k: int)
    returns (r: PlanResult)
    requires chunk > FLAT_EPS ==> full == Grid(n, chunk) && ReadyForHedge(n, chunk, start, maker.GetOr(0.0), i, k)
    ensures var hedge := MinValidClip(hedgeNotional, hedgePrice, chunk, full);
            && (r.DivisionByZero? <==>
              chunk == 0.0 && hedge.Some? && MustReduce(full, start, maker.GetOr(0.0), hedge.value))
            && (r.Planned? ==>
                  && r.plan == SplitPlan(full, start, maker, Decision(r.plan))
                  && (hedge.None? ==> Decision(r.plan) == Some(start))
                  && (hedge.Some? && chunk <= FLAT_EPS ==>
                        Decision(r.plan) == FitHedge(full, chunk, start, maker.GetOr(0.0), hedge.value))
                  && (hedge.Some? && chunk > FLAT_EPS ==>
                        ExactDecision(Decision(r.plan), n, chunk, start, maker.GetOr(0.0), hedge.value)))
  {
    var initial := start;
    var hedge := MinValidClip(hedgeNotional, hedgePrice, chunk, full);
    if hedge.Some? {
      if chunk == 0.0 && MustReduce(full, initial, maker.GetOr(0.0), hedge.value) {
        return DivisionByZero;
      }
      var fitted := FitHedge(full, chunk, initial, maker.GetOr(0.0), hedge.value);
      if chunk > FLAT_EPS {
        ghost var h := ClipIsGridOrTooLarge(hedgeNotional, hedgePrice, chunk, n);
        FitHedgeIsExact(n, chunk, initial, maker.GetOr(0.0), hedge.value, i, k, h);
      }
      if fitted.None? {
        return Planned(Plan(FallbackToStandard, full, initial, maker, Some(HedgeRemainderBelowMinNotional)));
      }
      initial := fitted.value;
    }
    return Planned(Plan(PassiveIncremental, full, initial, maker, None));
  }

  lemma ChunksInTarget(target: real, chunk: real)
    requires chunk > FLAT_EPS && target > FLAT_EPS
    ensures (target / chunk).Floor <= 0 <==> target < chunk
    ensures target >= chunk ==> AlignDownToChunk(target, chunk) == Grid((target / chunk).Floor, chunk) > 0.0
  {
    var f := (target / chunk).Floor;
    Quotient(target, chunk);
    GridOrder(1, f, chunk);
    GridOrder(f + 1, 1, chunk);
    GridOrder(f, 0, chunk);
    assert Grid(1, chunk) == chunk && Grid(0, chunk) == 0.0;
  }

  /** The first slice, raised to the maker clip, is still a number of chunks, or the clip exceeds the target. */
  lemma ReadyAfterMakerClip(n: int, chunk: real, i: int, k: int, maker: Option<real>)
    requires chunk > FLAT_EPS && 1 <= i <= n
    requires maker.None? ==> k == 0
    requires maker.Some? ==> ClipShape(maker.value, chunk, n, k)
    ensures ReadyForHedge(n, chunk, Max(Grid(i, chunk), maker.GetOr(0.0)), maker.GetOr(0.0), if i < k then k else i, k)
  {
    assert Grid(0, chunk) == 0.0;
    GridOrder(i, k, chunk);
    GridOrder(i, n, chunk);
    GridOrder(0, i, chunk);
  }

  lemma IsSplitOnGrid(j: int, n: int, chunk: real, k: int, h: int)
    requires chunk > FLAT_EPS
    ensures IsSplit(j, n, chunk, Grid(k, chunk), Grid(h, chunk)) <==> j >= 1 && j >= k && n - j >= h
  {
    GridOrder(k, j, chunk);
    GridOrder(n, j, chunk);
    GridOrder(h, n - j, chunk);
  }

  lemma SplitsOnGrid(n: int, chunk: real, k: int, h: int)
    requires chunk > FLAT_EPS
    ensures HasSplit(n, chunk, Grid(k, chunk), Grid(h, chunk)) <==> n - h >= 1 && n - h >= k
  {
    IsSplitOnGrid(n - h, n, chunk, k, h);
    forall j | IsSplit(j, n, chunk, Grid(k, chunk), Grid(h, chunk))
      ensures n - h >= 1 && n - h >= k
    {
      IsSplitOnGrid(j, n, chunk, k, h);
    }
  }
}
