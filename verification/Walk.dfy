/** How a resting order's limit is walked toward the book, under its floor.

    Prices are whole hundredths of a dollar - the broker quotes in cents and every
    step is rounded to one; times are whole nanoseconds. A larger price gives up more:
    a credit is negative. */
module Walk {
  import opened Payoff
  import opened Contracts
  import opened Reservation
  import opened Orders

  datatype Stride = ByTick | ToArrive

  datatype Config = Config(every: int, patience: int, step: real, stride: Stride)

  /** What the ladder demands before it runs. */
  predicate Runnable(c: Config) {
    c.every > 0 && c.patience > 0 && c.step > 0.0
  }

  // ---------- what the book shows ----------

  datatype Quote = Quote(bid: real, ask: real)

  /** Quotes in hundredths, as the order's prices are. */
  type Quotes = map<Symbol, Quote>

  /** How many of the leg go into one set. */
  function RatioOf(leg: OrderLeg): real {
    if leg.ratio > 0.0 then leg.ratio else if leg.quantity > 0.0 then leg.quantity else 1.0
  }

  predicate TwoSided(legs: seq<OrderLeg>, quotes: Quotes) {
    forall leg :: leg in legs ==> leg.symbol in quotes && quotes[leg.symbol].bid > 0.0 && quotes[leg.symbol].ask > 0.0
  }

  /** Every leg sold at its bid, every leg bought at its ask. */
  function Total(legs: seq<OrderLeg>, quotes: Quotes): real
    requires TwoSided(legs, quotes)
  {
    if legs == [] then 0.0
    else
      var last := legs[|legs| - 1];
      Total(legs[..|legs| - 1], quotes) + LegPrice(last, quotes[last.symbol])
  }

  function LegPrice(leg: OrderLeg, quote: Quote): real {
    if leg.side.Sell? then -quote.bid * RatioOf(leg) else quote.ask * RatioOf(leg)
  }

  method Showing(legs: seq<OrderLeg>, quotes: Quotes) returns (price: Option<int>)
    ensures price.Some? <==> TwoSided(legs, quotes)
    ensures price.Some? ==> price.value == Round(Total(legs, quotes))
  {
    var total := 0.0;
    for i := 0 to |legs|
      invariant TwoSided(legs[..i], quotes)
      invariant total == Total(legs[..i], quotes)
    {
      var leg := legs[i];
      if leg.symbol !in quotes || quotes[leg.symbol].bid <= 0.0 || quotes[leg.symbol].ask <= 0.0 {
        return None;
      }
      assert legs[..i + 1][..i] == legs[..i];
      if leg.side.Sell? {
        total := total - quotes[leg.symbol].bid * RatioOf(leg);
      } else {
        total := total + quotes[leg.symbol].ask * RatioOf(leg);
      }
    }
    assert legs[..|legs|] == legs;
    price := Some(Round(total));
  }

  /** The same leg, taken the other way. */
  function Back(leg: OrderLeg): OrderLeg {
    leg.(side := if leg.side.Sell? then Buy else Sell)
  }

  function Mirror(legs: seq<OrderLeg>): (mirror: seq<OrderLeg>)
    ensures |mirror| == |legs| && forall i :: 0 <= i < |legs| ==> mirror[i] == Back(legs[i])
  {
    if legs == [] then [] else Mirror(legs[..|legs| - 1]) + [Back(legs[|legs| - 1])]
  }

  lemma RoundIsOrderly(x: real, y: real)
    ensures x <= y ==> Round(x) <= Round(y)
    ensures Round(-x) == -Round(x)
  {
  }

  lemma RoundOfWhole(n: int)
    ensures Round(n as real) == n
  {
  }

  lemma {:induction false} MirrorTotal(legs: seq<OrderLeg>, quotes: Quotes)
    requires TwoSided(legs, quotes)
    requires forall leg :: leg in legs ==> quotes[leg.symbol].bid <= quotes[leg.symbol].ask
    ensures TwoSided(Mirror(legs), quotes)
    ensures Total(Mirror(legs), quotes) + Total(legs, quotes) >= 0.0
  {
    if legs == [] {
    } else {
      hide LegPrice, Back;
      var init, last := legs[..|legs| - 1], legs[|legs| - 1];
      MirrorTotal(init, quotes);
      MirrorQuoted(legs, quotes);
      assert Mirror(legs)[..|legs| - 1] == Mirror(init);
      SpreadCosts(last, quotes[last.symbol]);
    }
  }

  lemma MirrorQuoted(legs: seq<OrderLeg>, quotes: Quotes)
    requires TwoSided(legs, quotes)
    ensures TwoSided(Mirror(legs), quotes)
  {
    forall i | 0 <= i < |legs| ensures Mirror(legs)[i].symbol == legs[i].symbol {
    }
  }

  lemma SpreadCosts(leg: OrderLeg, quote: Quote)
    requires quote.bid <= quote.ask
    ensures LegPrice(Back(leg), quote) + LegPrice(leg, quote) >= 0.0
    ensures Back(leg).symbol == leg.symbol
  {
    ProductOfNonNegatives(quote.ask - quote.bid, RatioOf(leg));
  }

  /** Opening and closing one structure at what an uncrossed book shows never pays. */
  lemma RoundTripNeverPays(legs: seq<OrderLeg>, quotes: Quotes)
    requires TwoSided(legs, quotes)
    requires forall leg :: leg in legs ==> quotes[leg.symbol].bid <= quotes[leg.symbol].ask
    ensures TwoSided(Mirror(legs), quotes)
    ensures Round(Total(legs, quotes)) + Round(Total(Mirror(legs), quotes)) >= 0
  {
    MirrorTotal(legs, quotes);
    RoundIsOrderly(-Total(legs, quotes), Total(Mirror(legs), quotes));
    RoundIsOrderly(Total(legs, quotes), 0.0);
  }

  // ---------- one step ----------

  function Distance(a: int, b: int): real {
    (if a < b then b - a else a - b) as real
  }

  /** One step in the direction of the target, and no further. */
  function Toward(limit: int, target: int, step: real): int {
    if Distance(limit, target) < step / 2.0 then target
    else if target > limit then Round(if limit as real + step < target as real then limit as real + step else target as real)
    else Round(if limit as real - step > target as real then limit as real - step else target as real)
  }

  /** Division of durations, as the program divides: toward zero. */
  function Quotient(a: int, b: int): int
    requires b > 0
  {
    if a >= 0 then a / b else -(-a / b)
  }

  /** How far one step moves: the distance left divided by the intervals left. */
  function StrideOf(c: Config, limit: int, target: int, age: int): real
    requires Runnable(c)
  {
    if c.stride.ByTick? then c.step
    else
      var left := Quotient(c.patience - age, c.every);
      var steps := if left < 1 then 1 else left;
      var stride := Distance(limit, target) / steps as real;
      if stride > c.step then stride else c.step
  }

  function Target(showing: int, floor: int): int {
    if showing > floor then floor else showing
  }

  /** The limit after the walk has looked at the order once. `refused` is the entry
      rule's answer about the floor, which never cancels. */
  function Next(c: Config, limit: int, showing: Option<int>, floor: Option<int>, refused: bool, age: int): int
    requires Runnable(c)
  {
    if showing.None? || showing.value <= limit || floor.None? || refused then limit
    else
      var target := Target(showing.value, floor.value);
      Toward(limit, target, StrideOf(c, limit, target, age))
  }

  lemma TowardStaysBetween(limit: int, target: int, step: real)
    requires step > 0.0
    ensures limit <= target ==> limit <= Toward(limit, target, step) <= target
    ensures target <= limit ==> target <= Toward(limit, target, step) <= limit
    ensures Distance(limit, target) <= step ==> Toward(limit, target, step) == target
  {
    RoundOfWhole(limit);
    RoundOfWhole(target);
    RoundIsOrderly(limit as real, limit as real + step);
    RoundIsOrderly(limit as real + step, target as real);
    RoundIsOrderly(limit as real - step, limit as real);
    RoundIsOrderly(target as real, limit as real - step);
  }

  /** A step gains ground exactly when rounding does not take it back: halves round
      away from zero, so on a credit half a hundredth is still nothing. */
  lemma StepGainsGround(limit: int, target: int, step: real)
    requires step > 0.0 && limit < target
    ensures Toward(limit, target, step) > limit <==> step > 0.5 || (step == 0.5 && limit >= 0)
  {
    RoundOfWhole(limit);
    RoundOfWhole(target);
  }

  /** The walk never gives back what it conceded, and never passes the floor; what it
      concedes it concedes no further than the book asks. */
  lemma WalkIsBounded(c: Config, limit: int, showing: Option<int>, floor: int, refused: bool, age: int)
    requires Runnable(c) && limit <= floor
    ensures limit <= Next(c, limit, showing, Some(floor), refused, age) <= floor
    ensures Next(c, limit, showing, Some(floor), refused, age) > limit ==>
              showing.Some? && Next(c, limit, showing, Some(floor), refused, age) <= showing.value
  {
    if showing.Some? && showing.value > limit && !refused {
      var target := Target(showing.value, floor);
      TowardStaysBetween(limit, target, StrideOf(c, limit, target, age));
    }
  }

  /** Inside the last two intervals one step is the whole distance. */
  lemma LastStepArrives(c: Config, limit: int, showing: Option<int>, floor: int, age: int)
    requires Runnable(c) && c.stride.ToArrive?
    requires limit <= floor && showing.Some? && showing.value > limit
    requires c.patience - age < 2 * c.every
    ensures Next(c, limit, showing, Some(floor), false, age) == Target(showing.value, floor)
  {
    var target := Target(showing.value, floor);
    var left := Quotient(c.patience - age, c.every);
    QuotientBelowTwo(c.patience - age, c.every);
    assert Distance(limit, target) / 1.0 == Distance(limit, target);
    TowardStaysBetween(limit, target, StrideOf(c, limit, target, age));
  }

  lemma QuotientBelowTwo(a: int, b: int)
    requires b > 0 && a < 2 * b
    ensures Quotient(a, b) < 2
  {
    if a >= 0 {
      FewerThanTwo(a / b, b);
    }
  }

  lemma FewerThanTwo(q: int, b: int)
    requires b > 0 && q * b < 2 * b
    ensures q < 2
  {
  }

  // ---------- the whole life ----------

  /** What one pass finds: what the book shows, and whether the entry rule refuses. */
  datatype Seen = Seen(showing: Option<int>, refused: bool)

  /** An order's life: where its limit stands, whether this ladder ever moved it,
      and whether it was cancelled on patience. */
  datatype Life = Life(limit: int, moved: bool, cancelled: bool)

  /** One pass over the order at this age. */
  function OnePass(c: Config, life: Life, floor: int, age: int, seen: Seen): Life
    requires Runnable(c)
  {
    if life.cancelled then life
    else if !life.moved && age < c.every then life
    else if age > c.patience then life.(cancelled := true)
    else
      var next := Next(c, life.limit, seen.showing, Some(floor), seen.refused, age);
      if next == life.limit then life else life.(limit := next, moved := true)
  }

  /** The life after the passes so far, the first at `age`, each an interval after
      the one before. */
  function Lived(c: Config, start: int, floor: int, age: int, passes: seq<Seen>): Life
    requires Runnable(c)
  {
    if passes == [] then Life(start, false, false)
    else
      var n := |passes| - 1;
      OnePass(c, Lived(c, start, floor, age, passes[..n]), floor, age + n * c.every, passes[n])
  }

  lemma {:induction false} LifeIsBounded(c: Config, start: int, floor: int, age: int, passes: seq<Seen>)
    requires Runnable(c) && start <= floor
    ensures start <= Lived(c, start, floor, age, passes).limit <= floor
  {
    if passes == [] {
    } else {
      var n := |passes| - 1;
      LifeIsBounded(c, start, floor, age, passes[..n]);
      var life := Lived(c, start, floor, age, passes[..n]);
      WalkIsBounded(c, life.limit, passes[n].showing, floor, passes[n].refused, age + n * c.every);
    }
  }

  /** The limit only ever rises: later in the same life it is no lower. */
  lemma {:induction false} LimitNeverFalls(c: Config, start: int, floor: int, age: int, passes: seq<Seen>, n: nat)
    requires Runnable(c) && start <= floor && n <= |passes|
    ensures Lived(c, start, floor, age, passes[..n]).limit <= Lived(c, start, floor, age, passes).limit
  {
    if n == |passes| {
      assert passes[..n] == passes;
    } else {
      var m := |passes| - 1;
      var before := passes[..m];
      LimitNeverFalls(c, start, floor, age, before, n);
      assert before[..n] == passes[..n];
      LifeIsBounded(c, start, floor, age, before);
      var life := Lived(c, start, floor, age, before);
      WalkIsBounded(c, life.limit, passes[m].showing, floor, passes[m].refused, age + m * c.every);
    }
  }

  /** While it is not past its patience the order is not cancelled on it. */
  lemma {:induction false} AliveWithinPatience(c: Config, start: int, floor: int, age: int, passes: seq<Seen>)
    requires Runnable(c)
    requires passes == [] || age + (|passes| - 1) * c.every <= c.patience
    ensures !Lived(c, start, floor, age, passes).cancelled
  {
    if passes == [] {
    } else {
      var n := |passes| - 1;
      assert n * c.every >= (n - 1) * c.every;
      AliveWithinPatience(c, start, floor, age, passes[..n]);
    }
  }

  /** Which pass is the last one before patience ends. */
  lemma LastPassInTime(c: Config, age: int, count: nat) returns (last: nat)
    requires Runnable(c) && count > 0
    requires age <= c.patience < age + (count - 1) * c.every
    ensures last + 1 < count
    ensures age + last * c.every <= c.patience < age + (last + 1) * c.every
  {
    last := 0;
    while age + (last + 1) * c.every <= c.patience
      invariant last < count
      invariant age + last * c.every <= c.patience
      decreases count - last
    {
      last := last + 1;
    }
  }

  lemma LivedStep(c: Config, start: int, floor: int, age: int, passes: seq<Seen>, n: nat)
    requires Runnable(c) && n < |passes|
    ensures Lived(c, start, floor, age, passes[..n + 1]) ==
            OnePass(c, Lived(c, start, floor, age, passes[..n]), floor, age + n * c.every, passes[n])
  {
    assert passes[..n + 1][..n] == passes[..n];
  }

  lemma AliveBefore(c: Config, start: int, floor: int, age: int, passes: seq<Seen>, n: nat)
    requires Runnable(c) && n < |passes|
    requires n == 0 || age + (n - 1) * c.every <= c.patience
    ensures !Lived(c, start, floor, age, passes[..n]).cancelled
  {
    AliveWithinPatience(c, start, floor, age, passes[..n]);
  }

  /** Arrival. Walked to arrive, every pass within the last two intervals of patience, once the
      order is an interval old, leaves it offered no lower than the book or its floor, whichever
      is nearer - however the book moved until then. If that pass moved it, it moved to exactly
      that price. */
  lemma ArrivesInTheLastTwoIntervals(c: Config, start: int, floor: int, age: int, passes: seq<Seen>, n: nat)
    requires Runnable(c) && c.stride.ToArrive? && start <= floor && n < |passes|
    requires c.patience - 2 * c.every < age + n * c.every <= c.patience && age + n * c.every >= c.every
    ensures !Lived(c, start, floor, age, passes[..n + 1]).cancelled
    ensures var before := Lived(c, start, floor, age, passes[..n]).limit;
            var after := Lived(c, start, floor, age, passes[..n + 1]).limit;
            var seen := passes[n];
            && (seen.showing.Some? && !seen.refused ==> after >= Target(seen.showing.value, floor))
            && (after != before ==> seen.showing.Some? && after == Target(seen.showing.value, floor))
  {
    hide Next, Target;
    var seen, now := passes[n], age + n * c.every;
    assert n > 0 ==> age + (n - 1) * c.every <= now by {
      assert n > 0 ==> n * c.every == (n - 1) * c.every + c.every;
    }
    AliveBefore(c, start, floor, age, passes, n);
    LifeIsBounded(c, start, floor, age, passes[..n]);
    var life := Lived(c, start, floor, age, passes[..n]);
    LivedStep(c, start, floor, age, passes, n);
    NextArrives(c, life.limit, seen, floor, now);
  }

  lemma NextArrives(c: Config, limit: int, seen: Seen, floor: int, age: int)
    requires Runnable(c) && c.stride.ToArrive? && limit <= floor && c.patience - age < 2 * c.every
    ensures var next := Next(c, limit, seen.showing, Some(floor), seen.refused, age);
            && (seen.showing.Some? && !seen.refused ==> next >= Target(seen.showing.value, floor))
            && (next != limit ==> seen.showing.Some? && next == Target(seen.showing.value, floor))
  {
    if seen.showing.Some? && seen.showing.value > limit && !seen.refused {
      LastStepArrives(c, limit, seen.showing, floor, age);
    }
  }

  /** And an order whose life runs past its patience has such a pass, with at least two
      intervals of it: the last one in time. The pass after that cancels the order. */
  lemma ArrivesBeforePatience(c: Config, start: int, floor: int, age: int, passes: seq<Seen>) returns (last: nat)
    requires Runnable(c) && c.stride.ToArrive? && c.patience >= 2 * c.every
    requires start <= floor && passes != []
    requires 0 <= age <= c.patience < age + (|passes| - 1) * c.every
    ensures last + 1 < |passes|
    ensures age + last * c.every <= c.patience < age + (last + 1) * c.every
    ensures var before := Lived(c, start, floor, age, passes[..last]).limit;
            var after := Lived(c, start, floor, age, passes[..last + 1]).limit;
            var seen := passes[last];
            && (seen.showing.Some? && !seen.refused ==> after >= Target(seen.showing.value, floor))
            && (after != before ==> seen.showing.Some? && after == Target(seen.showing.value, floor))
    ensures Lived(c, start, floor, age, passes[..last + 2]).cancelled
  {
    hide Next, Target;
    last := LastPassInTime(c, age, |passes|);
    assert age + last * c.every > c.patience - c.every >= c.every by {
      assert (last + 1) * c.every == last * c.every + c.every;
    }
    ArrivesInTheLastTwoIntervals(c, start, floor, age, passes, last);
    LivedStep(c, start, floor, age, passes, last + 1);
  }
}
