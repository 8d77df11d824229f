/** What options are worth at expiry, as a function of the underlying's price.

    The payoff of a group of options on one underlying and one expiry is piecewise
    linear with its breakpoints on the strikes. Three places of the program rely on
    that to find the worst point by looking at zero and at the strikes only; this
    module proves when that is exact and what happens when it is not. */
module Payoff {
  /** An option held (negative: sold), inside a group of one underlying and one expiry. */
  datatype Leg = Leg(call: bool, strike: real, held: real)

  function Intrinsic(call: bool, strike: real, price: real): real {
    if call then
      if price > strike then price - strike else 0.0
    else
      if strike > price then strike - price else 0.0
  }

  function LegValue(leg: Leg, price: real): real {
    leg.held * 100.0 * Intrinsic(leg.call, leg.strike, price)
  }

  /** What the whole group is worth with the underlying at `price`. */
  function Value(legs: seq<Leg>, price: real): real {
    if legs == [] then 0.0
    else Value(legs[..|legs| - 1], price) + LegValue(legs[|legs| - 1], price)
  }

  /** Calls bought less calls sold: the slope of the payoff past the last strike. */
  function NetCalls(legs: seq<Leg>): real {
    if legs == [] then 0.0
    else
      var last := legs[|legs| - 1];
      NetCalls(legs[..|legs| - 1]) + if last.call then last.held else 0.0
  }

  function Strikes(legs: seq<Leg>): seq<real>
  {
    seq(|legs|, i requires 0 <= i < |legs| => legs[i].strike)
  }

  /** Where the program looks: at zero and at every strike. */
  predicate Probe(legs: seq<Leg>, price: real) {
    price == 0.0 || exists i :: 0 <= i < |legs| && legs[i].strike == price
  }

  /** No strike lies strictly inside the segment. */
  ghost predicate NoStrikeInside(legs: seq<Leg>, low: real, high: real) {
    forall i :: 0 <= i < |legs| ==> legs[i].strike <= low || high <= legs[i].strike
  }

  /** The slope just to the right of `low`. */
  ghost function SlopeAt(legs: seq<Leg>, low: real): real {
    if legs == [] then 0.0
    else
      var last := legs[|legs| - 1];
      SlopeAt(legs[..|legs| - 1], low) + LegSlope(last, low)
  }

  ghost function LegSlope(leg: Leg, low: real): real {
    leg.held * 100.0 *
    if leg.call && leg.strike <= low then 1.0
    else if !leg.call && leg.strike > low then -1.0
    else 0.0
  }

  /** A product, named so that a proof may keep it whole. */
  function Times(x: real, y: real): real {
    x * y
  }

  lemma TimesAdd(x: real, y: real, z: real)
    ensures Times(x, y + z) == Times(x, y) + Times(x, z)
  {
  }

  lemma TimesZero(x: real)
    ensures Times(x, 0.0) == 0.0
  {
  }

  lemma TimesCommutes(x: real, y: real)
    ensures Times(x, y) == Times(y, x)
  {
  }

  lemma TimesSign(x: real, y: real)
    requires x > 0.0
    ensures Times(x, y) < 0.0 <==> y < 0.0
  {
  }

  lemma ProductOfNonNegatives(x: real, y: real)
    requires x >= 0.0 && y >= 0.0
    ensures x * y >= 0.0
  {
  }

  lemma Distribute(a: real, b: real, x: real)
    ensures (a + b) * x == a * x + b * x
  {
  }

  /** The sum of two lines is a line. */
  lemma AddLines(m: real, n: real, x: real, v: real, v': real, w: real, w': real)
    requires v' == v + m * x
    requires w' == w + n * x
    ensures v' + w' == v + w + (m + n) * x
  {
    Distribute(m, n, x);
  }

  lemma LegLinear(leg: Leg, low: real, high: real, price: real)
    requires low <= price <= high
    requires leg.strike <= low || high <= leg.strike
    ensures LegValue(leg, price) == LegValue(leg, low) + LegSlope(leg, low) * (price - low)
  {
    var size := leg.held * 100.0;
    var here, there := Intrinsic(leg.call, leg.strike, low), Intrinsic(leg.call, leg.strike, price);
    var unit := if leg.call && leg.strike <= low then 1.0 else if !leg.call && leg.strike > low then -1.0 else 0.0;
    assert there == here + unit * (price - low);
    calc {
      size * there;
      size * (here + unit * (price - low));
      { Distribute(here, unit * (price - low), size); }
      size * here + size * (unit * (price - low));
      size * here + (size * unit) * (price - low);
    }
  }

  /** Between two neighbouring strikes the payoff is one straight line. */
  lemma {:induction false} LinearBetweenStrikes(legs: seq<Leg>, low: real, high: real, price: real)
    requires low <= price <= high
    requires NoStrikeInside(legs, low, high)
    ensures Value(legs, price) == Value(legs, low) + SlopeAt(legs, low) * (price - low)
  {
    hide LegValue, LegSlope;
    if legs == [] {
    } else {
      LinearBetweenStrikes(legs[..|legs| - 1], low, high, price);
      var last := legs[|legs| - 1];
      LegLinear(last, low, high, price);
      AddLines(SlopeAt(legs[..|legs| - 1], low), LegSlope(last, low), price - low,
               Value(legs[..|legs| - 1], low), Value(legs[..|legs| - 1], price), LegValue(last, low), LegValue(last, price));
    }
  }

  /** Past every strike only the calls still move. */
  lemma {:induction false} SlopePastEveryStrike(legs: seq<Leg>, low: real)
    requires forall i :: 0 <= i < |legs| ==> legs[i].strike <= low
    ensures SlopeAt(legs, low) == NetCalls(legs) * 100.0
  {
    if legs == [] {
    } else {
      SlopePastEveryStrike(legs[..|legs| - 1], low);
    }
  }

  /** The highest probe at or below a price. */
  lemma {:induction false} ProbeBelow(legs: seq<Leg>, price: real) returns (low: real)
    requires price >= 0.0
    ensures Probe(legs, low) && 0.0 <= low <= price
    ensures forall i :: 0 <= i < |legs| ==> legs[i].strike <= low || price < legs[i].strike
  {
    low := 0.0;
    for n := 0 to |legs|
      invariant Probe(legs, low) && 0.0 <= low <= price
      invariant forall i :: 0 <= i < n ==> legs[i].strike <= low || price < legs[i].strike
    {
      if low < legs[n].strike <= price {
        low := legs[n].strike;
      }
    }
  }

  /** The lowest strike above a price, if there is any. */
  lemma {:induction false} StrikeAbove(legs: seq<Leg>, price: real) returns (found: bool, high: real)
    ensures found ==> Probe(legs, high) && price < high
    ensures found ==> forall i :: 0 <= i < |legs| ==> legs[i].strike <= price || high <= legs[i].strike
    ensures !found ==> forall i :: 0 <= i < |legs| ==> legs[i].strike <= price
  {
    found, high := false, 0.0;
    for n := 0 to |legs|
      invariant found ==> Probe(legs, high) && price < high
      invariant found ==> forall i :: 0 <= i < n ==> legs[i].strike <= price || high <= legs[i].strike
      invariant !found ==> forall i :: 0 <= i < n ==> legs[i].strike <= price
    {
      if price < legs[n].strike && (!found || legs[n].strike < high) {
        found, high := true, legs[n].strike;
      }
    }
  }

  /** On a line through `v` at `low`, one end of the segment is no higher than a point inside. */
  lemma LowerEnd(v: real, slope: real, x: real, y: real)
    requires 0.0 <= x <= y
    ensures slope >= 0.0 ==> v <= v + slope * x
    ensures slope < 0.0 ==> v + slope * y <= v + slope * x
  {
    Distribute(x, y - x, slope);
    if slope < 0.0 {
      assert slope * (y - x) <= 0.0;
    }
  }

  /** The minimum cannot hide inside a segment nor on the ray: with calls not net
      sold, at any price some probe is at least as bad. */
  lemma ProbesSuffice(legs: seq<Leg>, price: real) returns (worse: real)
    requires NetCalls(legs) >= 0.0
    requires price >= 0.0
    ensures Probe(legs, worse) && worse >= 0.0
    ensures Value(legs, worse) <= Value(legs, price)
  {
    hide Value, SlopeAt, NetCalls;
    var low := ProbeBelow(legs, price);
    var found, high := StrikeAbove(legs, price);
    if !found {
      high := price;
      SlopePastEveryStrike(legs, low);
    }
    LinearBetweenStrikes(legs, low, high, price);
    LinearBetweenStrikes(legs, low, high, high);
    LowerEnd(Value(legs, low), SlopeAt(legs, low), price - low, high - low);
    worse := if SlopeAt(legs, low) >= 0.0 then low else high;
  }

  /** With calls net sold there is no minimum: the payoff passes below any bound. */
  lemma FallsForever(legs: seq<Leg>, bound: real) returns (price: real)
    requires NetCalls(legs) < 0.0
    ensures price >= 0.0
    ensures Value(legs, price) < bound
  {
    hide Value, SlopeAt, NetCalls;
    var far := HighestStrike(legs);
    var slope := SlopeAt(legs, far);
    SlopePastEveryStrike(legs, far);
    var drop := Value(legs, far) - bound;
    if drop < 0.0 {
      price := far;
    } else {
      var distance := (drop + 1.0) / -slope;
      price := far + distance;
      assert -slope * distance == drop + 1.0;
      LinearBetweenStrikes(legs, far, price, price);
    }
  }

  /** The far point of a group: no strike is above it. */
  function HighestStrike(legs: seq<Leg>): (far: real)
    ensures far >= 0.0
    ensures forall i :: 0 <= i < |legs| ==> legs[i].strike <= far
    ensures Probe(legs, far)
  {
    if legs == [] then 0.0
    else
      var far := HighestStrike(legs[..|legs| - 1]);
      assert forall i :: 0 <= i < |legs| - 1 ==> legs[..|legs| - 1][i] == legs[i];
      if legs[|legs| - 1].strike > far then legs[|legs| - 1].strike else far
  }

  /** Adding one leg. */
  lemma ValueAppend(legs: seq<Leg>, leg: Leg, price: real)
    ensures Value(legs + [leg], price) == Value(legs, price) + LegValue(leg, price)
    ensures NetCalls(legs + [leg]) == NetCalls(legs) + (if leg.call then leg.held else 0.0)
  {
    assert (legs + [leg])[..|legs|] == legs;
  }
}
