/** What a resting multi-leg order can lose if it fills, judged at the worst price it
    may ever fill at rather than at where it rests. */
module TooBig {
  import opened Payoff
  import opened Contracts
  import opened Reservation
  import opened Orders
  import Groups

  // ---------- what the legs declare ----------

  /** Every leg says it closes; an order that says nothing is judged as new exposure. */
  method OnlyCloses(order: Order) returns (closes: bool)
    ensures closes == Closes(order)
  {
    if order.legs == [] {
      return false;
    }
    for i := 0 to |order.legs|
      invariant forall j :: 0 <= j < i ==> order.legs[j].intent.ToClose?
    {
      if !order.legs[i].intent.ToClose? {
        return false;
      }
    }
    closes := true;
  }

  predicate Closes(order: Order) {
    order.legs != [] && forall leg :: leg in order.legs ==> leg.intent.ToClose?
  }

  method OnlyOpens(order: Order) returns (opens: bool)
    ensures opens == Opens(order)
  {
    if order.legs == [] {
      return false;
    }
    for i := 0 to |order.legs|
      invariant forall j :: 0 <= j < i ==> order.legs[j].intent.ToOpen?
    {
      if !order.legs[i].intent.ToOpen? {
        return false;
      }
    }
    opens := true;
  }

  predicate Opens(order: Order) {
    order.legs != [] && forall leg :: leg in order.legs ==> leg.intent.ToOpen?
  }

  /** A leg that says nothing of itself is neither, so the two rules both refuse it. */
  lemma UnstatedIsNeither(order: Order, leg: OrderLeg)
    requires leg in order.legs && leg.intent.Unstated?
    ensures !Closes(order) && !Opens(order)
  {
  }

  // ---------- one set, and all that rests ----------

  /** A leg's own quantity carries the ratio: its share of the order. */
  function PerSet(order: Order, leg: OrderLeg): real
    requires order.quantity > 0.0
  {
    var share := if leg.quantity > 0.0 then leg.quantity / order.quantity else 1.0;
    if leg.side.Sell? then -share else share
  }

  /** The legs as held for `sets` sets of the order. */
  function Held(order: Order, legs: seq<OrderLeg>, sets: real): seq<Leg>
    requires order.quantity > 0.0
    requires forall leg :: leg in legs ==> leg.symbol.Option?
  {
    if legs == [] then []
    else
      Held(order, legs[..|legs| - 1], sets) + [HeldLeg(order, legs[|legs| - 1], sets)]
  }

  function HeldLeg(order: Order, leg: OrderLeg, sets: real): Leg
    requires order.quantity > 0.0 && leg.symbol.Option?
  {
    Leg(leg.symbol.contract.call, leg.symbol.contract.strike, PerSet(order, leg) * sets)
  }

  lemma HeldAppend(order: Order, legs: seq<OrderLeg>, leg: OrderLeg, sets: real)
    requires order.quantity > 0.0 && leg.symbol.Option?
    requires forall leg :: leg in legs ==> leg.symbol.Option?
    ensures Held(order, legs + [leg], sets) == Held(order, legs, sets) + [HeldLeg(order, leg, sets)]
  {
    assert (legs + [leg])[..|legs|] == legs;
  }

  /** The order can be read: it has legs, a size, something resting, and every symbol parses. */
  predicate Known(order: Order) {
    && order.legs != [] && order.quantity > 0.0 && Remaining(order) > 0.0
    && forall leg :: leg in order.legs ==> leg.symbol.Option?
  }

  function Resting(order: Order): seq<Leg>
    requires Known(order)
  {
    Held(order, order.legs, Remaining(order))
  }

  /** In dollars: the floor its name carries, or where it stands if it names none. */
  function WorstPrice(order: Order, read: Reader): real {
    var floor := Floor(order.name, read);
    (if floor.Some? then floor.value else order.limit) as real / 100.0
  }

  // ---------- the worst case ----------

  /** What the legs of `sets` sets are worth, each series settled at its own price. */
  ghost function LegsWorth(order: Order, legs: seq<OrderLeg>, sets: real, prices: Prices): real
    requires order.quantity > 0.0
    requires forall leg :: leg in legs ==> leg.symbol.Option?
  {
    if legs == [] then 0.0
    else
      var last := legs[|legs| - 1];
      LegsWorth(order, legs[..|legs| - 1], sets, prices) +
      LegValue(HeldLeg(order, last, sets), prices(last.symbol.contract.series))
  }

  /** One price for every series. */
  function AtOnce(s: real): Prices {
    k => s
  }

  lemma {:induction false} WorthAtOnce(order: Order, legs: seq<OrderLeg>, sets: real, s: real)
    requires order.quantity > 0.0
    requires forall leg :: leg in legs ==> leg.symbol.Option?
    ensures LegsWorth(order, legs, sets, AtOnce(s)) == Value(Held(order, legs, sets), s)
  {
    hide LegValue, HeldLeg;
    if legs == [] {
    } else {
      WorthAtOnce(order, legs[..|legs| - 1], sets, s);
      ValueAppend(Held(order, legs[..|legs| - 1], sets), HeldLeg(order, legs[|legs| - 1], sets), s);
    }
  }

  /** What `sets` sets bought at `price` are worth, settled at these prices. */
  ghost function FillWorth(order: Order, sets: real, price: real, prices: Prices): real
    requires Known(order)
  {
    LegsWorth(order, order.legs, sets, prices) - price * 100.0 * sets
  }

  /** `worst` bounds the loss of everything resting, filled at `price`, when every leg is
      settled at one price, whatever it is - and is reached, unless nothing can be lost at
      all. This is what the program works out. */
  ghost predicate IsWorstFill(order: Order, price: real, worst: real)
    requires Known(order)
  {
    && worst <= 0.0
    && (forall s :: s >= 0.0 ==> FillWorth(order, Remaining(order), price, AtOnce(s)) >= worst)
    && (worst == 0.0 || exists s :: s >= 0.0 && FillWorth(order, Remaining(order), price, AtOnce(s)) == worst)
  }

  /** `worst` bounds that loss at every choice of one price for each series. This is what the
      account can lose. */
  ghost predicate BoundsEverySettlement(order: Order, price: real, worst: real)
    requires Known(order)
  {
    forall prices: Prices :: NonNegative(prices) ==> FillWorth(order, Remaining(order), price, prices) >= worst
  }

  function AsLines(legs: seq<Leg>): seq<Groups.Line> {
    if legs == [] then []
    else AsLines(legs[..|legs| - 1]) + [Groups.Line(Series("", 0), legs[|legs| - 1], 0.0)]
  }

  lemma {:induction false} LinesAreTheLegs(legs: seq<Leg>)
    ensures Groups.Legs(AsLines(legs)) == legs && Groups.Paid(AsLines(legs)) == 0.0
  {
    if legs == [] {
    } else {
      LinesAreTheLegs(legs[..|legs| - 1]);
      Groups.LegsAppend(AsLines(legs[..|legs| - 1]), Groups.Line(Series("", 0), legs[|legs| - 1], 0.0), 0.0);
    }
  }

  /** The most a resting order can lose at the worst price it may fill at, or nothing
      where it cannot be read. */
  method WorstCase(order: Order, read: Reader) returns (worst: Option<real>)
    ensures worst.Some? <==> Known(order)
    ensures worst.Some? ==> worst.value <= 0.0
    ensures worst.Some? && NetCalls(Resting(order)) >= 0.0 ==> IsWorstFill(order, WorstPrice(order, read), worst.value)
  {
    hide Value, NetCalls, Probe, Groups.GroupWorth, IsWorstFill, WorstPrice;
    if order.legs == [] || order.quantity <= 0.0 || Remaining(order) <= 0.0 {
      return None;
    }
    var legs: seq<Leg> := [];
    for i := 0 to |order.legs|
      invariant forall leg :: leg in order.legs[..i] ==> leg.symbol.Option?
      invariant legs == Held(order, order.legs[..i], Remaining(order))
    {
      var one := order.legs[i];
      if one.symbol.Ticker? {
        return None;
      }
      assert order.legs[..i + 1] == order.legs[..i] + [one];
      HeldAppend(order, order.legs[..i], one, Remaining(order));
      legs := legs + [HeldLeg(order, one, Remaining(order))];
    }
    assert order.legs[..|order.legs|] == order.legs;
    var price := WorstPrice(order, read);
    var settled := -price * 100.0 * Remaining(order);
    var lines := AsLines(legs);
    LinesAreTheLegs(legs);
    HeldStrikes(order, order.legs, Remaining(order));
    var far := HighestStrike(legs) * 2.0;
    var points := [0.0] + Strikes(legs) + [far];
    var least, lowest := Groups.LeastAtPoints(lines, points);
    PointsHold(legs, far);
    if NetCalls(legs) >= 0.0 {
      Groups.ProbesFindTheLeast(lines, lowest, least);
      LeastIsWorstFill(order, price, lowest, least, settled);
    }
    worst := Some(if least + settled < 0.0 then least + settled else 0.0);
  }

  lemma PointsHold(legs: seq<Leg>, far: real)
    requires far >= 0.0 && forall i :: 0 <= i < |legs| ==> legs[i].strike > 0.0
    ensures forall s :: Probe(legs, s) ==> s in [0.0] + Strikes(legs) + [far]
    ensures forall s :: s in [0.0] + Strikes(legs) + [far] ==> s >= 0.0
  {
    Groups.PointsHoldEveryProbe(legs, far);
  }

  lemma {:induction false} HeldStrikes(order: Order, legs: seq<OrderLeg>, sets: real)
    requires order.quantity > 0.0
    requires forall leg :: leg in legs ==> leg.symbol.Option?
    ensures forall i :: 0 <= i < |Held(order, legs, sets)| ==> Held(order, legs, sets)[i].strike > 0.0
  {
    if legs == [] {
    } else {
      HeldStrikes(order, legs[..|legs| - 1], sets);
    }
  }

  lemma LeastIsWorstFill(order: Order, price: real, lowest: real, least: real, settled: real)
    requires Known(order)
    requires settled == -price * 100.0 * Remaining(order)
    requires Groups.LeastOfGroup(AsLines(Resting(order)), lowest, least)
    ensures IsWorstFill(order, price, if least + settled < 0.0 then least + settled else 0.0)
  {
    hide Value, LegsWorth;
    LinesAreTheLegs(Resting(order));
    forall s: real
      ensures FillWorth(order, Remaining(order), price, AtOnce(s)) == Groups.GroupWorth(AsLines(Resting(order)), s) + settled
    {
      WorthAtOnce(order, order.legs, Remaining(order), s);
      assert price * 100.0 * Remaining(order) == -settled;
    }
  }

  /** The worst case is one number. */
  lemma WorstFillIsUnique(order: Order, price: real, v: real, w: real)
    requires Known(order) && IsWorstFill(order, price, v) && IsWorstFill(order, price, w)
    ensures v == w
  {
    if v < 0.0 {
      var s :| s >= 0.0 && FillWorth(order, Remaining(order), price, AtOnce(s)) == v;
      assert v >= w;
    }
    if w < 0.0 {
      var s :| s >= 0.0 && FillWorth(order, Remaining(order), price, AtOnce(s)) == w;
      assert w >= v;
    }
  }

  // ---------- unbounded ----------

  function SignedQuantity(order: Order, leg: OrderLeg): real {
    var held := if leg.quantity <= 0.0 then order.quantity else leg.quantity;
    if leg.side.Sell? then -held else held
  }

  /** Calls bought less calls sold, in the legs' own quantities. */
  function RawNet(order: Order, legs: seq<OrderLeg>): real {
    if legs == [] then 0.0
    else
      var last := legs[|legs| - 1];
      RawNet(order, legs[..|legs| - 1]) +
      if last.symbol.Option? && last.symbol.contract.call then SignedQuantity(order, last) else 0.0
  }

  /** The order's loss has no floor: it is left net short calls. */
  method Unbounded(order: Order) returns (unbounded: bool)
    ensures unbounded == IsUnbounded(order)
  {
    var net := 0.0;
    for i := 0 to |order.legs|
      invariant net == RawNet(order, order.legs[..i])
    {
      var one := order.legs[i];
      assert order.legs[..i + 1][..i] == order.legs[..i];
      if one.symbol.Option? && one.symbol.contract.call {
        net := net + SignedQuantity(order, one);
      }
    }
    assert order.legs[..|order.legs|] == order.legs;
    unbounded := net < 0.0;
  }

  predicate IsUnbounded(order: Order) {
    RawNet(order, order.legs) < 0.0
  }

  /** The two readings of a leg's size agree: the sign of the raw sum is the slope of
      the payoff of what rests. */
  lemma UnboundedIsTheSlope(order: Order)
    requires Known(order)
    ensures IsUnbounded(order) <==> NetCalls(Resting(order)) < 0.0
  {
    hide RawNet, NetCalls;
    NetIsScaled(order, order.legs, Remaining(order));
    TimesSign(Remaining(order) / order.quantity, RawNet(order, order.legs));
  }

  lemma {:induction false} NetIsScaled(order: Order, legs: seq<OrderLeg>, sets: real)
    requires order.quantity > 0.0
    requires forall leg :: leg in legs ==> leg.symbol.Option?
    ensures NetCalls(Held(order, legs, sets)) == Times(sets / order.quantity, RawNet(order, legs))
  {
    if legs == [] {
    } else {
      hide Times, PerSet, SignedQuantity;
      var init, last, factor := legs[..|legs| - 1], legs[|legs| - 1], sets / order.quantity;
      NetIsScaled(order, init, sets);
      ValueAppend(Held(order, init, sets), HeldLeg(order, last, sets), 0.0);
      ShareOfTheOrder(order, last, sets);
      TimesAdd(factor, RawNet(order, init), if last.symbol.contract.call then SignedQuantity(order, last) else 0.0);
      TimesZero(factor);
    }
  }

  lemma ShareOfTheOrder(order: Order, leg: OrderLeg, sets: real)
    requires order.quantity > 0.0 && leg.symbol.Option?
    ensures HeldLeg(order, leg, sets).held == Times(sets / order.quantity, SignedQuantity(order, leg))
  {
    var q := order.quantity;
    var n := if leg.quantity <= 0.0 then q else leg.quantity;
    var share, factor := n / q, sets / q;
    calc {
      share * sets;
      share * (factor * q);
      factor * (share * q);
      factor * n;
    }
  }

  /** A sound order loses without end at no price; an unbounded one does. */
  lemma UnboundedLosesForever(order: Order, price: real, bound: real)
    requires Known(order) && IsUnbounded(order)
    ensures exists s :: s >= 0.0 && FillWorth(order, Remaining(order), price, AtOnce(s)) < bound
  {
    UnboundedIsTheSlope(order);
    hide Value, NetCalls, LegsWorth;
    var s := FallsForever(Resting(order), bound + price * 100.0 * Remaining(order));
    WorthAtOnce(order, order.legs, Remaining(order), s);
    assert FillWorth(order, Remaining(order), price, AtOnce(s)) < bound;
  }

  // ---------- one price or one for each series ----------

  /** All the legs expire together, against one underlying. */
  predicate OneSeries(order: Order) {
    forall leg, other :: leg in order.legs && other in order.legs && leg.symbol.Option? && other.symbol.Option? ==>
      leg.symbol.contract.series == other.symbol.contract.series
  }

  lemma {:induction false} SamePriceSameWorth(order: Order, legs: seq<OrderLeg>, sets: real, prices: Prices, s: real)
    requires order.quantity > 0.0
    requires forall leg :: leg in legs ==> leg.symbol.Option? && prices(leg.symbol.contract.series) == s
    ensures LegsWorth(order, legs, sets, prices) == LegsWorth(order, legs, sets, AtOnce(s))
  {
    if legs == [] {
    } else {
      SamePriceSameWorth(order, legs[..|legs| - 1], sets, prices, s);
    }
  }

  /** For those the worst case is a bound at every settlement. */
  lemma OneSeriesIsBounded(order: Order, price: real, worst: real)
    requires Known(order) && OneSeries(order) && IsWorstFill(order, price, worst)
    ensures BoundsEverySettlement(order, price, worst)
  {
    hide LegsWorth;
    forall prices: Prices | NonNegative(prices) ensures FillWorth(order, Remaining(order), price, prices) >= worst {
      var s := prices(order.legs[0].symbol.contract.series);
      SamePriceSameWorth(order, order.legs, Remaining(order), prices, s);
      assert FillWorth(order, Remaining(order), price, AtOnce(s)) >= worst;
    }
  }

  /** The legs under their own series, as the account's positions are laid out. */
  ghost function Lines(order: Order, legs: seq<OrderLeg>, sets: real): seq<Groups.Line>
    requires order.quantity > 0.0
    requires forall leg :: leg in legs ==> leg.symbol.Option?
  {
    if legs == [] then []
    else
      var last := legs[|legs| - 1];
      Lines(order, legs[..|legs| - 1], sets) + [Groups.Line(last.symbol.contract.series, HeldLeg(order, last, sets), 0.0)]
  }

  lemma {:induction false} LinesAreWorthTheLegs(order: Order, legs: seq<OrderLeg>, sets: real, prices: Prices)
    requires order.quantity > 0.0
    requires forall leg :: leg in legs ==> leg.symbol.Option?
    ensures Groups.Worth(Lines(order, legs, sets), prices) == LegsWorth(order, legs, sets, prices)
  {
    hide LegValue, HeldLeg;
    if legs == [] {
    } else {
      var init := legs[..|legs| - 1];
      LinesAreWorthTheLegs(order, init, sets, prices);
      assert Lines(order, legs, sets)[..|Lines(order, init, sets)|] == Lines(order, init, sets);
      Groups.OnlyOwnSeriesMatter(Lines(order, init, sets), Groups.SeriesOf(Lines(order, legs, sets)), prices);
    }
  }

  ghost function RestingLines(order: Order): seq<Groups.Line>
    requires Known(order)
  {
    Lines(order, order.legs, Remaining(order))
  }

  /** The series of the order, each settled where it is worth least, are worth `total`. */
  ghost predicate LeastApart(order: Order, low: Prices, total: real)
    requires Known(order)
  {
    var lines := RestingLines(order);
    && Groups.LeastOver(lines, Groups.SeriesOf(lines), low, total)
    && forall k :: k in Groups.SeriesOf(lines) ==> Probe(Groups.Legs(Groups.LinesOf(lines, k)), low(k))
  }

  ghost predicate SomeSeriesNetShort(order: Order)
    requires Known(order)
  {
    !Groups.NoSeriesNetShortCalls(RestingLines(order))
  }

  lemma FillIsOfTheLines(order: Order, price: real, prices: Prices)
    requires Known(order)
    ensures FillWorth(order, Remaining(order), price, prices) ==
            Groups.Worth(RestingLines(order), prices) - price * 100.0 * Remaining(order)
  {
    hide LegsWorth, Lines, Groups.Worth;
    LinesAreWorthTheLegs(order, order.legs, Remaining(order), prices);
  }

  /** An order with a series net short calls is bounded by no number. */
  lemma NetShortIsUnbounded(order: Order, price: real, bound: real)
    requires Known(order) && SomeSeriesNetShort(order)
    ensures exists prices: Prices :: NonNegative(prices) && FillWorth(order, Remaining(order), price, prices) < bound
  {
    var lines, paid := RestingLines(order), price * 100.0 * Remaining(order);
    hide FillWorth, RestingLines, NetCalls, Groups.Worth, Known;
    var k :| k in Groups.SeriesOf(lines) && NetCalls(Groups.Legs(Groups.LinesOf(lines, k))) < 0.0;
    Groups.NetShortCallsSinkForever(lines, k);
    assert Groups.Sinks(lines, bound + paid);
    var prices: Prices :| NonNegative(prices) && Groups.Worth(lines, prices) < bound + paid;
    FillIsOfTheLines(order, price, prices);
  }

  lemma LeastApartDecides(order: Order, price: real, worst: real, low: Prices, total: real)
    requires Known(order) && LeastApart(order, low, total)
    ensures BoundsEverySettlement(order, price, worst) <==> total - price * 100.0 * Remaining(order) >= worst
  {
    hide FillWorth, RestingLines, Groups.SeriesOf, Groups.WorthIn, Probe, Known;
    forall prices: Prices
      ensures FillWorth(order, Remaining(order), price, prices) ==
              Groups.Worth(RestingLines(order), prices) - price * 100.0 * Remaining(order)
    {
      FillIsOfTheLines(order, price, prices);
    }
  }

  /** Exactly when a number bounds what the account can lose on an order: no series of it is
      net short calls, and the least values of its series, each found at a probe of its own,
      add up to no less than the number and the price paid. */
  lemma BoundsExactlyWhen(order: Order, price: real, worst: real) returns (low: Prices, total: real)
    requires Known(order)
    ensures SomeSeriesNetShort(order) || LeastApart(order, low, total)
    ensures BoundsEverySettlement(order, price, worst) <==>
            !SomeSeriesNetShort(order) && total - price * 100.0 * Remaining(order) >= worst
  {
    hide RestingLines, FillWorth, Groups.LeastOver, NetCalls, Probe;
    if SomeSeriesNetShort(order) {
      low, total := AtOnce(0.0), 0.0;
      NetShortIsUnbounded(order, price, worst);
    } else {
      var lines := RestingLines(order);
      low, total := Groups.LeastOfAll(lines, Groups.SeriesOf(lines));
      LeastApartDecides(order, price, worst, low, total);
    }
  }

  /** The check for a loss without a floor is exact for an order of one series. Across several
      what it names is net short somewhere, but it does not name all that is. */
  lemma UnboundedMeansNetShort(order: Order)
    requires Known(order)
    ensures IsUnbounded(order) ==> SomeSeriesNetShort(order)
    ensures OneSeries(order) ==> (IsUnbounded(order) <==> SomeSeriesNetShort(order))
  {
    hide FillWorth, IsUnbounded, SomeSeriesNetShort, OneSeries, Known, LeastApart, IsWorstFill;
    if IsUnbounded(order) {
      var low, total := BoundsExactlyWhen(order, 0.0, 0.0);
      var worst := total - 0.0 * 100.0 * Remaining(order);
      UnboundedLosesForever(order, 0.0, worst);
      if !SomeSeriesNetShort(order) {
        LeastApartDecides(order, 0.0, worst, low, total);
      }
    } else if OneSeries(order) && SomeSeriesNetShort(order) {
      var worst := SomeWorstFill(order, 0.0);
      OneSeriesIsBounded(order, 0.0, worst);
      NetShortIsUnbounded(order, 0.0, worst);
    }
  }

  /** An order that is not called unbounded has a worst case. */
  lemma SomeWorstFill(order: Order, price: real) returns (worst: real)
    requires Known(order) && !IsUnbounded(order)
    ensures IsWorstFill(order, price, worst)
  {
    hide NetCalls, IsWorstFill, Groups.GroupWorth;
    UnboundedIsTheSlope(order);
    LinesAreTheLegs(Resting(order));
    var lines, settled := AsLines(Resting(order)), -price * 100.0 * Remaining(order);
    var lowest := Groups.LowestProbe(lines);
    var least := Groups.GroupWorth(lines, lowest);
    LeastIsWorstFill(order, price, lowest, least, settled);
    worst := if least + settled < 0.0 then least + settled else 0.0;
  }

  lemma TwoLegs(order: Order, one: OrderLeg, two: OrderLeg, sets: real, prices: Prices)
    requires order.quantity > 0.0 && one.symbol.Option? && two.symbol.Option?
    ensures LegsWorth(order, [one, two], sets, prices) ==
            LegValue(HeldLeg(order, one, sets), prices(one.symbol.contract.series)) +
            LegValue(HeldLeg(order, two, sets), prices(two.symbol.contract.series))
    ensures Lines(order, [one, two], sets) == [
              Groups.Line(one.symbol.contract.series, HeldLeg(order, one, sets), 0.0),
              Groups.Line(two.symbol.contract.series, HeldLeg(order, two, sets), 0.0)]
    ensures RawNet(order, [one, two]) ==
            (if one.symbol.contract.call then SignedQuantity(order, one) else 0.0) +
            (if two.symbol.contract.call then SignedQuantity(order, two) else 0.0)
  {
    hide LegValue, HeldLeg, SignedQuantity;
    assert [one, two][..1] == [one] && [one][..0] == [];
    assert LegsWorth(order, [], sets, prices) == 0.0 && Lines(order, [], sets) == [] && RawNet(order, []) == 0.0;
    assert LegsWorth(order, [one], sets, prices) == LegValue(HeldLeg(order, one, sets), prices(one.symbol.contract.series));
    assert Lines(order, [one], sets) == [Groups.Line(one.symbol.contract.series, HeldLeg(order, one, sets), 0.0)];
    assert RawNet(order, [one]) == if one.symbol.contract.call then SignedQuantity(order, one) else 0.0;
  }

  /** Of two lines in different series a call sold is a series net short calls. */
  lemma ShortAlone(sold: Groups.Line, other: Groups.Line)
    requires sold.series != other.series && sold.leg.call && sold.leg.held < 0.0
    ensures !Groups.NoSeriesNetShortCalls([sold, other])
  {
    Groups.Append([], sold, sold.series);
    Groups.Append([sold], other, sold.series);
    Groups.LegsAppend([], sold, 0.0);
    assert [] + [sold] == [sold] && [sold] + [other] == [sold, other];
    assert sold.series in Groups.SeriesOf([sold, other]) && Groups.LinesOf([sold, other], sold.series) == [sold];
  }

  const SOLD := OrderLeg(Symbol.Option(Contract(Series("SPY", 1), true, 100.0)), Sell, 1.0, 1.0, ToOpen)
  const BOUGHT := OrderLeg(Symbol.Option(Contract(Series("SPY", 2), true, 100.0)), Buy, 1.0, 1.0, ToOpen)

  /** One call sold for a day and one bought for the next, at one strike, for half a dollar. */
  const CALENDAR := Order("one", "", true, true, Some(0), 1.0, 0.0, 50, [SOLD, BOUGHT])

  /** It can be read, is not called unbounded, and its worst case is the price paid; but the
      day that comes first is net short a call. */
  lemma TheCalendarIsJudgedAtOnePrice(read: Reader)
    ensures Known(CALENDAR) && Remaining(CALENDAR) == 1.0 && !IsUnbounded(CALENDAR)
    ensures WorstPrice(CALENDAR, read) == 0.5 && IsWorstFill(CALENDAR, 0.5, -50.0)
    ensures SomeSeriesNetShort(CALENDAR)
  {
    hide LegsWorth, Lines, RawNet, LegValue, Groups.NoSeriesNetShortCalls;
    assert PerSet(CALENDAR, SOLD) == -1.0 && PerSet(CALENDAR, BOUGHT) == 1.0;
    forall s: real ensures FillWorth(CALENDAR, 1.0, 0.5, AtOnce(s)) == -50.0 {
      TwoLegs(CALENDAR, SOLD, BOUGHT, 1.0, AtOnce(s));
      Opposite(SOLD.symbol.contract.strike, s);
    }
    TwoLegs(CALENDAR, SOLD, BOUGHT, 1.0, AtOnce(0.0));
    ShortAlone(RestingLines(CALENDAR)[0], RestingLines(CALENDAR)[1]);
  }

  lemma Opposite(strike: real, s: real)
    ensures LegValue(Leg(true, strike, -1.0), s) + LegValue(Leg(true, strike, 1.0), s) == 0.0
  {
  }

  // ---------- the bound over a whole walk ----------

  /** Some sets filled at some price. */
  datatype Fill = Fill(sets: real, price: real)

  function Sets(fills: seq<Fill>): real {
    if fills == [] then 0.0 else Sets(fills[..|fills| - 1]) + fills[|fills| - 1].sets
  }

  /** What all the fills together are worth, settled at these prices. */
  ghost function FillsWorth(order: Order, fills: seq<Fill>, prices: Prices): real
    requires Known(order)
  {
    if fills == [] then 0.0
    else
      var last := fills[|fills| - 1];
      FillsWorth(order, fills[..|fills| - 1], prices) + FillWorth(order, last.sets, last.price, prices)
  }

  lemma {:induction false} WorthIsScaled(order: Order, legs: seq<OrderLeg>, sets: real, prices: Prices)
    requires order.quantity > 0.0
    requires forall leg :: leg in legs ==> leg.symbol.Option?
    ensures LegsWorth(order, legs, sets, prices) == Times(sets, LegsWorth(order, legs, 1.0, prices))
  {
    TimesZero(sets);
    if legs == [] {
    } else {
      hide Times, PerSet, LegValue, HeldLeg;
      var init, last := legs[..|legs| - 1], legs[|legs| - 1];
      var s := prices(last.symbol.contract.series);
      WorthIsScaled(order, init, sets, prices);
      LegIsScaled(order, last, sets, s);
      TimesAdd(sets, LegsWorth(order, init, 1.0, prices), LegValue(HeldLeg(order, last, 1.0), s));
    }
  }

  lemma LegIsScaled(order: Order, leg: OrderLeg, sets: real, s: real)
    requires order.quantity > 0.0 && leg.symbol.Option?
    ensures LegValue(HeldLeg(order, leg, sets), s) == Times(sets, LegValue(HeldLeg(order, leg, 1.0), s))
  {
    hide PerSet, Intrinsic;
    var c, held := leg.symbol.contract, PerSet(order, leg);
    var worth := Intrinsic(c.call, c.strike, s);
    calc {
      (held * sets) * 100.0 * worth;
      (sets * held) * (100.0 * worth);
      sets * (held * (100.0 * worth));
      sets * (held * 1.0 * 100.0 * worth);
    }
  }

  /** One set bought at `price`, at settlement. */
  ghost function SetWorth(order: Order, price: real, prices: Prices): real
    requires Known(order)
  {
    LegsWorth(order, order.legs, 1.0, prices) - price * 100.0
  }

  lemma FillIsSets(order: Order, sets: real, price: real, prices: Prices)
    requires Known(order)
    ensures FillWorth(order, sets, price, prices) == Times(sets, SetWorth(order, price, prices))
  {
    hide LegsWorth;
    WorthIsScaled(order, order.legs, sets, prices);
    TimesAdd(sets, LegsWorth(order, order.legs, 1.0, prices), -price * 100.0);
    assert sets * (-price * 100.0) == -price * 100.0 * sets;
  }

  /** Buying at or under the floor is worth no less than buying at it. */
  lemma {:induction false} FillsAtTheFloor(order: Order, fills: seq<Fill>, floor: real, prices: Prices)
    requires Known(order)
    requires forall i :: 0 <= i < |fills| ==> fills[i].sets >= 0.0 && fills[i].price <= floor
    ensures Sets(fills) >= 0.0
    ensures FillsWorth(order, fills, prices) >= Times(SetWorth(order, floor, prices), Sets(fills))
  {
    TimesZero(SetWorth(order, floor, prices));
    if fills == [] {
    } else {
      hide SetWorth, FillWorth, Times;
      var init, last := fills[..|fills| - 1], fills[|fills| - 1];
      FillsAtTheFloor(order, init, floor, prices);
      FillIsSets(order, last.sets, last.price, prices);
      CheaperIsBetter(order, last.price, floor, last.sets, prices);
      TimesAdd(SetWorth(order, floor, prices), Sets(init), last.sets);
    }
  }

  lemma CheaperIsBetter(order: Order, price: real, floor: real, sets: real, prices: Prices)
    requires Known(order) && price <= floor && sets >= 0.0
    ensures Times(sets, SetWorth(order, price, prices)) >= Times(SetWorth(order, floor, prices), sets)
  {
    hide LegsWorth;
    var low, high := SetWorth(order, floor, prices), SetWorth(order, price, prices);
    assert high >= low;
    assert sets * (high - low) >= 0.0;
  }

  /** However the order is filled - in parts, at any prices at or under its floor, in any
      number of replacements sharing what rested - everything filled together loses no more
      than a bound on what rested, at whatever price each series is settled. */
  lemma {:induction false} LossOverAWholeWalk(order: Order, price: real, worst: real, fills: seq<Fill>, prices: Prices)
    requires Known(order) && worst <= 0.0 && BoundsEverySettlement(order, price, worst)
    requires forall i :: 0 <= i < |fills| ==> fills[i].sets >= 0.0 && fills[i].price <= price
    requires Sets(fills) <= Remaining(order) && NonNegative(prices)
    ensures FillsWorth(order, fills, prices) >= worst
  {
    hide SetWorth, FillsWorth, Sets, FillWorth, Times;
    var sets, all := Sets(fills), Remaining(order);
    FillsAtTheFloor(order, fills, price, prices);
    FillIsSets(order, all, price, prices);
    PartOfALoss(sets, all, SetWorth(order, price, prices), worst);
    TimesCommutes(all, SetWorth(order, price, prices));
  }

  lemma PartOfALoss(part: real, all: real, each: real, worst: real)
    requires 0.0 <= part <= all && worst <= 0.0 && Times(all, each) >= worst
    ensures Times(each, part) >= worst
  {
    if each >= 0.0 {
      assert part * each >= 0.0;
    } else {
      assert (all - part) * each <= 0.0;
    }
  }

  /** The same order under another name and limit. */
  predicate OnlyRenamed(order: Order, next: Order) {
    next.legs == order.legs && next.quantity == order.quantity && next.filled == order.filled
  }

  /** The verdict is about the legs, what rests and the price it is judged at, not about
      where the order stands or what it is called. */
  lemma VerdictIgnoresTheName(order: Order, next: Order, read: Reader, worst: real)
    requires OnlyRenamed(order, next) && WorstPrice(next, read) == WorstPrice(order, read)
    requires Known(order) && IsWorstFill(order, WorstPrice(order, read), worst)
    ensures Known(next) && IsWorstFill(next, WorstPrice(next, read), worst)
    ensures IsUnbounded(next) == IsUnbounded(order)
  {
    hide LegsWorth, WorstPrice, NetCalls, Held;
    var price, sets := WorstPrice(order, read), Remaining(order);
    WorthIgnoresTheLimit(order, next, order.legs, sets, AtOnce(0.0));
    forall prices: Prices ensures FillWorth(next, sets, price, prices) == FillWorth(order, sets, price, prices) {
      WorthIgnoresTheLimit(order, next, order.legs, sets, prices);
    }
    UnboundedIsTheSlope(order);
    UnboundedIsTheSlope(next);
  }

  /** Conceding the limit does not move the verdict while the floor is still in the name. */
  lemma VerdictSurvivesConceding(order: Order, read: Reader, limit: int, at: Nanoseconds, worst: real)
    requires ReadsDecimals(read)
    requires Known(order) && IsWorstFill(order, WorstPrice(order, read), worst)
    requires Floor(order.name, read).Some?
    requires Fits(Kept(order.name), at) || Fits(NameFor(Floor(order.name, read).value), at)
    ensures var next := order.(limit := limit, name := NameCarrying(order.name, at, read));
            Known(next) && WorstPrice(next, read) == WorstPrice(order, read) &&
            IsWorstFill(next, WorstPrice(next, read), worst) && IsUnbounded(next) == IsUnbounded(order)
  {
    hide Floor, NameCarrying, Fits, Kept, IsWorstFill, IsUnbounded;
    FloorSurvivesRenaming(order.name, at, read);
    VerdictIgnoresTheName(order, order.(limit := limit, name := NameCarrying(order.name, at, read)), read, worst);
  }

  lemma {:induction false} WorthIgnoresTheLimit(order: Order, next: Order, legs: seq<OrderLeg>, sets: real, prices: Prices)
    requires order.quantity > 0.0 && next.quantity == order.quantity
    requires forall leg :: leg in legs ==> leg.symbol.Option?
    ensures Held(next, legs, sets) == Held(order, legs, sets)
    ensures LegsWorth(next, legs, sets, prices) == LegsWorth(order, legs, sets, prices)
  {
    if legs == [] {
    } else {
      hide LegValue;
      WorthIgnoresTheLimit(order, next, legs[..|legs| - 1], sets, prices);
      var last := legs[|legs| - 1];
      assert PerSet(next, last) == PerSet(order, last);
      assert HeldLeg(next, last, sets) == HeldLeg(order, last, sets);
    }
  }
}
