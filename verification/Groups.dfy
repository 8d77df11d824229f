/** Option lines laid out by series, and the least a book of them can be worth.

    Legs of different underlyings or days never offset each other at expiry, so the
    worst case is worked out series by series and added up. That the sum of the
    groups' least values is the least value over every independent choice of one
    price per series is what this module proves. */
module Groups {
  import opened Payoff
  import opened Contracts

  /** A leg, what it expires against, and what was paid for it. */
  datatype Line = Line(series: Series, leg: Leg, paid: real)

  function Legs(lines: seq<Line>): (legs: seq<Leg>) {
    if lines == [] then [] else Legs(lines[..|lines| - 1]) + [lines[|lines| - 1].leg]
  }

  function Paid(lines: seq<Line>): real {
    if lines == [] then 0.0 else Paid(lines[..|lines| - 1]) + lines[|lines| - 1].paid
  }

  /** What one group is worth with its underlying at `price`, what was paid for it taken off. */
  function GroupWorth(lines: seq<Line>, price: real): real {
    Value(Legs(lines), price) - Paid(lines)
  }

  lemma LegsAppend(lines: seq<Line>, line: Line, price: real)
    ensures Legs(lines + [line]) == Legs(lines) + [line.leg]
    ensures Paid(lines + [line]) == Paid(lines) + line.paid
    ensures GroupWorth(lines + [line], price) == GroupWorth(lines, price) + LegValue(line.leg, price) - line.paid
    ensures NetCalls(Legs(lines + [line])) == NetCalls(Legs(lines)) + if line.leg.call then line.leg.held else 0.0
  {
    assert (lines + [line])[..|lines|] == lines;
    ValueAppend(Legs(lines), line.leg, price);
  }

  /** The lines of one series, in the order they came. */
  function LinesOf(lines: seq<Line>, k: Series): seq<Line> {
    if lines == [] then []
    else
      var last := lines[|lines| - 1];
      LinesOf(lines[..|lines| - 1], k) + if last.series == k then [last] else []
  }

  function SeriesOf(lines: seq<Line>): set<Series> {
    if lines == [] then {} else SeriesOf(lines[..|lines| - 1]) + {lines[|lines| - 1].series}
  }

  /** The worth, at these prices, of those lines only whose series is in `done`. */
  ghost function WorthIn(lines: seq<Line>, done: set<Series>, prices: Prices): real {
    if lines == [] then 0.0
    else
      var last := lines[|lines| - 1];
      WorthIn(lines[..|lines| - 1], done, prices) +
      if last.series in done then LegValue(last.leg, prices(last.series)) - last.paid else 0.0
  }

  /** The worth of all the lines: one price per series. */
  ghost function Worth(lines: seq<Line>, prices: Prices): real {
    WorthIn(lines, SeriesOf(lines), prices)
  }

  /** Nowhere are more calls sold than bought. */
  ghost predicate NoSeriesNetShortCalls(lines: seq<Line>) {
    forall k :: k in SeriesOf(lines) ==> NetCalls(Legs(LinesOf(lines, k))) >= 0.0
  }

  lemma Append(lines: seq<Line>, line: Line, k: Series)
    ensures LinesOf(lines + [line], k) == LinesOf(lines, k) + if line.series == k then [line] else []
    ensures SeriesOf(lines + [line]) == SeriesOf(lines) + {line.series}
  {
    assert (lines + [line])[..|lines|] == lines;
  }

  lemma {:induction false} NoLinesElsewhere(lines: seq<Line>, k: Series)
    ensures k !in SeriesOf(lines) ==> LinesOf(lines, k) == []
  {
    if lines == [] {
    } else {
      NoLinesElsewhere(lines[..|lines| - 1], k);
    }
  }

  lemma NetCallsAppend(lines: seq<Line>, line: Line)
    ensures forall k :: NetCalls(Legs(LinesOf(lines + [line], k))) ==
                        NetCalls(Legs(LinesOf(lines, k))) + if line.series == k && line.leg.call then line.leg.held else 0.0
    ensures SeriesOf(lines + [line]) == SeriesOf(lines) + {line.series}
    ensures forall k :: k !in SeriesOf(lines) ==> NetCalls(Legs(LinesOf(lines, k))) == 0.0
  {
    forall k ensures NetCalls(Legs(LinesOf(lines + [line], k))) ==
                     NetCalls(Legs(LinesOf(lines, k))) + if line.series == k && line.leg.call then line.leg.held else 0.0
    {
      Append(lines, line, k);
      if line.series == k {
        LegsAppend(LinesOf(lines, k), line, 0.0);
      } else {
        assert LinesOf(lines, k) + [] == LinesOf(lines, k);
      }
    }
    Append(lines, line, line.series);
    forall k | k !in SeriesOf(lines) ensures NetCalls(Legs(LinesOf(lines, k))) == 0.0 {
      NoLinesElsewhere(lines, k);
    }
  }

  lemma {:induction false} AddSeries(lines: seq<Line>, done: set<Series>, k: Series, prices: Prices)
    requires k !in done
    ensures WorthIn(lines, done + {k}, prices) ==
            WorthIn(lines, done, prices) + GroupWorth(LinesOf(lines, k), prices(k))
  {
    hide LegValue, GroupWorth;
    if lines == [] {
      assert GroupWorth([], prices(k)) == 0.0 by { EmptyGroup(prices(k)); }
    } else {
      var init, last := lines[..|lines| - 1], lines[|lines| - 1];
      AddSeries(init, done, k, prices);
      if last.series == k {
        LegsAppend(LinesOf(init, k), last, prices(k));
      } else {
        assert LinesOf(lines, k) == LinesOf(init, k);
      }
    }
  }

  lemma EmptyGroup(price: real)
    ensures GroupWorth([], price) == 0.0
  {
  }

  lemma {:induction false} SamePricesSameWorth(lines: seq<Line>, done: set<Series>, prices: Prices, prices': Prices)
    requires forall k :: k in done ==> prices(k) == prices'(k)
    ensures WorthIn(lines, done, prices) == WorthIn(lines, done, prices')
  {
    if lines == [] {
    } else {
      SamePricesSameWorth(lines[..|lines| - 1], done, prices, prices');
    }
  }

  lemma {:induction false} OnlyOwnSeriesMatter(lines: seq<Line>, done: set<Series>, prices: Prices)
    requires SeriesOf(lines) <= done
    ensures WorthIn(lines, done, prices) == Worth(lines, prices)
  {
    if lines == [] {
    } else {
      var init := lines[..|lines| - 1];
      OnlyOwnSeriesMatter(init, done, prices);
      OnlyOwnSeriesMatter(init, SeriesOf(lines), prices);
    }
  }

  lemma {:induction false} NoSeriesIsNothing(lines: seq<Line>, prices: Prices)
    ensures WorthIn(lines, {}, prices) == 0.0
  {
    if lines == [] {
    } else {
      NoSeriesIsNothing(lines[..|lines| - 1], prices);
    }
  }

  /** At some prices the lines are worth less than the bound. */
  ghost predicate Sinks(lines: seq<Line>, bound: real) {
    exists prices: Prices :: NonNegative(prices) && Worth(lines, prices) < bound
  }

  /** One series with calls net sold is enough to lose without end. */
  lemma NetShortCallsSinkForever(lines: seq<Line>, k: Series)
    requires NetCalls(Legs(LinesOf(lines, k))) < 0.0
    ensures forall bound: real :: Sinks(lines, bound)
  {
    hide Value, NetCalls, LegValue;
    var flat: Prices := s => 0.0;
    var others, group := SeriesOf(lines) - {k}, LinesOf(lines, k);
    forall bound: real
      ensures Sinks(lines, bound)
    {
      var price := FallsForever(Legs(group), bound - WorthIn(lines, others, flat) + Paid(group));
      var prices := With(flat, k, price);
      AddSeries(lines, others, k, prices);
      SamePricesSameWorth(lines, others, flat, prices);
      OnlyOwnSeriesMatter(lines, others + {k}, prices);
      assert NonNegative(prices) && Worth(lines, prices) < bound;
    }
  }

  /** `total` is the least worth of these series together, and they reach it at `low`. */
  ghost predicate LeastOver(lines: seq<Line>, done: set<Series>, low: Prices, total: real) {
    && NonNegative(low) && WorthIn(lines, done, low) == total
    && forall prices: Prices :: NonNegative(prices) ==> WorthIn(lines, done, prices) >= total
  }

  /** `least` is the least worth of the group, and it is reached at `lowest`. */
  ghost predicate LeastOfGroup(group: seq<Line>, lowest: real, least: real) {
    && lowest >= 0.0 && GroupWorth(group, lowest) == least
    && forall price :: price >= 0.0 ==> GroupWorth(group, price) >= least
  }

  lemma ProbesFindTheLeast(group: seq<Line>, lowest: real, least: real)
    requires NetCalls(Legs(group)) >= 0.0
    requires lowest >= 0.0 && least == GroupWorth(group, lowest)
    requires forall s :: Probe(Legs(group), s) && s >= 0.0 ==> least <= GroupWorth(group, s)
    ensures LeastOfGroup(group, lowest, least)
  {
    hide Value, NetCalls, Probe;
    forall price | price >= 0.0 ensures GroupWorth(group, price) >= least {
      var worse := ProbesSuffice(Legs(group), price);
    }
  }

  lemma LeastOverOneMore(lines: seq<Line>, done: set<Series>, low: Prices, total: real,
                         k: Series, lowest: real, least: real)
    requires k !in done && LeastOver(lines, done, low, total)
    requires LeastOfGroup(LinesOf(lines, k), lowest, least)
    ensures LeastOver(lines, done + {k}, With(low, k, lowest), total + least)
  {
    hide WorthIn, LinesOf, GroupWorth;
    forall prices: Prices | NonNegative(prices)
      ensures WorthIn(lines, done + {k}, prices) >= total + least
    {
      AddSeries(lines, done, k, prices);
    }
    var low' := With(low, k, lowest);
    AddSeries(lines, done, k, low');
    SamePricesSameWorth(lines, done, low, low');
  }

  lemma LeastOverNone(lines: seq<Line>)
    ensures LeastOver(lines, {}, s => 0.0, 0.0)
  {
    forall prices: Prices ensures WorthIn(lines, {}, prices) == 0.0 {
      NoSeriesIsNothing(lines, prices);
    }
  }

  /** A group with calls not net sold is worth least at one of its probes. */
  lemma LowestProbe(group: seq<Line>) returns (lowest: real)
    requires NetCalls(Legs(group)) >= 0.0
    ensures Probe(Legs(group), lowest) && LeastOfGroup(group, lowest, GroupWorth(group, lowest))
  {
    hide GroupWorth, NetCalls, Legs;
    var legs := Legs(group);
    lowest := 0.0;
    for i := 0 to |legs|
      invariant Probe(legs, lowest) && lowest >= 0.0 && GroupWorth(group, lowest) <= GroupWorth(group, 0.0)
      invariant forall j :: 0 <= j < i && legs[j].strike >= 0.0 ==>
                  GroupWorth(group, lowest) <= GroupWorth(group, legs[j].strike)
    {
      if legs[i].strike >= 0.0 && GroupWorth(group, legs[i].strike) < GroupWorth(group, lowest) {
        lowest := legs[i].strike;
      }
    }
    ProbesFindTheLeast(group, lowest, GroupWorth(group, lowest));
  }

  /** Series with calls nowhere net sold have a least worth together, and have it with each of
      them at its own lowest probe. */
  lemma {:induction false} LeastOfAll(lines: seq<Line>, done: set<Series>) returns (low: Prices, total: real)
    requires forall k :: k in done ==> NetCalls(Legs(LinesOf(lines, k))) >= 0.0
    ensures LeastOver(lines, done, low, total)
    ensures forall k :: k in done ==> Probe(Legs(LinesOf(lines, k)), low(k))
    decreases |done|
  {
    hide LinesOf, LeastOver, GroupWorth, NetCalls, Probe;
    if done == {} {
      LeastOverNone(lines);
      low, total := s => 0.0, 0.0;
    } else {
      var k :| k in done;
      var before, sum := LeastOfAll(lines, done - {k});
      var lowest := LowestProbe(LinesOf(lines, k));
      LeastOverOneMore(lines, done - {k}, before, sum, k, lowest, GroupWorth(LinesOf(lines, k), lowest));
      low, total := With(before, k, lowest), sum + GroupWorth(LinesOf(lines, k), lowest);
      assert done - {k} + {k} == done;
    }
  }

  lemma {:induction false} StrikesArePositive(lines: seq<Line>, k: Series)
    requires forall i :: 0 <= i < |lines| ==> lines[i].leg.strike > 0.0
    ensures forall i :: 0 <= i < |Legs(LinesOf(lines, k))| ==> Legs(LinesOf(lines, k))[i].strike > 0.0
  {
    if lines == [] {
    } else {
      var init, last := lines[..|lines| - 1], lines[|lines| - 1];
      StrikesArePositive(init, k);
      LegsAppend(LinesOf(init, k), last, 0.0);
      assert LinesOf(init, k) + [] == LinesOf(init, k);
    }
  }

  // ---------- the map the code builds ----------

  ghost predicate LaidOut(laid: map<Series, seq<Line>>, lines: seq<Line>) {
    && laid.Keys == SeriesOf(lines)
    && forall k :: k in laid ==> laid[k] == LinesOf(lines, k)
  }

  lemma NothingLaidOut()
    ensures LaidOut(map[], []) && SeriesOf([]) == {}
    ensures forall k :: NetCalls(Legs(LinesOf([], k))) == 0.0
  {
  }

  lemma WhatIsLaidOut(laid: map<Series, seq<Line>>, lines: seq<Line>)
    requires LaidOut(laid, lines)
    ensures laid.Keys == SeriesOf(lines)
  {
  }

  lemma GroupLaidOut(laid: map<Series, seq<Line>>, lines: seq<Line>, k: Series)
    requires LaidOut(laid, lines) && k in laid
    requires forall i :: 0 <= i < |lines| ==> lines[i].leg.strike > 0.0
    ensures laid[k] == LinesOf(lines, k)
    ensures forall i :: 0 <= i < |Legs(laid[k])| ==> Legs(laid[k])[i].strike > 0.0
  {
    StrikesArePositive(lines, k);
  }

  function Lay(laid: map<Series, seq<Line>>, line: Line): map<Series, seq<Line>> {
    laid[line.series := (if line.series in laid then laid[line.series] else []) + [line]]
  }

  lemma LayKeepsLaidOut(laid: map<Series, seq<Line>>, lines: seq<Line>, line: Line)
    requires LaidOut(laid, lines)
    ensures LaidOut(Lay(laid, line), lines + [line])
  {
    forall k ensures LinesOf(lines + [line], k) == LinesOf(lines, k) + if line.series == k then [line] else [] {
      Append(lines, line, k);
      NoLinesElsewhere(lines, k);
    }
    Append(lines, line, line.series);
    NoLinesElsewhere(lines, line.series);
  }

  /** The series still to be visited and those already done. */
  ghost predicate Parts(left: set<Series>, done: set<Series>, all: set<Series>) {
    left + done == all && left !! done
  }

  lemma PartsAtFirst(all: set<Series>)
    ensures Parts(all, {}, all)
  {
  }

  lemma PartsMove(left: set<Series>, done: set<Series>, all: set<Series>, k: Series)
    requires Parts(left, done, all) && k in left
    ensures k !in done && k in all && Parts(left - {k}, done + {k}, all)
  {
  }

  lemma PartsAtLast(done: set<Series>, all: set<Series>)
    requires Parts({}, done, all)
    ensures done == all
  {
  }

  // ---------- loops over one group ----------

  method WorthAtPrice(group: seq<Line>, price: real) returns (worth: real)
    ensures worth == GroupWorth(group, price)
  {
    hide GroupWorth, Value, Legs, Paid, NetCalls, Intrinsic;
    worth := 0.0;
    EmptyGroup(price);
    assert group[..0] == [];
    for i := 0 to |group|
      invariant worth == GroupWorth(group[..i], price)
    {
      var leg := group[i].leg;
      worth := worth + leg.held * 100.0 * Intrinsic(leg.call, leg.strike, price) - group[i].paid;
      assert group[..i + 1] == group[..i] + [group[i]];
      LegsAppend(group[..i], group[i], price);
    }
    assert group[..|group|] == group;
  }

  method LeastAtPoints(group: seq<Line>, points: seq<real>) returns (least: real, ghost lowest: real)
    requires points != []
    ensures lowest in points && least == GroupWorth(group, lowest)
    ensures forall s :: s in points ==> least <= GroupWorth(group, s)
  {
    least := WorthAtPrice(group, points[0]);
    lowest := points[0];
    for i := 1 to |points|
      invariant lowest in points && least == GroupWorth(group, lowest)
      invariant forall j :: 0 <= j < i ==> least <= GroupWorth(group, points[j])
    {
      var worth := WorthAtPrice(group, points[i]);
      if worth < least {
        least, lowest := worth, points[i];
      }
    }
  }

  /** Zero, every strike, and one point at or past the highest of them. */
  lemma PointsHoldEveryProbe(legs: seq<Leg>, past: real)
    ensures forall s :: Probe(legs, s) ==> s in [0.0] + Strikes(legs) + [past]
  {
    forall s | Probe(legs, s) ensures s in [0.0] + Strikes(legs) + [past] {
      if s != 0.0 {
        var i :| 0 <= i < |legs| && legs[i].strike == s;
        assert ([0.0] + Strikes(legs))[1 + i] == s;
      }
    }
  }

  method CallsNet(group: seq<Line>) returns (net: real)
    ensures net == NetCalls(Legs(group))
  {
    net := 0.0;
    for i := 0 to |group|
      invariant net == NetCalls(Legs(group[..i]))
    {
      if group[i].leg.call {
        net := net + group[i].leg.held;
      }
      assert group[..i + 1] == group[..i] + [group[i]];
      LegsAppend(group[..i], group[i], 0.0);
    }
    assert group[..|group|] == group;
  }
}
