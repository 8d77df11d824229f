/** What everything open can lose at expiry, as the execution ladder asks it.

    Money already settled counts here, a group that can only make money offsets
    nothing, and the far probe sits at twice the highest strike. */
module Exposure {
  import opened Payoff
  import opened Contracts
  import opened Groups

  /** A position as the broker lists it: a credit has a negative cost basis. */
  datatype Position = Position(symbol: Symbol, quantity: real, costBasis: real)

  function LineOf(p: Position): Line
    requires p.symbol.Option?
  {
    var c := p.symbol.contract;
    Line(c.series, Leg(c.call, c.strike, p.quantity), p.costBasis)
  }

  /** Anything that is not an option is skipped rather than guessed at. */
  ghost function Lines(ps: seq<Position>): seq<Line> {
    if ps == [] then []
    else
      var last := ps[|ps| - 1];
      Lines(ps[..|ps| - 1]) + if last.symbol.Option? then [LineOf(last)] else []
  }

  lemma LinesAppend(ps: seq<Position>, p: Position)
    ensures p.symbol.Option? ==> Lines(ps + [p]) == Lines(ps) + [LineOf(p)]
    ensures p.symbol.Ticker? ==> Lines(ps + [p]) == Lines(ps)
  {
    assert (ps + [p])[..|ps|] == ps;
  }

  lemma {:induction false} StrikesArePositiveInLines(ps: seq<Position>)
    ensures forall i :: 0 <= i < |Lines(ps)| ==> Lines(ps)[i].leg.strike > 0.0
  {
    if ps == [] {
    } else {
      StrikesArePositiveInLines(ps[..|ps| - 1]);
    }
  }

  lemma NoLines()
    ensures Lines([]) == []
  {
  }

  method Grouped(ps: seq<Position>) returns (groups: map<Series, seq<Line>>)
    ensures LaidOut(groups, Lines(ps))
  {
    hide LaidOut, Lay, Lines, LineOf;
    groups := map[];
    NoLines();
    NothingLaidOut();
    assert ps[..0] == [];
    for i := 0 to |ps|
      invariant LaidOut(groups, Lines(ps[..i]))
    {
      assert ps[..i + 1] == ps[..i] + [ps[i]];
      LinesAppend(ps[..i], ps[i]);
      if ps[i].symbol.Option? {
        LayKeepsLaidOut(groups, Lines(ps[..i]), LineOf(ps[i]));
        groups := Lay(groups, LineOf(ps[i]));
      }
    }
    assert ps[..|ps|] == ps;
  }

  /** What one group is worth at its worst probe, money already settled included. */
  method WorstAtExpiry(group: seq<Line>) returns (worst: real, ghost lowest: real)
    requires forall i :: 0 <= i < |Legs(group)| ==> Legs(group)[i].strike > 0.0
    ensures lowest >= 0.0 && worst == GroupWorth(group, lowest)
    ensures forall s :: Probe(Legs(group), s) ==> worst <= GroupWorth(group, s)
    ensures NetCalls(Legs(group)) >= 0.0 ==> LeastOfGroup(group, lowest, worst)
  {
    hide NetCalls, Probe, GroupWorth, LeastOfGroup;
    var legs := Legs(group);
    var far := HighestStrike(legs) * 2.0;
    var points := [0.0] + Strikes(legs) + [far];
    worst, lowest := LeastAtPoints(group, points);
    PointsHoldEveryProbe(legs, far);
    if NetCalls(legs) >= 0.0 {
      ProbesFindTheLeast(group, lowest, worst);
    }
  }

  /** However many of the series, at whatever prices, they are worth no less than
      `total` - and some of them, at some prices, are worth exactly that. */
  ghost predicate LeastOfAnySeries(lines: seq<Line>, done: set<Series>, losing: set<Series>, low: Prices, total: real) {
    && NonNegative(low) && losing <= done && WorthIn(lines, losing, low) == total
    && forall prices: Prices, some: set<Series> :: NonNegative(prices) && some <= done ==>
         WorthIn(lines, some, prices) >= total
  }

  lemma LeastOneMore(lines: seq<Line>, done: set<Series>, losing: set<Series>, low: Prices, total: real,
                     k: Series, lowest: real, least: real)
    requires k !in done && LeastOfAnySeries(lines, done, losing, low, total)
    requires LeastOfGroup(LinesOf(lines, k), lowest, least)
    ensures least < 0.0 ==> LeastOfAnySeries(lines, done + {k}, losing + {k}, With(low, k, lowest), total + least)
    ensures least >= 0.0 ==> LeastOfAnySeries(lines, done + {k}, losing, low, total)
  {
    hide WorthIn, LinesOf, GroupWorth;
    forall prices: Prices, some: set<Series> | NonNegative(prices) && some <= done + {k}
      ensures WorthIn(lines, some, prices) >= total + if least < 0.0 then least else 0.0
    {
      var rest := some - {k};
      if k in some {
        AddSeries(lines, rest, k, prices);
        assert rest + {k} == some;
      } else {
        assert some == rest;
      }
    }
    var low' := With(low, k, lowest);
    AddSeries(lines, losing, k, low');
    SamePricesSameWorth(lines, losing, low, low');
  }

  lemma LeastOfNone(lines: seq<Line>)
    ensures LeastOfAnySeries(lines, {}, {}, s => 0.0, 0.0)
  {
    forall prices: Prices, some: set<Series> | some <= {} ensures WorthIn(lines, some, prices) == 0.0 {
      assert some == {};
      NoSeriesIsNothing(lines, prices);
    }
  }

  /** `risk` bounds the loss of any of the series at any prices, and is reached. */
  ghost predicate IsRisk(lines: seq<Line>, risk: real) {
    && risk >= 0.0
    && (forall prices: Prices, some: set<Series> :: NonNegative(prices) && some <= SeriesOf(lines) ==>
         WorthIn(lines, some, prices) >= -risk)
    && exists prices: Prices, some: set<Series> :: NonNegative(prices) && some <= SeriesOf(lines) &&
         WorthIn(lines, some, prices) == -risk
  }

  /** The most everything open can lose. Exact while no series is left net short calls;
      where one is, it is only a number, and `WithoutAFloor` is what says so. */
  method AtRisk(ps: seq<Position>) returns (risk: real)
    ensures risk >= 0.0
    ensures NoSeriesNetShortCalls(Lines(ps)) ==> IsRisk(Lines(ps), risk)
  {
    hide *;
    var groups := Grouped(ps);
    ghost var lines := Lines(ps);
    StrikesArePositiveInLines(ps);
    WhatIsLaidOut(groups, lines);
    var left := groups.Keys;
    var total := 0.0;
    ghost var done: set<Series> := {};
    ghost var tally := NothingLost(lines);
    PartsAtFirst(left);
    while left != {}
      invariant Parts(left, done, SeriesOf(lines))
      invariant total == tally.total && IsTally(lines, done, tally)
      decreases |left|
    {
      var k :| k in left;
      PartsMove(left, done, SeriesOf(lines), k);
      left := left - {k};
      GroupLaidOut(groups, lines, k);
      var worst, lowest := WorstAtExpiry(groups[k]);
      tally := LostInOneMore(lines, done, tally, k, lowest, worst);
      done := done + {k};
      if worst < 0.0 {
        total := total + worst;
      }
    }
    PartsAtLast(done, SeriesOf(lines));
    TallyIsRisk(lines, tally);
    risk := -total;
  }

  /** The losing series found so far, the prices at which they lose, and how much. */
  datatype Tally = Tally(losing: set<Series>, low: Prices, total: real)

  ghost predicate IsTally(lines: seq<Line>, done: set<Series>, t: Tally) {
    && t.total <= 0.0
    && (NoSeriesNetShortCalls(lines) ==> LeastOfAnySeries(lines, done, t.losing, t.low, t.total))
  }

  lemma NothingLost(lines: seq<Line>) returns (t: Tally)
    ensures t.total == 0.0 && IsTally(lines, {}, t)
  {
    LeastOfNone(lines);
    t := Tally({}, s => 0.0, 0.0);
  }

  lemma LostInOneMore(lines: seq<Line>, done: set<Series>, t: Tally, k: Series, lowest: real, worst: real)
    returns (t': Tally)
    requires k in SeriesOf(lines) && k !in done && IsTally(lines, done, t)
    requires NetCalls(Legs(LinesOf(lines, k))) >= 0.0 ==> LeastOfGroup(LinesOf(lines, k), lowest, worst)
    ensures IsTally(lines, done + {k}, t')
    ensures t'.total == if worst < 0.0 then t.total + worst else t.total
  {
    hide LeastOfAnySeries, LeastOfGroup, SeriesOf, LinesOf, With;
    t' := if worst < 0.0 then Tally(t.losing + {k}, With(t.low, k, lowest), t.total + worst) else t;
    if NoSeriesNetShortCalls(lines) {
      LeastOneMore(lines, done, t.losing, t.low, t.total, k, lowest, worst);
    }
  }

  lemma TallyIsRisk(lines: seq<Line>, t: Tally)
    requires IsTally(lines, SeriesOf(lines), t)
    ensures t.total <= 0.0
    ensures NoSeriesNetShortCalls(lines) ==> IsRisk(lines, -t.total)
  {
  }

  /** The series left net short calls, in the order their first call came. */
  method WithoutAFloor(ps: seq<Position>) returns (without: seq<Series>)
    ensures without == [] <==> NoSeriesNetShortCalls(Lines(ps))
    ensures forall i :: 0 <= i < |without| ==> NetCalls(Legs(LinesOf(Lines(ps), without[i]))) < 0.0
    ensures forall bound: real :: without != [] ==> Sinks(Lines(ps), bound)
  {
    hide NetCalls, LinesOf, SeriesOf, Lines, LineOf, Sinks;
    var net, order := NetBySeries(ps);
    ghost var lines := Lines(ps);
    without := [];
    for i := 0 to |order|
      invariant without == [] <==> forall j :: 0 <= j < i ==> net[order[j]] >= 0.0
      invariant forall j :: 0 <= j < |without| ==> without[j] in net && net[without[j]] < 0.0
    {
      if net[order[i]] < 0.0 {
        without := without + [order[i]];
      }
    }
    if without != [] {
      NetShortCallsSinkForever(lines, without[0]);
      assert without[0] in SeriesOf(lines) by { NetShortIsThere(lines, without[0]); }
    } else {
      forall k | k in SeriesOf(lines) ensures NetCalls(Legs(LinesOf(lines, k))) >= 0.0 {
        if k in net {
          var j :| 0 <= j < |order| && order[j] == k;
        }
      }
    }
  }

  lemma NetShortIsThere(lines: seq<Line>, k: Series)
    requires NetCalls(Legs(LinesOf(lines, k))) < 0.0
    ensures k in SeriesOf(lines)
  {
    NoLinesElsewhere(lines, k);
  }

  /** Only calls are counted; a series with none of them is not in the map. */
  method NetBySeries(ps: seq<Position>) returns (net: map<Series, real>, order: seq<Series>)
    ensures forall k :: k in net <==> k in order
    ensures forall k :: k in net ==> net[k] == NetCalls(Legs(LinesOf(Lines(ps), k)))
    ensures forall k :: k !in net ==> NetCalls(Legs(LinesOf(Lines(ps), k))) == 0.0
  {
    hide NetCalls, LinesOf, SeriesOf, Lines, LineOf;
    net, order := map[], [];
    assert ps[..0] == [];
    NoLines();
    NothingLaidOut();
    for i := 0 to |ps|
      invariant forall k :: k in net <==> k in order
      invariant forall k :: k in net ==> net[k] == NetCalls(Legs(LinesOf(Lines(ps[..i]), k)))
      invariant forall k :: k !in net ==> NetCalls(Legs(LinesOf(Lines(ps[..i]), k))) == 0.0
    {
      assert ps[..i + 1] == ps[..i] + [ps[i]];
      LinesAppend(ps[..i], ps[i]);
      if ps[i].symbol.Option? {
        var line := LineOf(ps[i]);
        NetCallsAppend(Lines(ps[..i]), line);
        if line.leg.call {
          var sofar := 0.0;
          if line.series in net {
            sofar := net[line.series];
          } else {
            order := order + [line.series];
          }
          net := net[line.series := sofar + line.leg.held];
        }
      }
    }
    assert ps[..|ps|] == ps;
  }
}
