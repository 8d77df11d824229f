/** The book's worst case and the collateral it demands.

    The reference definition of "the worst case" says nothing of groups, strikes or
    slopes: it is the least value the options can have over every choice of a price
    at or above zero for every series. What the code computes is proved to be exactly
    that, and the requirement is proved to be exactly the cash with which the account
    cannot go below zero at any settlement. */
module Risk {
  import opened Payoff
  import opened Contracts
  import opened Groups
  import opened Sums

  datatype Kind = UsOption | UsEquity

  datatype Position = Position(symbol: Symbol, qty: int, avgPrice: real, kind: Kind, mark: real)

  /** A finite worst value, or a loss with no ceiling. */
  datatype Worst = Finite(value: real) | NoCeiling

  datatype Result<T> = Ok(value: T) | Unreadable(symbol: Symbol)

  // ---------- the reference ----------

  /** What a position adds to the options' value at expiry; shares add nothing here. */
  ghost function Contribution(p: Position, prices: Prices): real {
    if IsOption(p) then LegValue(LineOf(p).leg, prices(p.symbol.contract.series)) else 0.0
  }

  ghost function At(prices: Prices): Position -> real {
    p => Contribution(p, prices)
  }

  ghost function OptionsValue(ps: seq<Position>, prices: Prices): real {
    SeqSum(ps, At(prices))
  }

  /** Regulation T on short shares: half as much again as their price. */
  function Margin(p: Position): real {
    if p.kind.UsEquity? && p.qty < 0
    then 1.5 * ((-p.qty) as real) * (if p.mark <= 0.0 then p.avgPrice else p.mark)
    else 0.0
  }

  ghost function Margins(): Position -> real {
    p => Margin(p)
  }

  /** At some prices the options are worth less than the bound. */
  ghost predicate Sink(ps: seq<Position>, bound: real) {
    exists prices: Prices :: NonNegative(prices) && OptionsValue(ps, prices) < bound
  }

  ghost predicate UnboundedBelow(ps: seq<Position>) {
    forall bound: real :: Sink(ps, bound)
  }

  ghost predicate IsWorst(ps: seq<Position>, w: Worst) {
    match w
    case NoCeiling => UnboundedBelow(ps)
    case Finite(v) =>
      && (forall prices: Prices :: NonNegative(prices) ==> OptionsValue(ps, prices) >= v)
      && exists prices: Prices :: NonNegative(prices) && OptionsValue(ps, prices) == v
  }

  /** The account stands at every settlement: what is left after the margin is not
      negative by itself, nor together with the options at any prices. */
  ghost predicate Covers(free: real, ps: seq<Position>) {
    && free >= 0.0
    && forall prices: Prices :: NonNegative(prices) ==> free + OptionsValue(ps, prices) >= 0.0
  }

  /** The account with this much cash stands at every settlement. */
  ghost predicate Suffices(cash: real, ps: seq<Position>) {
    Covers(cash - SeqSum(ps, Margins()), ps)
  }

  predicate IsOption(p: Position) {
    p.kind.UsOption? && p.symbol.Option?
  }

  ghost predicate Readable(p: Position) {
    p.kind.UsEquity? || p.symbol.Option?
  }

  /** The worst value is one number: it cannot be two different ones. */
  lemma WorstIsUnique(ps: seq<Position>, v: Worst, w: Worst)
    requires IsWorst(ps, v) && IsWorst(ps, w)
    ensures v == w
  {
    if v.Finite? {
      assert !Sink(ps, v.value);
    }
    if w.Finite? {
      assert !Sink(ps, w.value);
    }
  }

  // ---------- positions as lines ----------

  function LineOf(p: Position): Line
    requires p.symbol.Option?
  {
    var c := p.symbol.contract;
    Line(c.series, Leg(c.call, c.strike, p.qty as real), 0.0)
  }

  ghost function Lines(ps: seq<Position>): seq<Line> {
    if ps == [] then []
    else
      var last := ps[|ps| - 1];
      Lines(ps[..|ps| - 1]) + if IsOption(last) then [LineOf(last)] else []
  }

  lemma LinesAppend(ps: seq<Position>, p: Position)
    ensures IsOption(p) ==> Lines(ps + [p]) == Lines(ps) + [LineOf(p)]
    ensures !IsOption(p) ==> Lines(ps + [p]) == Lines(ps)
  {
    assert (ps + [p])[..|ps|] == ps;
  }

  lemma {:induction false} LinesAreSound(ps: seq<Position>)
    ensures forall i :: 0 <= i < |Lines(ps)| ==> Lines(ps)[i].leg.strike > 0.0
    ensures forall prices: Prices :: Worth(Lines(ps), prices) == OptionsValue(ps, prices)
  {
    if ps == [] {
    } else {
      var init, last := ps[..|ps| - 1], ps[|ps| - 1];
      LinesAreSound(init);
      forall prices: Prices
        ensures Worth(Lines(ps), prices) == OptionsValue(ps, prices)
      {
        assert OptionsValue(ps, prices) == OptionsValue(init, prices) + Contribution(last, prices);
        if IsOption(last) {
          assert Lines(ps)[..|Lines(init)|] == Lines(init);
          OnlyOwnSeriesMatter(Lines(init), SeriesOf(Lines(ps)), prices);
        } else {
          assert Lines(ps) == Lines(init);
        }
      }
    }
  }

  /** The sums of the lines settle the question for the positions. */
  lemma LeastIsWorst(ps: seq<Position>, done: set<Series>, low: Prices, total: real)
    requires LeastOver(Lines(ps), done, low, total) && SeriesOf(Lines(ps)) <= done
    ensures IsWorst(ps, Finite(total))
  {
    LinesAreSound(ps);
    forall prices: Prices ensures WorthIn(Lines(ps), done, prices) == OptionsValue(ps, prices) {
      OnlyOwnSeriesMatter(Lines(ps), done, prices);
    }
  }

  lemma NetShortCallsHaveNoCeiling(ps: seq<Position>, k: Series)
    requires NetCalls(Legs(LinesOf(Lines(ps), k))) < 0.0
    ensures UnboundedBelow(ps)
  {
    LinesAreSound(ps);
    NetShortCallsSinkForever(Lines(ps), k);
    forall bound: real ensures Sink(ps, bound) {
      assert Sinks(Lines(ps), bound);
    }
  }

  // ---------- the computation ----------

  lemma NoLines()
    ensures Lines([]) == []
  {
  }

  /** The positions laid out by series; a symbol that is not a contract is an error. */
  method Grouped(ps: seq<Position>) returns (groups: Result<map<Series, seq<Line>>>)
    ensures groups.Ok? <==> forall i :: 0 <= i < |ps| ==> Readable(ps[i])
    ensures groups.Ok? ==> LaidOut(groups.value, Lines(ps))
  {
    hide LaidOut, Lay, Lines, LineOf;
    var laid: map<Series, seq<Line>> := map[];
    NoLines();
    NothingLaidOut();
    assert ps[..0] == [];
    for i := 0 to |ps|
      invariant forall j :: 0 <= j < i ==> Readable(ps[j])
      invariant LaidOut(laid, Lines(ps[..i]))
    {
      assert ps[..i + 1] == ps[..i] + [ps[i]];
      LinesAppend(ps[..i], ps[i]);
      if ps[i].kind.UsOption? {
        if ps[i].symbol.Ticker? {
          return Unreadable(ps[i].symbol);
        }
        LayKeepsLaidOut(laid, Lines(ps[..i]), LineOf(ps[i]));
        laid := Lay(laid, LineOf(ps[i]));
      }
    }
    assert ps[..|ps|] == ps;
    groups := Ok(laid);
  }

  /** One group: whether its ray points down, and if not its least value. */
  method WorstOfGroup(group: seq<Line>) returns (worst: Worst, ghost lowest: real)
    requires forall i :: 0 <= i < |Legs(group)| ==> Legs(group)[i].strike > 0.0
    ensures worst.NoCeiling? <==> NetCalls(Legs(group)) < 0.0
    ensures worst.Finite? ==> LeastOfGroup(group, lowest, worst.value)
  {
    hide NetCalls, Probe, GroupWorth, LeastOfGroup;
    lowest := 0.0;
    var slope := CallsNet(group);
    if slope < 0.0 {
      return NoCeiling, lowest;
    }
    var legs := Legs(group);
    var points := [0.0] + Strikes(legs) + [HighestStrike(legs)];
    var least;
    least, lowest := LeastAtPoints(group, points);
    PointsHoldEveryProbe(legs, HighestStrike(legs));
    ProbesFindTheLeast(group, lowest, least);
    worst := Finite(least);
  }

  /** The value of the book at its worst point. */
  method WorstCase(ps: seq<Position>) returns (worst: Result<Worst>)
    ensures worst.Ok? <==> forall i :: 0 <= i < |ps| ==> Readable(ps[i])
    ensures worst.Ok? ==> IsWorst(ps, worst.value)
  {
    hide *;
    var groups := Grouped(ps);
    if groups.Unreadable? {
      return Unreadable(groups.symbol);
    }
    ghost var lines := Lines(ps);
    LinesAreSound(ps);
    WhatIsLaidOut(groups.value, lines);
    var left := groups.value.Keys;
    var total := 0.0;
    ghost var done: set<Series> := {};
    ghost var low: Prices := s => 0.0;
    LeastOverNone(lines);
    PartsAtFirst(left);
    while left != {}
      invariant Parts(left, done, SeriesOf(lines))
      invariant LeastOver(lines, done, low, total)
      decreases |left|
    {
      var k :| k in left;
      PartsMove(left, done, SeriesOf(lines), k);
      left := left - {k};
      GroupLaidOut(groups.value, lines, k);
      var group, lowest := WorstOfGroup(groups.value[k]);
      if group.NoCeiling? {
        NetShortCallsHaveNoCeiling(ps, k);
        UnboundedIsWorst(ps);
        return Ok(NoCeiling);
      }
      LeastOverOneMore(lines, done, low, total, k, lowest, group.value);
      done, low, total := done + {k}, With(low, k, lowest), total + group.value;
    }
    PartsAtLast(done, SeriesOf(lines));
    LeastIsWorst(ps, done, low, total);
    worst := Ok(Finite(total));
  }

  lemma UnboundedIsWorst(ps: seq<Position>)
    requires UnboundedBelow(ps)
    ensures IsWorst(ps, NoCeiling)
  {
  }

  /** How much money the positions demand, or that no money is enough. */
  method Requirement(ps: seq<Position>) returns (need: Result<Worst>)
    ensures need.Ok? <==> forall i :: 0 <= i < |ps| ==> Readable(ps[i])
    ensures need.Ok? ==> (need.value.NoCeiling? <==> UnboundedBelow(ps))
    ensures need.Ok? && need.value.Finite? ==>
              forall cash: real :: Suffices(cash, ps) <==> cash >= need.value.value
  {
    var worst := WorstCase(ps);
    if worst.Unreadable? {
      return Unreadable(worst.symbol);
    }
    if worst.value.NoCeiling? {
      return Ok(NoCeiling);
    }
    var total := if worst.value.value < 0.0 then -worst.value.value else 0.0;
    ghost var options := total;
    for i := 0 to |ps|
      invariant total == options + SeqSum(ps[..i], Margins())
    {
      assert ps[..i + 1] == ps[..i] + [ps[i]];
      SeqSumAppend(ps[..i], ps[i], Margins());
      if ps[i].kind.UsEquity? && ps[i].qty < 0 {
        var price := ps[i].mark;
        if price <= 0.0 {
          price := ps[i].avgPrice;
        }
        total := total + 1.5 * ((-ps[i].qty) as real) * price;
      }
    }
    assert ps[..|ps|] == ps;
    ghost var v := worst.value.value;
    assert !Sink(ps, v);
    ghost var low: Prices :| NonNegative(low) && OptionsValue(ps, low) == v;
    forall cash: real
      ensures Suffices(cash, ps) <==> cash >= total
    {
      var free := cash - SeqSum(ps, Margins());
      if free >= 0.0 && free >= -v {
        assert Covers(free, ps);
      } else if free >= 0.0 {
        assert free + OptionsValue(ps, low) < 0.0;
      }
    }
    need := Ok(Finite(total));
  }

  /** No money covers a book without a ceiling. */
  lemma NothingCoversNoCeiling(ps: seq<Position>, free: real)
    requires UnboundedBelow(ps)
    ensures !Covers(free, ps)
  {
    assert Sink(ps, -free);
  }

  /** With calls net sold nowhere the value has a floor. */
  lemma BoundedWhenNothingIsNamed(ps: seq<Position>)
    requires NoSeriesNetShortCalls(Lines(ps))
    ensures !UnboundedBelow(ps)
  {
    LinesAreSound(ps);
    var low, least := LeastOfAll(Lines(ps), SeriesOf(Lines(ps)));
    assert !Sink(ps, least);
  }

  /** Whatever stands under a contract is an option. */
  predicate ContractsAreOptions(ps: seq<Position>) {
    forall p :: p in ps && p.symbol.Option? ==> p.kind.UsOption?
  }

  /** Net calls, for exactly the series there are. */
  ghost predicate NetOf(calls: map<Series, real>, lines: seq<Line>) {
    && calls.Keys == SeriesOf(lines)
    && forall k :: k in calls ==> calls[k] == NetCalls(Legs(LinesOf(lines, k)))
  }

  /** Calls bought less calls sold, series by series. */
  method NetCallsBySeries(ps: seq<Position>) returns (calls: map<Series, real>)
    requires ContractsAreOptions(ps)
    ensures NetOf(calls, Lines(ps))
  {
    hide NetCalls, LinesOf, SeriesOf, Lines, LineOf;
    calls := map[];
    NoLines();
    NothingLaidOut();
    assert ps[..0] == [];
    for i := 0 to |ps|
      invariant NetOf(calls, Lines(ps[..i]))
    {
      assert ps[..i + 1] == ps[..i] + [ps[i]];
      LinesAppend(ps[..i], ps[i]);
      if ps[i].symbol.Option? {
        var line := LineOf(ps[i]);
        NetCallsAppend(Lines(ps[..i]), line);
        var sofar := if line.series in calls then calls[line.series] else 0.0;
        calls := calls[line.series := sofar + if line.leg.call then line.leg.held else 0.0];
      }
    }
    assert ps[..|ps|] == ps;
  }

  /** The explanation of an infinite requirement: a series whose calls are net sold.
      It is named exactly when the loss has no ceiling, so a refusal that found no
      cause cannot happen. */
  method Unbounded(ps: seq<Position>) returns (cause: seq<Series>)
    requires ContractsAreOptions(ps)
    ensures |cause| <= 1
    ensures cause != [] ==> NetCalls(Legs(LinesOf(Lines(ps), cause[0]))) < 0.0
    ensures cause == [] <==> !UnboundedBelow(ps)
  {
    hide NetCalls, LinesOf, SeriesOf, Lines, UnboundedBelow;
    var calls := NetCallsBySeries(ps);
    ghost var lines := Lines(ps);
    var left := calls.Keys;
    while left != {}
      invariant left <= SeriesOf(lines)
      invariant forall k :: k in SeriesOf(lines) - left ==> NetCalls(Legs(LinesOf(lines, k))) >= 0.0
      decreases |left|
    {
      var k :| k in left;
      left := left - {k};
      if calls[k] < 0.0 {
        NetShortCallsHaveNoCeiling(ps, k);
        return [k];
      }
    }
    BoundedWhenNothingIsNamed(ps);
    cause := [];
  }
}
