/** The state of one account of the paper broker, and the algebra of what it holds.

    Options count in proportion to their quantity, whatever one asks of them: their
    value at some prices, their margin, or how many there are. The lemmas here say once
    what filling some sets of an order does to any such sum. */
module Ledger {
  import opened Payoff
  import opened Contracts
  import opened Sums
  import opened Risk

  datatype Side = Buy | Sell

  type Ratio = n: nat | n >= 1 witness 1

  /** A leg of an order, read and checked at submission: a contract, a side, a count. */
  datatype SetLeg = SetLeg(contract: Contract, side: Side, ratio: Ratio, intent: string)

  datatype Status = New | Partial | Filled | Canceled | Expired | Replaced

  /** Why an order has not filled, or is no more. */
  datatype Why = Quiet | NotEnough | ByTheParticipant | Moved | SessionOver | Noted(text: string)

  /** Instants are whole; zero is the instant never set. */
  type Time = int

  datatype Order = Order(
    id: string,
    clientId: string,
    turnRef: string,
    status: Status,
    qty: int,
    filledQty: int,
    limit: real,
    market: bool,
    filledAvg: real,
    fees: real,
    stand: bool,
    tif: string,
    legs: seq<SetLeg>,
    submittedAt: Time,
    filledAt: Time,
    canceledAt: Time,
    expiresAt: Time,
    movedTo: string,
    movedFrom: string,
    why: Why,
    number: nat)

  datatype EventKind = NoKind | Fill | Expiry | Settlement | Exercise | Assignment

  datatype Event = Event(
    order: string, kind: EventKind, symbol: seq<Symbol>, at: Time, sets: int, price: real, fees: real, filled: bool, why: Why)

  datatype State = State(
    cash: real,
    start: real,
    positions: map<Symbol, Position>,
    orders: map<string, Order>,
    order: seq<string>,
    events: seq<Event>,
    number: nat)

  predicate Open(o: Order) {
    o.status.New? || o.status.Partial?
  }

  function Remaining(o: Order): int {
    o.qty - o.filledQty
  }

  function Signed(leg: SetLeg, sets: int): int {
    if leg.side.Buy? then leg.ratio * sets else -(leg.ratio * sets)
  }

  function ContractsIn(legs: seq<SetLeg>, sets: int): int {
    if legs == [] then 0 else ContractsIn(legs[..|legs| - 1], sets) + legs[|legs| - 1].ratio * sets
  }

  const PER_CONTRACT: real := 0.025

  function Fees(legs: seq<SetLeg>, sets: int): real {
    ContractsIn(legs, sets) as real * PER_CONTRACT
  }

  /** What so many sets cost at a price, fees aside. */
  function Cost(price: real, sets: int): real {
    price * sets as real * 100.0
  }

  // ---------- quantities that add up ----------

  /** What one unit of a contract counts for. */
  type Weight = Contract -> real

  /** On options, the function counts so much for each contract held. */
  ghost predicate CountsBy(f: Position -> real, w: Weight) {
    forall p: Position :: IsOption(p) ==> f(p) == Times(p.qty as real, w(p.symbol.contract))
  }

  /** Positions stand under their own symbol; options under contracts, shares under tickers. */
  ghost predicate WellKept(m: map<Symbol, Position>) {
    forall s :: s in m ==> m[s].symbol == s && (s.Option? <==> m[s].kind.UsOption?)
  }

  ghost function LegWeight(w: Weight): SetLeg -> real {
    (leg: SetLeg) => Times(Signed(leg, 1) as real, w(leg.contract))
  }

  /** What one set of the legs counts for. */
  ghost function SetWeight(legs: seq<SetLeg>, w: Weight): real {
    SeqSum(legs, LegWeight(w))
  }

  lemma SetWeightLast(legs: seq<SetLeg>, w: Weight)
    requires legs != []
    ensures SetWeight(legs, w) == SetWeight(legs[..|legs| - 1], w) + LegWeight(w)(legs[|legs| - 1])
  {
  }

  function Found(m: map<Symbol, Position>, s: Symbol): Position {
    if s in m then m[s] else Position(s, 0, 0.0, UsOption, 0.0)
  }

  /** The projected book: quantities only, and nothing is taken out at zero. */
  function WithLeg(m: map<Symbol, Position>, leg: SetLeg, sets: int): map<Symbol, Position> {
    var s := Option(leg.contract);
    m[s := Found(m, s).(symbol := s, kind := UsOption, qty := Found(m, s).qty + Signed(leg, sets))]
  }

  function WithLegs(m: map<Symbol, Position>, legs: seq<SetLeg>, sets: int): map<Symbol, Position> {
    if legs == [] then m else WithLeg(WithLegs(m, legs[..|legs| - 1], sets), legs[|legs| - 1], sets)
  }

  /** The average entry price after some were bought or sold at a price. */
  function Average(was: int, average: real, signed: int, price: real): real {
    if was == 0 then price
    else if (was > 0 && signed > 0) || (was < 0 && signed < 0)
    then Blended(average, was, price, signed)
    else if Abs(signed) > Abs(was) then price
    else average
  }

  /** So many at one price and so many at another, averaged. */
  function Blended(average: real, was: int, price: real, signed: int): real
    requires was + signed != 0
  {
    (average * Abs(was) + price * Abs(signed)) / Abs(was + signed)
  }

  function Abs(n: int): real {
    if n < 0 then (-n) as real else n as real
  }

  /** The real book after some of a symbol were bought or sold: marked, averaged, and
      taken out when nothing is left. */
  function MovedBy(m: map<Symbol, Position>, s: Symbol, kind: Kind, signed: int, price: real): map<Symbol, Position> {
    if signed == 0 then m
    else
      var p := if s in m then m[s] else Position(s, 0, 0.0, kind, 0.0);
      if p.qty + signed == 0 then m - {s}
      else m[s := p.(mark := price, avgPrice := Average(p.qty, p.avgPrice, signed, price), qty := p.qty + signed)]
  }

  function PriceOf(prices: map<Symbol, real>, s: Symbol): real {
    if s in prices then prices[s] else 0.0
  }

  function Applied(m: map<Symbol, Position>, legs: seq<SetLeg>, sets: int, prices: map<Symbol, real>): map<Symbol, Position> {
    if legs == [] then m
    else
      var leg := legs[|legs| - 1];
      MovedBy(Applied(m, legs[..|legs| - 1], sets, prices), Option(leg.contract), UsOption, Signed(leg, sets),
              PriceOf(prices, Option(leg.contract)))
  }

  lemma SignedIsLinear(leg: SetLeg, sets: int, w: real)
    ensures Times(Signed(leg, sets) as real, w) == Times(sets as real, Times(Signed(leg, 1) as real, w))
  {
    assert Signed(leg, sets) == Signed(leg, 1) * sets;
    ProductAsReal(Signed(leg, 1), sets);
    Regroup(Signed(leg, 1) as real, sets as real, w);
  }

  lemma NoneCountsNothing(n: int, w: real)
    ensures n == 0 ==> Times(n as real, w) == 0.0
  {
  }

  lemma ProductAsReal(a: int, b: int)
    ensures (a * b) as real == a as real * b as real
  {
  }

  lemma Regroup(a: real, b: real, w: real)
    ensures (a * b) * w == b * (a * w)
  {
  }

  lemma CountsTwice(f: Position -> real, w: Weight, p: Position, q: Position)
    requires CountsBy(f, w) && IsOption(p) && IsOption(q) && p.symbol == q.symbol
    ensures f(q) == f(p) + Times((q.qty - p.qty) as real, w(p.symbol.contract))
    ensures p.qty == 0 ==> f(p) == 0.0
    ensures q.qty == 0 ==> f(q) == 0.0
  {
    Distribute((q.qty - p.qty) as real, p.qty as real, w(p.symbol.contract));
  }

  /** The same symbol with another quantity: the sum moves by the difference. */
  lemma Requantified(m: map<Symbol, Position>, s: Symbol, p: Position, q: Position, f: Position -> real, w: Weight)
    requires s.Option? && p.symbol == q.symbol == s && p.kind.UsOption? && q.kind.UsOption?
    requires if s in m then m[s] == p else p.qty == 0
    requires CountsBy(f, w)
    ensures MapSum(m[s := q], f) == MapSum(m, f) + Times((q.qty - p.qty) as real, w(s.contract))
    ensures q.qty == 0 ==> MapSum(m - {s}, f) == MapSum(m[s := q], f)
  {
    hide Times, CountsBy, MapSum;
    MapSumUpdate(m, s, q, f);
    if s in m {
      MapSumRemove(m, s, f);
    }
    CountsTwice(f, w, p, q);
  }

  lemma WithLegCounts(m: map<Symbol, Position>, leg: SetLeg, sets: int, f: Position -> real, w: Weight)
    requires WellKept(m) && CountsBy(f, w)
    ensures WellKept(WithLeg(m, leg, sets))
    ensures MapSum(WithLeg(m, leg, sets), f) == MapSum(m, f) + Times(sets as real, LegWeight(w)(leg))
  {
    hide Times, CountsBy, Signed;
    var s := Option(leg.contract);
    Requantified(m, s, Found(m, s), WithLeg(m, leg, sets)[s], f, w);
    SignedIsLinear(leg, sets, w(leg.contract));
  }

  lemma MovedByCounts(m: map<Symbol, Position>, leg: SetLeg, sets: int, price: real, f: Position -> real, w: Weight)
    requires WellKept(m) && CountsBy(f, w)
    ensures WellKept(MovedBy(m, Option(leg.contract), UsOption, Signed(leg, sets), price))
    ensures MapSum(MovedBy(m, Option(leg.contract), UsOption, Signed(leg, sets), price), f)
         == MapSum(m, f) + Times(sets as real, LegWeight(w)(leg))
  {
    hide Times, CountsBy, Signed, Average;
    var s, signed := Option(leg.contract), Signed(leg, sets);
    var p := Found(m, s);
    SignedIsLinear(leg, sets, w(leg.contract));
    NoneCountsNothing(signed, w(leg.contract));
    if signed != 0 {
      var q := p.(mark := price, avgPrice := Average(p.qty, p.avgPrice, signed, price), qty := p.qty + signed);
      Requantified(m, s, p, q, f, w);
    }
  }

  /** Filling so many sets moves every such sum by that many times what one set counts
      for: in the projected book... */
  lemma {:induction false} WithLegsCounts(m: map<Symbol, Position>, legs: seq<SetLeg>, sets: int, f: Position -> real, w: Weight)
    requires WellKept(m) && CountsBy(f, w)
    ensures WellKept(WithLegs(m, legs, sets))
    ensures MapSum(WithLegs(m, legs, sets), f) == MapSum(m, f) + Times(sets as real, SetWeight(legs, w))
  {
    hide CountsBy, WellKept, WithLeg, Times;
    if legs == [] {
      TimesZero(sets as real);
    } else {
      var init, last := legs[..|legs| - 1], legs[|legs| - 1];
      WithLegsCounts(m, init, sets, f, w);
      WithLegCounts(WithLegs(m, init, sets), last, sets, f, w);
      SetWeightLast(legs, w);
      TimesAdd(sets as real, SetWeight(init, w), LegWeight(w)(last));
    }
  }

  /** ... and in the real one, whatever the entry prices and marks became. */
  lemma {:induction false} AppliedCounts(m: map<Symbol, Position>, legs: seq<SetLeg>, sets: int, prices: map<Symbol, real>,
                                         f: Position -> real, w: Weight)
    requires WellKept(m) && CountsBy(f, w)
    ensures WellKept(Applied(m, legs, sets, prices))
    ensures MapSum(Applied(m, legs, sets, prices), f) == MapSum(m, f) + Times(sets as real, SetWeight(legs, w))
  {
    hide CountsBy, WellKept, MovedBy, Times;
    if legs == [] {
      TimesZero(sets as real);
    } else {
      var init, last := legs[..|legs| - 1], legs[|legs| - 1];
      AppliedCounts(m, init, sets, prices, f, w);
      MovedByCounts(Applied(m, init, sets, prices), last, sets, PriceOf(prices, Option(last.contract)), f, w);
      SetWeightLast(legs, w);
      TimesAdd(sets as real, SetWeight(init, w), LegWeight(w)(last));
    }
  }

  // ---------- what is asked of the positions ----------

  ghost function Payout(prices: Prices): Weight {
    (c: Contract) => 100.0 * Intrinsic(c.call, c.strike, prices(c.series))
  }

  ghost function Nothing(): Weight {
    (c: Contract) => 0.0
  }

  ghost function Quantity(s: Symbol): Position -> real {
    (p: Position) => if p.symbol == s then p.qty as real else 0.0
  }

  ghost function One(s: Symbol): Weight {
    (c: Contract) => if Option(c) == s then 1.0 else 0.0
  }

  lemma ValueCounts(prices: Prices)
    ensures CountsBy(At(prices), Payout(prices))
  {
  }

  lemma MarginCounts()
    ensures CountsBy(Margins(), Nothing())
  {
  }

  lemma QuantityCounts(s: Symbol)
    ensures CountsBy(Quantity(s), One(s))
  {
  }

  lemma {:induction false} NothingWeighsNothing(legs: seq<SetLeg>)
    ensures SetWeight(legs, Nothing()) == 0.0
  {
    if legs == [] {
    } else {
      NothingWeighsNothing(legs[..|legs| - 1]);
      SetWeightLast(legs, Nothing());
      TimesZero(Signed(legs[|legs| - 1], 1) as real);
    }
  }

  /** The free cash stands at every settlement, with what comes on top of it. */
  ghost predicate Stands(free: real, worth: Prices -> real) {
    free >= 0.0 && forall prices: Prices :: NonNegative(prices) ==> free + worth(prices) >= 0.0
  }

  ghost function HeldWorth(m: map<Symbol, Position>): Prices -> real {
    (prices: Prices) => MapSum(m, At(prices))
  }

  ghost function Margined(m: map<Symbol, Position>): real {
    MapSum(m, Margins())
  }

  /** The account with this cash and these positions stands at every settlement. */
  ghost predicate Covered(cash: real, m: map<Symbol, Position>) {
    Stands(cash - Margined(m), HeldWorth(m))
  }

  lemma StandsAlike(free: real, worth: Prices -> real, worth': Prices -> real)
    requires forall prices: Prices :: worth(prices) == worth'(prices)
    ensures Stands(free, worth) == Stands(free, worth')
  {
  }

  /** The projected book and the real one are covered by the same cash. */
  lemma ProjectionIsFaithful(cash: real, m: map<Symbol, Position>, legs: seq<SetLeg>, sets: int, prices: map<Symbol, real>)
    requires WellKept(m)
    ensures WellKept(Applied(m, legs, sets, prices)) && WellKept(WithLegs(m, legs, sets))
    ensures Covered(cash, Applied(m, legs, sets, prices)) == Covered(cash, WithLegs(m, legs, sets))
  {
    hide Applied, WithLegs, Stands, WellKept, CountsBy;
    var real', projected := Applied(m, legs, sets, prices), WithLegs(m, legs, sets);
    MarginCounts();
    AppliedCounts(m, legs, sets, prices, Margins(), Nothing());
    WithLegsCounts(m, legs, sets, Margins(), Nothing());
    forall at: Prices ensures HeldWorth(real')(at) == HeldWorth(projected)(at) {
      ValueCounts(at);
      AppliedCounts(m, legs, sets, prices, At(at), Payout(at));
      WithLegsCounts(m, legs, sets, At(at), Payout(at));
    }
    StandsAlike(cash - Margined(real'), HeldWorth(real'), HeldWorth(projected));
  }

  // ---------- positions laid out in a list ----------

  ghost predicate IgnoresZero(f: Position -> real) {
    forall p: Position :: p.qty == 0 ==> f(p) == 0.0
  }

  /** The list holds what the map holds, in whatever order, but for what is at zero. */
  ghost predicate Lists(ps: seq<Position>, m: map<Symbol, Position>) {
    forall f: Position -> real :: IgnoresZero(f) ==> SeqSum(ps, f) == MapSum(m, f)
  }

  lemma ListsOneMore(ps: seq<Position>, m: map<Symbol, Position>, s: Symbol, p: Position)
    requires Lists(ps, m) && s !in m
    ensures Lists(if p.qty == 0 then ps else ps + [p], m[s := p])
  {
    forall f: Position -> real | IgnoresZero(f)
      ensures SeqSum(if p.qty == 0 then ps else ps + [p], f) == MapSum(m[s := p], f)
    {
      MapSumUpdate(m, s, p, f);
      SeqSumAppend(ps, p, f);
    }
  }

  /** The list of a map's positions, those at zero left out. */
  method Listed(m: map<Symbol, Position>) returns (ps: seq<Position>)
    requires WellKept(m)
    ensures Lists(ps, m)
    ensures forall i :: 0 <= i < |ps| ==> Readable(ps[i]) && ps[i].symbol in m
  {
    hide Lists;
    ps := [];
    var left := m.Keys;
    ghost var done: map<Symbol, Position> := map[];
    NothingListed();
    while left != {}
      invariant left <= m.Keys && done == m - left
      invariant Lists(ps, done)
      invariant forall i :: 0 <= i < |ps| ==> Readable(ps[i]) && ps[i].symbol in m
      decreases |left|
    {
      var s :| s in left;
      ListsOneMore(ps, done, s, m[s]);
      left := left - {s};
      done := done[s := m[s]];
      if m[s].qty != 0 {
        ps := ps + [m[s]];
      }
    }
    assert done == m;
  }

  lemma NothingListed()
    ensures Lists([], map[])
  {
  }

  /** Cash suffices for the list exactly when it covers the map. */
  lemma ListSuffices(cash: real, ps: seq<Position>, m: map<Symbol, Position>)
    requires Lists(ps, m)
    ensures Suffices(cash, ps) == Covered(cash, m)
  {
    assert IgnoresZero(Margins());
    forall prices: Prices ensures OptionsValue(ps, prices) == HeldWorth(m)(prices) {
      AtIgnoresZero(prices);
    }
  }

  lemma AtIgnoresZero(prices: Prices)
    ensures IgnoresZero(At(prices))
  {
  }

  /** Whether the cash meets the requirement of the positions. */
  method Meets(ps: seq<Position>, cash: real) returns (enough: bool)
    requires forall i :: 0 <= i < |ps| ==> Readable(ps[i])
    ensures enough == Suffices(cash, ps)
  {
    var need := Requirement(ps);
    if need.value.NoCeiling? {
      NothingCoversNoCeiling(ps, cash - SeqSum(ps, Margins()));
      return false;
    }
    enough := !(cash < need.value.value);
  }
}
