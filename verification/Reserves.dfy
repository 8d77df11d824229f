/** Collateral over whole trading runs: the account is covered after every operation, and
    with limit orders it stays covered even when every standing order fills at its limit. */
module Reserves {
  import opened Payoff
  import opened Contracts
  import opened Sums
  import opened Risk
  import opened Ledger
  import opened Account

  // ---------- money is linear in the sets ----------

  lemma {:induction false} ContractsAdd(legs: seq<SetLeg>, a: int, b: int)
    ensures ContractsIn(legs, a + b) == ContractsIn(legs, a) + ContractsIn(legs, b)
  {
    if legs == [] {
    } else {
      ContractsAdd(legs[..|legs| - 1], a, b);
      RatioAdds(legs[|legs| - 1].ratio, a, b);
    }
  }

  lemma RatioAdds(ratio: int, a: int, b: int)
    ensures ratio * (a + b) == ratio * a + ratio * b
  {
  }

  lemma CostAdds(price: real, a: int, b: int)
    ensures Cost(price, a + b) == Cost(price, a) + Cost(price, b)
  {
    Distribute(a as real, b as real, price * 100.0);
    CostAs(price, a);
    CostAs(price, b);
    CostAs(price, a + b);
  }

  lemma CostAs(price: real, n: int)
    ensures Cost(price, n) == n as real * (price * 100.0)
  {
  }

  lemma OwedAdds(legs: seq<SetLeg>, price: real, a: int, b: int)
    ensures Owed(legs, price, a + b) == Owed(legs, price, a) + Owed(legs, price, b)
  {
    hide ContractsIn, Cost;
    ContractsAdd(legs, a, b);
    CostAdds(price, a, b);
  }

  lemma OwedAtLess(legs: seq<SetLeg>, price: real, limit: real, sets: int)
    requires price <= limit && sets >= 0
    ensures Owed(legs, price, sets) <= Owed(legs, limit, sets)
  {
    CostAs(price, sets);
    CostAs(limit, sets);
    ProductOfNonNegatives(sets as real, (limit - price) * 100.0);
  }

  // ---------- one order changes ----------

  lemma OrderChanged(orders: map<string, Order>, id: string, o: Order, g: Order -> real)
    requires id in orders
    ensures MapSum(orders[id := o], g) == MapSum(orders, g) - g(orders[id]) + g(o)
  {
    MapSumUpdate(orders, id, o, g);
    MapSumRemove(orders, id, g);
  }

  lemma OrderEntered(orders: map<string, Order>, id: string, o: Order, g: Order -> real)
    requires id !in orders
    ensures MapSum(orders[id := o], g) == MapSum(orders, g) + g(o)
  {
    MapSumUpdate(orders, id, o, g);
  }

  /** An order that stands as before, whatever else about it changed. */
  predicate StandsAsBefore(o: Order, o': Order) {
    o'.legs == o.legs && o'.limit == o.limit && Standing(o') == Standing(o)
  }

  lemma SameReserve(s: State, id: string, o: Order)
    requires id in s.orders && StandsAsBefore(s.orders[id], o)
    ensures Reserved(Changed(s, id, o)) == Reserved(s)
  {
    hide Standing, Owed, Times, Stands;
    var t := Changed(s, id, o);
    OrderChanged(s.orders, id, o, Money());
    forall prices: Prices ensures ReservedWorth(t)(prices) == ReservedWorth(s)(prices) {
      OrderChanged(s.orders, id, o, StandingWeight(Payout(prices)));
    }
    StandsAlike(CashLeft(s) - Margined(s.positions), ReservedWorth(s), ReservedWorth(t));
  }

  // ---------- a booked fill ----------

  lemma FillStands(o: Order, sets: int, price: real, now: Time)
    requires Open(o) && 0 <= o.filledQty && 1 <= sets <= Remaining(o)
    ensures Standing(o) == Standing(FilledBy(o, sets, price, now)) + sets
  {
  }

  lemma HeldGains(m: map<Symbol, Position>, legs: seq<SetLeg>, sets: int, marks: map<Symbol, real>, prices: Prices)
    requires WellKept(m)
    ensures HeldWorth(Applied(m, legs, sets, marks))(prices)
         == HeldWorth(m)(prices) + Times(sets as real, SetWeight(legs, Payout(prices)))
  {
    hide Times, CountsBy, WellKept, Applied;
    ValueCounts(prices);
    AppliedCounts(m, legs, sets, marks, At(prices), Payout(prices));
  }

  lemma StandingLoses(s: State, id: string, sets: int, price: real, now: Time, w: Weight)
    requires Fillable(s, id, sets) && s.orders[id].filledQty >= 0
    ensures MapSum(s.orders[id := FilledBy(s.orders[id], sets, price, now)], StandingWeight(w))
         == MapSum(s.orders, StandingWeight(w)) - Times(sets as real, SetWeight(s.orders[id].legs, w))
  {
    hide Standing, Times;
    var o := s.orders[id];
    var o' := FilledBy(o, sets, price, now);
    FillStands(o, sets, price, now);
    OrderChanged(s.orders, id, o', StandingWeight(w));
    SplitTimes(Standing(o'), sets, SetWeight(o.legs, w));
    StandingWeighs(o, w);
    StandingWeighs(o', w);
  }

  /** What the fill takes of the reserve, the account gains in its place. */
  lemma FillMovesWorth(s: State, id: string, sets: int, price: real, marks: map<Symbol, real>, now: Time, prices: Prices)
    requires WellKept(s.positions) && Fillable(s, id, sets) && s.orders[id].filledQty >= 0
    ensures ReservedWorth(Booked(s, id, sets, price, marks, now))(prices) == ReservedWorth(s)(prices)
  {
    hide Times, WellKept, Applied, FilledBy, HeldWorth, SetWeight;
    HeldGains(s.positions, s.orders[id].legs, sets, marks, prices);
    StandingLoses(s, id, sets, price, now, Payout(prices));
  }

  lemma StandingWeighs(o: Order, w: Weight)
    ensures StandingWeight(w)(o) == Times(Standing(o) as real, SetWeight(o.legs, w))
  {
    hide Standing, Times;
  }

  lemma SplitTimes(a: int, b: int, x: real)
    ensures Times((a + b) as real, x) == Times(a as real, x) + Times(b as real, x)
  {
    Distribute(a as real, b as real, x);
  }

  lemma FillFreesCash(s: State, id: string, sets: int, price: real, marks: map<Symbol, real>, now: Time)
    requires Fillable(s, id, sets) && s.orders[id].filledQty >= 0 && price <= s.orders[id].limit
    ensures CashLeft(Booked(s, id, sets, price, marks, now)) >= CashLeft(s)
  {
    hide Standing, Owed, Applied;
    var o := s.orders[id];
    var o' := FilledBy(o, sets, price, now);
    FillStands(o, sets, price, now);
    OrderChanged(s.orders, id, o', Money());
    OwedAdds(o.legs, o.limit, Standing(o'), sets);
    OwedAtLess(o.legs, price, o.limit, sets);
  }

  lemma MarginStays(m: map<Symbol, Position>, legs: seq<SetLeg>, sets: int, marks: map<Symbol, real>)
    requires WellKept(m)
    ensures Margined(Applied(m, legs, sets, marks)) == Margined(m)
  {
    MarginCounts();
    AppliedCounts(m, legs, sets, marks, Margins(), Nothing());
    NothingWeighsNothing(legs);
    TimesZero(sets as real);
  }

  lemma MoreCashStands(free: real, more: real, worth: Prices -> real)
    requires Stands(free, worth) && more >= free
    ensures Stands(more, worth)
  {
  }

  /** A fill booked at or under the limit keeps the reserve. */
  lemma FillKeepsReserved(s: State, id: string, sets: int, price: real, marks: map<Symbol, real>, now: Time)
    requires Kept(s) && Reserved(s) && Fillable(s, id, sets) && price <= s.orders[id].limit
    ensures Reserved(Booked(s, id, sets, price, marks, now))
  {
    hide Enumerates, InSequence, Stands, WellKept, Applied, ReservedWorth, CashLeft, FilledBy;
    var t := Booked(s, id, sets, price, marks, now);
    FillFreesCash(s, id, sets, price, marks, now);
    MarginStays(s.positions, s.orders[id].legs, sets, marks);
    forall prices: Prices ensures ReservedWorth(t)(prices) == ReservedWorth(s)(prices) {
      FillMovesWorth(s, id, sets, price, marks, now, prices);
    }
    StandsAlike(CashLeft(s) - Margined(s.positions), ReservedWorth(s), ReservedWorth(t));
    MoreCashStands(CashLeft(s) - Margined(s.positions), CashLeft(t) - Margined(t.positions), ReservedWorth(t));
  }

  // ---------- runs ----------

  /** Every operation but expiry settlement and new marks. */
  predicate Trades(op: Op) {
    !op.Settle? && !op.SetMarks?
  }

  /** The account is covered after every trading operation: what it can lose at any
      settlement, with half as much again for short shares, is there in cash. */
  lemma StepKeepsCovered(s: State, op: Op)
    requires Trades(op) && Covered(s.cash, s.positions)
    ensures Covered(Step(s, op).cash, Step(s, op).positions)
  {
    hide Covered, Reserved, Applied, FilledBy;
  }

  lemma {:induction false} EveryTradingRunIsCovered(s: State, ops: seq<Op>)
    requires Covered(s.cash, s.positions) && forall i :: 0 <= i < |ops| ==> Trades(ops[i])
    ensures Covered(Run(s, ops).cash, Run(s, ops).positions)
  {
    hide Covered, Step;
    if ops == [] {
    } else {
      EveryTradingRunIsCovered(s, ops[..|ops| - 1]);
      StepKeepsCovered(Run(s, ops[..|ops| - 1]), ops[|ops| - 1]);
    }
  }

  /** The operations under which the reserve is inductive: none withdraws an order, and
      no fill is above its order's limit. */
  predicate KeepsOrders(s: State, op: Op) {
    match op
    case Fill(id, _, price, _, _) => id in s.orders ==> price <= s.orders[id].limit
    case Submit(_, _) => true
    case Replace(_, _, _, _, _, _) => true
    case Note(_, _) => true
    case MarkStand(_) => true
    case _ => false
  }

  lemma StepKeepsReserved(s: State, op: Op)
    requires Kept(s) && Reserved(s) && KeepsOrders(s, op)
    ensures Reserved(Step(s, op))
  {
    hide Reserved, Covered, Kept, Booked, Exchanged, Placed;
    match op
    case Fill(id, sets, price, marks, now) =>
      if Fillable(s, id, sets) && s.orders[id].filledQty >= 0 {
        FillKeepsReserved(s, id, sets, price, marks, now);
        RefusalKeepsReserved(s, id, sets, price, now);
      }
    case Note(id, text) =>
      if id in s.orders && Open(s.orders[id]) {
        SameReserve(s, id, s.orders[id].(why := Noted(text)));
      }
    case MarkStand(id) =>
      if id in s.orders {
        SameReserve(s, id, s.orders[id].(stand := true));
      }
    case _ =>
  }

  lemma RefusalKeepsReserved(s: State, id: string, sets: int, price: real, now: Time)
    requires Reserved(s) && Fillable(s, id, sets)
    ensures Reserved(Refused(s, id, sets, price, now))
  {
    SameReserve(s, id, s.orders[id].(why := NotEnough));
    OnlyThatMatters(Changed(s, id, s.orders[id].(why := NotEnough)), Refused(s, id, sets, price, now));
  }

  lemma OnlyThatMatters(s: State, t: State)
    requires t.cash == s.cash && t.orders == s.orders && t.positions == s.positions
    ensures Reserved(t) == Reserved(s)
  {
    StandsAlike(CashLeft(s) - Margined(s.positions), ReservedWorth(s), ReservedWorth(t));
  }

  ghost predicate AllKeepOrders(s: State, ops: seq<Op>) {
    ops == [] ||
    (AllKeepOrders(s, ops[..|ops| - 1]) && KeepsOrders(Run(s, ops[..|ops| - 1]), ops[|ops| - 1]))
  }

  lemma NewAccountIsReserved(start: real)
    requires start >= 0.0
    ensures Reserved(Opened(start)) && Covered(start, map[])
  {
    var s := Opened(start);
    assert Margined(s.positions) == 0.0 && CashLeft(s) == start;
    forall prices: Prices
      ensures HeldWorth(s.positions)(prices) == 0.0 && ReservedWorth(s)(prices) == 0.0
    {
    }
  }

  /** Reserved collateral is inductive: from an account just opened, after any run of
      accepted and refused submissions and moves and of fills at or under the limit, the
      cash still covers the book with every standing order filled at its own limit. */
  lemma {:induction false} EveryRunIsReserved(start: real, ops: seq<Op>)
    requires start >= 0.0 && AllKeepOrders(Opened(start), ops)
    ensures Reserved(Run(Opened(start), ops))
  {
    hide Reserved, Kept, Step, Covered, KeepsOrders;
    NewAccountIsReserved(start);
    if ops == [] {
    } else {
      var before := ops[..|ops| - 1];
      EveryRunIsReserved(start, before);
      EveryRunIsKept(start, before);
      StepKeepsReserved(Run(Opened(start), before), ops[|ops| - 1]);
    }
  }
}
